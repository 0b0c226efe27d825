/**
 * The result handler of `getTrackingsInformation` in
 * lambda/custom/aftership.js and its `sortTrackingsInformation`: the older
 * normalisation (first same-tag checkpoint, a separate delivery time, a
 * last-updated day only when no delivery date exists), day-level grouping
 * over every field of an entry, a count with no tracking ids, and the older
 * tie-break order.
 */
module LegacyRecords {
  import opened Wrappers
  import opened Strings
  import opened Clocks
  import opened Tracking
  import Ranking

  /** One tracking of the `/trackings` response, restricted to the requested fields. */
  datatype LegacyRecord = LegacyRecord(
    title: string,
    slug: string,
    tag: string,
    updatedAt: Option<int>,
    expectedDelivery: Option<int>,
    note: Option<string>,
    checkpoints: seq<Checkpoint>)

  /** The configuration the handler reads. */
  datatype LegacySettings = LegacySettings(
    /** `config.AFTERSHIP_NOTE_TAGGING`, `null` when not configured. */
    noteTagging: Option<string>,
    /** `note.match(new RegExp(AFTERSHIP_NOTE_TAGGING))` is truthy. */
    noteMatch: string -> bool,
    /** `config.AFTERSHIP_DAYS_PAST_DELIVERED`. */
    daysPastDelivered: int,
    /** `config.AFTERSHIP_TRACKING_COUNT_LIMIT`. */
    countLimit: nat,
    /** `config.DEFAULT_COUNTRY`. */
    defaultCountry: string)

  /**
   * One element of the response: the keymap fields, `count`, and the
   * `address` and `message` the address and list steps add later.
   */
  datatype LegacyEntry = LegacyEntry(
    tag: string,
    slug: string,
    title: string,
    date: Option<int>,
    time: Option<string>,
    location: Option<string>,
    lastUpdated: Option<int>,
    count: nat,
    address: Option<string>,
    message: seq<string>)

  // ---------------------------------------------------------------------------
  // Normalisation

  /** The note test: skipped when no tagging is configured, else the note must exist and match. */
  predicate NoteKept(settings: LegacySettings, r: LegacyRecord) {
    !Truthy(settings.noteTagging) || (Truthy(r.note) && settings.noteMatch(r.note.value))
  }

  /** The position of the first checkpoint with the tag, or -1: where `checkpoints.some(...)` stops. */
  function FirstWithTag(cps: seq<Checkpoint>, tag: string): (r: int)
    ensures -1 <= r < |cps|
    ensures r >= 0 ==> cps[r].tag == tag
    ensures forall j :: 0 <= j < |cps| && (r < 0 || j < r) ==> cps[j].tag != tag
  {
    if |cps| == 0 then -1
    else if cps[0].tag == tag then 0
    else var t := FirstWithTag(cps[1..], tag); if t < 0 then -1 else t + 1
  }

  /** The tags whose delivery fields come from a checkpoint. */
  predicate FromCheckpoint(tag: string) {
    tag == "OutForDelivery" || tag == "Delivered"
  }

  /** `delivery_date`, `delivery_time` and `delivery_location` after the delivery step. */
  function DeliveryFields(clock: Clock, r: LegacyRecord): (Option<int>, Option<string>, Option<string>) {
    if FromCheckpoint(r.tag) then
      var k := FirstWithTag(r.checkpoints, r.tag);
      if k < 0 then (None, None, None)
      else
        var cp := r.checkpoints[k];
        if cp.checkpointTime.Some? then
          (Some(clock.startOfDay(cp.checkpointTime.value)), Some(clock.timeOfDay(cp.checkpointTime.value)), DeliveryLocation(cp))
        else (None, None, DeliveryLocation(cp))
    else if r.expectedDelivery.Some? then (Some(clock.startOfDay(r.expectedDelivery.value)), None, None)
    else (None, None, None)
  }

  /** The entry `response.push` would add for the record: its keymap fields and a count of one. */
  function LegacyNewEntry(clock: Clock, r: LegacyRecord): (e: LegacyEntry)
    ensures e.tag == r.tag && e.slug == r.slug && e.title == r.title && e.count == 1 && e.address.None?
    ensures !FromCheckpoint(r.tag) ==>
      e.time.None? && e.location.None?
      && e.date == (if r.expectedDelivery.Some? then Some(clock.startOfDay(r.expectedDelivery.value)) else None)
    ensures FromCheckpoint(r.tag) ==> forall i :: 0 <= i < |r.checkpoints| ==>
      ((r.checkpoints[i].tag == r.tag && forall j :: 0 <= j < i ==> r.checkpoints[j].tag != r.tag) ==>
        var t := r.checkpoints[i].checkpointTime;
        e.location == DeliveryLocation(r.checkpoints[i])
        && e.date == (if t.Some? then Some(clock.startOfDay(t.value)) else None)
        && e.time == (if t.Some? then Some(clock.timeOfDay(t.value)) else None))
    ensures e.lastUpdated == if e.date.None? && r.updatedAt.Some? then Some(clock.startOfDay(r.updatedAt.value)) else None
  {
    var f := DeliveryFields(clock, r);
    var lastUpdated := if f.0.None? && r.updatedAt.Some? then Some(clock.startOfDay(r.updatedAt.value)) else None;
    LegacyEntry(r.tag, r.slug, r.title, f.0, f.1, f.2, lastUpdated, 1, None, [])
  }

  /** A delivered package whose delivery day or last-updated day lies too many days before today. */
  predicate LegacyStale(clock: Clock, settings: LegacySettings, e: LegacyEntry) {
    e.tag == "Delivered"
    && ((e.date.Some? && clock.daysBetween(e.date.value, clock.today) < -settings.daysPastDelivered)
        || (e.lastUpdated.Some? && clock.daysBetween(e.lastUpdated.value, clock.today) < -settings.daysPastDelivered))
  }

  /** Whether a record reaches the grouping step. */
  predicate LegacyKept(clock: Clock, settings: LegacySettings, r: LegacyRecord) {
    NoteKept(settings, r) && !LegacyStale(clock, settings, LegacyNewEntry(clock, r))
  }

  /** The new entries of the records that reach the grouping step, in order. */
  function LegacySurvivors(clock: Clock, settings: LegacySettings, rs: seq<LegacyRecord>): (es: seq<LegacyEntry>)
    ensures |es| <= |rs|
    decreases |rs|
  {
    if |rs| == 0 then []
    else
      var r := rs[|rs| - 1];
      LegacySurvivors(clock, settings, rs[..|rs| - 1])
      + (if LegacyKept(clock, settings, r) then [LegacyNewEntry(clock, r)] else [])
  }

  /** A survivor is the new entry of a record whose note passes and which is not stale. */
  lemma {:induction false} LegacySurvivorsAreKept(clock: Clock, settings: LegacySettings, rs: seq<LegacyRecord>)
    ensures forall e :: e in LegacySurvivors(clock, settings, rs) ==>
      exists r :: r in rs && e == LegacyNewEntry(clock, r) && LegacyKept(clock, settings, r)
    decreases |rs|
  {
    if |rs| > 0 {
      LegacySurvivorsAreKept(clock, settings, rs[..|rs| - 1]);
      forall e | e in LegacySurvivors(clock, settings, rs)
        ensures exists r :: r in rs && e == LegacyNewEntry(clock, r) && LegacyKept(clock, settings, r)
      {
        if e in LegacySurvivors(clock, settings, rs[..|rs| - 1]) {
          var r :| r in rs[..|rs| - 1] && e == LegacyNewEntry(clock, r) && LegacyKept(clock, settings, r);
          assert r in rs;
        } else {
          assert rs[|rs| - 1] in rs;
        }
      }
    }
  }

  /** Every record whose note passes and which is not stale survives. */
  lemma {:induction false} LegacyKeptAreSurvivors(clock: Clock, settings: LegacySettings, rs: seq<LegacyRecord>)
    ensures forall r :: r in rs && LegacyKept(clock, settings, r) ==>
      LegacyNewEntry(clock, r) in LegacySurvivors(clock, settings, rs)
    decreases |rs|
  {
    if |rs| > 0 {
      LegacyKeptAreSurvivors(clock, settings, rs[..|rs| - 1]);
      forall r | r in rs && LegacyKept(clock, settings, r)
        ensures LegacyNewEntry(clock, r) in LegacySurvivors(clock, settings, rs)
      {
        if r != rs[|rs| - 1] {
          assert rs == rs[..|rs| - 1] + [rs[|rs| - 1]];
          assert r in rs[..|rs| - 1];
        }
      }
    }
  }

  /** Only delivered packages are ever stale, and only a stale or unmatched note drops a record. */
  lemma LegacyStaleOnlyDelivered(clock: Clock, settings: LegacySettings, r: LegacyRecord)
    ensures LegacyStale(clock, settings, LegacyNewEntry(clock, r)) ==> r.tag == "Delivered"
    ensures r.tag != "Delivered" ==> (LegacyKept(clock, settings, r) <==> NoteKept(settings, r))
    ensures !Truthy(settings.noteTagging) && r.tag != "Delivered" ==> LegacyKept(clock, settings, r)
  {
  }

  /** A last-updated day is set only for a package with no delivery date. */
  lemma LastUpdatedOnlyUndated(clock: Clock, r: LegacyRecord)
    ensures LegacyNewEntry(clock, r).lastUpdated.Some? ==>
      LegacyNewEntry(clock, r).date.None? && r.updatedAt.Some?
  {
  }

  // ---------------------------------------------------------------------------
  // Grouping

  /** `['AttemptFail', 'Exception', 'Delivered', 'OutForDelivery'].indexOf(tag)`, spelled out. */
  function LegacyBucket(tag: string): int {
    if tag == "AttemptFail" then 0
    else if tag == "Exception" then 1
    else if tag == "Delivered" then 2
    else if tag == "OutForDelivery" then 3
    else -1
  }

  const LegacyGroupTags: seq<string> := ["AttemptFail", "Exception", "Delivered", "OutForDelivery"]

  lemma LegacyBucketIsIndex(tag: string)
    ensures LegacyBucket(tag) == IndexOf(LegacyGroupTags, tag)
  {
    var t := LegacyGroupTags;
    assert t[1..][1..][1..][1..] == [];
  }

  /** Two moments (or two missing ones) on the same day, by `diff(..., 'days')`. */
  predicate SameDay(clock: Clock, a: Option<int>, b: Option<int>) {
    (a.None? && b.None?) || (a.Some? && b.Some? && clock.daysBetween(a.value, b.value) == 0)
  }

  /**
   * The `every` test of an existing entry against the new one: every key but
   * `count`, with tags compared by bucket, moments by day and the rest strictly.
   */
  predicate LegacyMatches(clock: Clock, item: LegacyEntry, e: LegacyEntry) {
    LegacyBucket(item.tag) == LegacyBucket(e.tag)
    && item.slug == e.slug
    && item.title == e.title
    && SameDay(clock, item.date, e.date)
    && item.time == e.time
    && item.location == e.location
    && SameDay(clock, item.lastUpdated, e.lastUpdated)
  }

  /** The position of the first matching entry, or -1: where `response.some(...)` stops. */
  function LegacyFindMatch(clock: Clock, response: seq<LegacyEntry>, e: LegacyEntry): (r: int)
    ensures -1 <= r < |response|
    ensures r >= 0 ==> LegacyMatches(clock, response[r], e)
    ensures forall j :: 0 <= j < |response| && (r < 0 || j < r) ==> !LegacyMatches(clock, response[j], e)
  {
    if |response| == 0 then -1
    else if LegacyMatches(clock, response[0], e) then 0
    else var t := LegacyFindMatch(clock, response[1..], e); if t < 0 then -1 else t + 1
  }

  /** `item.count += 1`. */
  function Bumped(e: LegacyEntry): LegacyEntry {
    e.(count := e.count + 1)
  }

  /** One entry added to the response: it bumps the first matching entry, or is appended. */
  function LegacyAdd(clock: Clock, response: seq<LegacyEntry>, e: LegacyEntry): seq<LegacyEntry> {
    var i := LegacyFindMatch(clock, response, e);
    if i < 0 then response + [e] else response[i := Bumped(response[i])]
  }

  /** The response after the surviving entries, in order. */
  function LegacyGroup(clock: Clock, es: seq<LegacyEntry>): seq<LegacyEntry>
    decreases |es|
  {
    if |es| == 0 then [] else LegacyAdd(clock, LegacyGroup(clock, es[..|es| - 1]), es[|es| - 1])
  }

  function LegacyCountSum(es: seq<LegacyEntry>): nat
    decreases |es|
  {
    if |es| == 0 then 0 else LegacyCountSum(es[..|es| - 1]) + es[|es| - 1].count
  }

  /** The fields the match test reads. */
  predicate LegacySameKey(a: LegacyEntry, b: LegacyEntry) {
    a.tag == b.tag && a.slug == b.slug && a.title == b.title && a.date == b.date
    && a.time == b.time && a.location == b.location && a.lastUpdated == b.lastUpdated
  }

  predicate PositiveCounts(es: seq<LegacyEntry>) {
    forall i :: 0 <= i < |es| ==> es[i].count >= 1
  }

  predicate LegacyNoLaterMatch(clock: Clock, es: seq<LegacyEntry>) {
    forall i, j :: 0 <= i < j < |es| ==> !LegacyMatches(clock, es[i], es[j])
  }

  /** A bump adds one to the sum of the counts. */
  lemma {:induction false} LegacyCountSumBump(es: seq<LegacyEntry>, i: nat)
    requires i < |es|
    ensures LegacyCountSum(es[i := Bumped(es[i])]) == LegacyCountSum(es) + 1
    decreases |es|
  {
    var n := |es| - 1;
    var r := es[i := Bumped(es[i])];
    if i < n {
      LegacyCountSumBump(es[..n], i);
      assert r[..n] == es[..n][i := Bumped(es[..n][i])];
    } else {
      assert r[..n] == es[..n];
    }
  }

  /** A step either appends an entry with a count of one or bumps one count; no key changes. */
  lemma LegacyAddShape(clock: Clock, response: seq<LegacyEntry>, e: LegacyEntry)
    ensures var r := LegacyAdd(clock, response, e);
      |response| <= |r| <= |response| + 1
      && (forall i :: 0 <= i < |response| ==> LegacySameKey(r[i], response[i]))
      && (|r| == |response| + 1 ==> r[|response|] == e)
      && (|r| == |response| ==> exists i :: 0 <= i < |response| && r == response[i := Bumped(response[i])])
  {
    var i := LegacyFindMatch(clock, response, e);
    if i >= 0 {
      assert LegacyAdd(clock, response, e) == response[i := Bumped(response[i])];
    }
  }

  /** Each step keeps the counts positive, adds one to their sum, and no entry comes to match an earlier one. */
  lemma LegacyAddKeeps(clock: Clock, response: seq<LegacyEntry>, e: LegacyEntry)
    requires PositiveCounts(response) && LegacyNoLaterMatch(clock, response)
    requires e.count == 1
    ensures var r := LegacyAdd(clock, response, e);
      PositiveCounts(r) && LegacyNoLaterMatch(clock, r) && LegacyCountSum(r) == LegacyCountSum(response) + 1
  {
    var i := LegacyFindMatch(clock, response, e);
    var r := LegacyAdd(clock, response, e);
    if i < 0 {
      assert r[..|response|] == response;
    } else {
      LegacyCountSumBump(response, i);
      forall a, b | 0 <= a < b < |r| ensures !LegacyMatches(clock, r[a], r[b]) {
        assert LegacySameKey(r[a], response[a]) && LegacySameKey(r[b], response[b]);
      }
    }
  }

  /**
   * The grouping invariants: every count is positive, the counts add up to
   * the number of surviving records, and no entry matches an earlier one.
   */
  lemma {:induction false} LegacyGroupInvariants(clock: Clock, es: seq<LegacyEntry>)
    requires forall i :: 0 <= i < |es| ==> es[i].count == 1
    ensures var g := LegacyGroup(clock, es);
      PositiveCounts(g) && LegacyNoLaterMatch(clock, g) && LegacyCountSum(g) == |es| && |g| <= |es|
    decreases |es|
  {
    if |es| > 0 {
      var n := |es| - 1;
      LegacyGroupInvariants(clock, es[..n]);
      LegacyAddKeeps(clock, LegacyGroup(clock, es[..n]), es[n]);
      LegacyAddShape(clock, LegacyGroup(clock, es[..n]), es[n]);
    }
  }

  /** Every surviving entry is new, with a count of one. */
  lemma {:induction false} LegacySurvivorsCountOne(clock: Clock, settings: LegacySettings, rs: seq<LegacyRecord>)
    ensures forall i :: 0 <= i < |LegacySurvivors(clock, settings, rs)| ==> LegacySurvivors(clock, settings, rs)[i].count == 1
    decreases |rs|
  {
    if |rs| > 0 {
      LegacySurvivorsCountOne(clock, settings, rs[..|rs| - 1]);
    }
  }

  /** With reflexive day differences, an entry matches itself, so a repeated record always joins. */
  lemma MatchesItself(clock: Clock, e: LegacyEntry)
    requires DaysReflexive(clock)
    ensures LegacyMatches(clock, e, e)
  {
    if e.date.Some? {
      var t := e.date.value;
      assert clock.daysBetween(t, t) == 0;
    }
    if e.lastUpdated.Some? {
      var t := e.lastUpdated.value;
      assert clock.daysBetween(t, t) == 0;
    }
  }

  /** Some entry of the response matches the package's entry. */
  ghost predicate LegacyPlaced(clock: Clock, g: seq<LegacyEntry>, e: LegacyEntry) {
    exists i :: 0 <= i < |g| && LegacyMatches(clock, g[i], e)
  }

  /** A step keeps every earlier package placed, since no key changes. */
  lemma LegacyPlacedStep(clock: Clock, prev: seq<LegacyEntry>, e: LegacyEntry, q: LegacyEntry)
    requires LegacyPlaced(clock, prev, q)
    ensures LegacyPlaced(clock, LegacyAdd(clock, prev, e), q)
  {
    var i :| 0 <= i < |prev| && LegacyMatches(clock, prev[i], q);
    LegacyAddShape(clock, prev, e);
    var g := LegacyAdd(clock, prev, e);
    assert LegacySameKey(g[i], prev[i]);
    assert LegacyMatches(clock, g[i], q);
  }

  /** With reflexive day differences, the package just added is placed. */
  lemma LegacyPlacedNew(clock: Clock, prev: seq<LegacyEntry>, e: LegacyEntry)
    requires DaysReflexive(clock)
    ensures LegacyPlaced(clock, LegacyAdd(clock, prev, e), e)
  {
    var g := LegacyAdd(clock, prev, e);
    var f := LegacyFindMatch(clock, prev, e);
    if f < 0 {
      assert g[|prev|] == e;
      MatchesItself(clock, e);
    } else {
      assert LegacySameKey(g[f], prev[f]);
      assert LegacyMatches(clock, g[f], e);
    }
  }

  /** With reflexive day differences, every surviving package is counted in an entry that matches it. */
  lemma {:induction false} LegacyGroupPlacesEvery(clock: Clock, es: seq<LegacyEntry>)
    requires DaysReflexive(clock)
    ensures forall k :: 0 <= k < |es| ==> LegacyPlaced(clock, LegacyGroup(clock, es), es[k])
    decreases |es|
  {
    if |es| > 0 {
      var n := |es| - 1;
      var prev := LegacyGroup(clock, es[..n]);
      LegacyGroupPlacesEvery(clock, es[..n]);
      var g := LegacyAdd(clock, prev, es[n]);
      assert LegacyGroup(clock, es) == g;
      forall k | 0 <= k < |es|
        ensures LegacyPlaced(clock, g, es[k])
      {
        if k < n {
          assert es[..n][k] == es[k];
          LegacyPlacedStep(clock, prev, es[n], es[k]);
        } else {
          LegacyPlacedNew(clock, prev, es[n]);
        }
      }
    }
  }

  /** Differing last-updated days keep two otherwise equal packages apart. */
  lemma LastUpdatedSeparates(clock: Clock, a: LegacyEntry, b: LegacyEntry)
    requires a.lastUpdated.Some? && b.lastUpdated.Some?
    requires clock.daysBetween(a.lastUpdated.value, b.lastUpdated.value) != 0
    ensures !LegacyMatches(clock, a, b)
  {
  }

  // ---------------------------------------------------------------------------
  // The handler's loops

  /** `response.some(...)` over the entries so far. */
  method LegacyFindMultiPackage(clock: Clock, response: seq<LegacyEntry>, e: LegacyEntry) returns (j: int)
    ensures j == LegacyFindMatch(clock, response, e)
  {
    j := 0;
    while j < |response| && !LegacyMatches(clock, response[j], e)
      invariant 0 <= j <= |response|
      invariant forall q :: 0 <= q < j ==> !LegacyMatches(clock, response[q], e)
    {
      j := j + 1;
    }
    if j == |response| {
      j := -1;
    }
  }

  /** The body of the `forEach` callback for one tracking. */
  method LegacyAddTracking(clock: Clock, settings: LegacySettings, response: seq<LegacyEntry>, rec: LegacyRecord)
    returns (r: seq<LegacyEntry>)
    ensures r == if LegacyKept(clock, settings, rec) then LegacyAdd(clock, response, LegacyNewEntry(clock, rec)) else response
  {
    r := response;
    if !NoteKept(settings, rec) {
      return;
    }
    var e := LegacyNewEntry(clock, rec);
    if LegacyStale(clock, settings, e) {
      return;
    }
    var j := LegacyFindMultiPackage(clock, response, e);
    if j >= 0 {
      r := response[j := Bumped(response[j])];
    } else {
      r := response + [e];
    }
  }

  /** The `forEach` loop of the result handler. */
  method LegacyCollect(clock: Clock, settings: LegacySettings, trackings: seq<LegacyRecord>)
    returns (response: seq<LegacyEntry>)
    ensures response == LegacyGroup(clock, LegacySurvivors(clock, settings, trackings))
  {
    response := [];
    var i := 0;
    while i < |trackings|
      invariant 0 <= i <= |trackings|
      invariant response == LegacyGroup(clock, LegacySurvivors(clock, settings, trackings[..i]))
    {
      LegacySurvivorsStep(clock, settings, trackings, i);
      LegacyGroupStep(clock, LegacySurvivors(clock, settings, trackings[..i]), LegacyNewEntry(clock, trackings[i]));
      response := LegacyAddTracking(clock, settings, response, trackings[i]);
      i := i + 1;
    }
    assert trackings[..i] == trackings;
  }

  lemma LegacySurvivorsStep(clock: Clock, settings: LegacySettings, rs: seq<LegacyRecord>, i: nat)
    requires i < |rs|
    ensures LegacySurvivors(clock, settings, rs[..i + 1]) ==
      if LegacyKept(clock, settings, rs[i]) then LegacySurvivors(clock, settings, rs[..i]) + [LegacyNewEntry(clock, rs[i])]
      else LegacySurvivors(clock, settings, rs[..i])
  {
    assert rs[..i + 1][..i] == rs[..i];
  }

  lemma LegacyGroupStep(clock: Clock, es: seq<LegacyEntry>, e: LegacyEntry)
    ensures LegacyGroup(clock, es + [e]) == LegacyAdd(clock, LegacyGroup(clock, es), e)
  {
    assert (es + [e])[..|es|] == es;
  }

  // ---------------------------------------------------------------------------
  // Ranking

  /** The older tie-break list, without AvailableForPickup. */
  const LegacyTagOrder: seq<string> := ["Delivered", "AttemptFail", "Exception", "OutForDelivery"]

  /** The comparator handed to `trackings.sort`; distances are measured from `device.today`. */
  function LegacyCompare(clock: Clock, a: LegacyEntry, b: LegacyEntry): int {
    if a.date.None? then 1
    else if b.date.None? then -1
    else if Abs(clock.daysBetween(a.date.value, clock.today)) < Abs(clock.daysBetween(b.date.value, clock.today)) then -1
    else if Abs(clock.daysBetween(a.date.value, clock.today)) > Abs(clock.daysBetween(b.date.value, clock.today)) then 1
    else if IndexOf(LegacyTagOrder, a.tag) < IndexOf(LegacyTagOrder, b.tag) then 1
    else if IndexOf(LegacyTagOrder, a.tag) > IndexOf(LegacyTagOrder, b.tag) then -1
    else 0
  }

  function LegacyRankOf(clock: Clock, e: LegacyEntry): Ranking.Rank {
    Ranking.Rank(e.date.Some?, if e.date.Some? then Abs(clock.daysBetween(e.date.value, clock.today)) else 0,
                 IndexOf(LegacyTagOrder, e.tag))
  }

  /** The comparator is negative exactly when the first entry ranks strictly before the second. */
  lemma LegacyCompareIsRank(clock: Clock, a: LegacyEntry, b: LegacyEntry)
    ensures LegacyCompare(clock, a, b) < 0 <==> Ranking.RankLess(LegacyRankOf(clock, a), LegacyRankOf(clock, b))
    ensures LegacyCompare(clock, a, b) > 0 <==>
      Ranking.RankLess(LegacyRankOf(clock, b), LegacyRankOf(clock, a)) || (a.date.None? && b.date.None?)
  {
  }

  /** On equal distance an unlisted tag, AvailableForPickup among them, comes after a listed one. */
  lemma LegacyTieBreak(clock: Clock, a: LegacyEntry, b: LegacyEntry)
    requires a.date.Some? && b.date.Some?
    requires Abs(clock.daysBetween(a.date.value, clock.today)) == Abs(clock.daysBetween(b.date.value, clock.today))
    ensures a.tag in LegacyTagOrder && b.tag !in LegacyTagOrder ==> LegacyCompare(clock, a, b) < 0
    ensures a.tag == "Exception" && b.tag == "AttemptFail" ==> LegacyCompare(clock, a, b) < 0
  {
  }

  /** `sortTrackingsInformation`: sorts the response in place by the comparator. */
  method LegacySort(clock: Clock, a: array<LegacyEntry>)
    modifies a
    ensures forall i, j :: 0 <= i < j < a.Length ==> LegacyCompare(clock, a[j], a[i]) >= 0
    ensures multiset(a[..]) == multiset(old(a[..]))
  {
    Ranking.SortBy(a, e => LegacyRankOf(clock, e));
    forall i, j | 0 <= i < j < a.Length ensures LegacyCompare(clock, a[j], a[i]) >= 0 {
      LegacyCompareIsRank(clock, a[j], a[i]);
      assert a[..][j] == a[j] && a[..][i] == a[i];
    }
  }

  /** What the handler resolves with: the configured number of entries, sorted, none dropped that sorts before a kept one. */
  ghost predicate LegacySelected(clock: Clock, limit: nat, grouped: seq<LegacyEntry>, r: seq<LegacyEntry>) {
    |r| == (if limit < |grouped| then limit else |grouped|)
    && (forall i, j :: 0 <= i < j < |r| ==> LegacyCompare(clock, r[j], r[i]) >= 0)
    && multiset(r) <= multiset(grouped)
    && (forall x, y :: x in multiset(grouped) - multiset(r) && y in r ==> LegacyCompare(clock, x, y) >= 0)
  }

  /**
   * The result handler: collect, sort and cut to the count limit.
   * `trackings` is what `/trackings` returned for the query.
   */
  method LegacyTrackingsInformation(clock: Clock, settings: LegacySettings, trackings: seq<LegacyRecord>)
    returns (r: seq<LegacyEntry>)
    ensures LegacySelected(clock, settings.countLimit, LegacyGroup(clock, LegacySurvivors(clock, settings, trackings)), r)
  {
    var response := LegacyCollect(clock, settings, trackings);
    var a := new LegacyEntry[|response|](i requires 0 <= i < |response| => response[i]);
    assert a[..] == response;
    LegacySort(clock, a);
    var m := if settings.countLimit < a.Length then settings.countLimit else a.Length;
    r := a[..m];
    LegacySelectedByRank(clock, a[..], response, settings.countLimit);
  }

  lemma LegacySelectedByRank(clock: Clock, p: seq<LegacyEntry>, input: seq<LegacyEntry>, limit: nat)
    requires multiset(p) == multiset(input)
    requires forall i, j :: 0 <= i < j < |p| ==> LegacyCompare(clock, p[j], p[i]) >= 0
    ensures LegacySelected(clock, limit, input, p[..if limit < |p| then limit else |p|])
  {
    var m := if limit < |p| then limit else |p|;
    assert |input| == |p| by {
      assert |multiset(p)| == |multiset(input)|;
    }
    forall i, j | 0 <= i < j < |p|
      ensures !Ranking.RankLess(LegacyRankOf(clock, p[j]), LegacyRankOf(clock, p[i]))
    {
      LegacyCompareIsRank(clock, p[j], p[i]);
    }
    Ranking.TopRanked(p, input, e => LegacyRankOf(clock, e), m);
    forall x, y | x in multiset(input) - multiset(p[..m]) && y in p[..m]
      ensures LegacyCompare(clock, x, y) >= 0
    {
      LegacyCompareIsRank(clock, x, y);
    }
  }
}
