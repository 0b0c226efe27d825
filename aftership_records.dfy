/**
 * The per-record body of `getTrackingsInformation` in lambda/aftership.js:
 * each AfterShip tracking is normalised into a package, notes and stale
 * deliveries filter it out, and the survivors are folded into multi-package
 * entries with a count and the list of their tracking numbers.
 */
module AftershipRecords {
  import opened Wrappers
  import opened Strings
  import opened Clocks
  import opened Tracking
  import Ranking

  /** One tracking of the `listTrackings` response, restricted to the requested fields. */
  datatype Record = Record(
    trackingNumber: string,
    title: string,
    slug: string,
    tag: string,
    lastUpdatedAt: int,
    expectedDelivery: Option<int>,
    note: Option<string>,
    checkpoints: seq<Checkpoint>)

  /** A tracking after the loop body has set `courier`, `last_updated`, `tag_event_number` and the delivery fields. */
  datatype Package = Package(
    trackingNumber: string,
    tag: string,
    slug: string,
    courier: Option<string>,
    title: string,
    date: Option<int>,
    location: Option<string>,
    lastUpdated: int,
    tagEventNumber: nat)

  /**
   * One element of the response: the keymap fields of the package that opened
   * it, `count` and `trackingIds`, and the `address` and `message` the speech
   * output adds later.
   */
  datatype Entry = Entry(
    tag: string,
    slug: string,
    courier: Option<string>,
    title: string,
    date: Option<int>,
    location: Option<string>,
    lastUpdated: int,
    tagEventNumber: nat,
    count: nat,
    trackingIds: seq<string>,
    address: Option<string>,
    message: seq<string>)

  /** The environment settings the loop reads. */
  datatype Settings = Settings(
    /** `new RegExp(AFTERSHIP_NOTE_TAGGING).test(note)`. */
    noteTest: Option<string> -> bool,
    /** `AFTERSHIP_DAYS_PAST_DELIVERED`. */
    daysPastDelivered: int,
    /** `AFTERSHIP_TRACKING_COUNT_LIMIT`. */
    countLimit: nat,
    /** `DEFAULT_COUNTRY`. */
    defaultCountry: string)

  // ---------------------------------------------------------------------------
  // Normalisation

  function CreatedAts(cps: seq<Checkpoint>): (r: seq<string>)
    ensures |r| == |cps| && forall i :: 0 <= i < |cps| ==> r[i] == cps[i].createdAt
  {
    seq(|cps|, i requires 0 <= i < |cps| => cps[i].createdAt)
  }

  /** The filter callback: the checkpoint has the tag and is the first of the whole list with its `created_at`. */
  predicate CountsAsEvent(cps: seq<Checkpoint>, tag: string, i: nat)
    requires i < |cps|
  {
    cps[i].tag == tag && IndexOf(CreatedAts(cps), cps[i].createdAt) == i
  }

  /** How many of the first `k` checkpoints the filter keeps. */
  function EventCount(cps: seq<Checkpoint>, tag: string, k: nat): nat
    requires k <= |cps|
  {
    if k == 0 then 0 else EventCount(cps, tag, k - 1) + (if CountsAsEvent(cps, tag, k - 1) then 1 else 0)
  }

  /** How many of the first `k` checkpoints carry the tag. */
  function TagCount(cps: seq<Checkpoint>, tag: string, k: nat): nat
    requires k <= |cps|
  {
    if k == 0 then 0 else TagCount(cps, tag, k - 1) + (if cps[k - 1].tag == tag then 1 else 0)
  }

  /** `tag_event_number`. */
  function TagEventNumber(cps: seq<Checkpoint>, tag: string): nat {
    EventCount(cps, tag, |cps|)
  }

  /** The event number never exceeds the number of checkpoints with the tag. */
  lemma {:induction false} EventCountBounded(cps: seq<Checkpoint>, tag: string, k: nat)
    requires k <= |cps|
    ensures EventCount(cps, tag, k) <= TagCount(cps, tag, k)
  {
    if k > 0 {
      EventCountBounded(cps, tag, k - 1);
    }
  }

  /** With distinct `created_at` values every checkpoint with the tag counts. */
  lemma {:induction false} EventCountDistinct(cps: seq<Checkpoint>, tag: string, k: nat)
    requires k <= |cps|
    requires forall i, j :: 0 <= i < j < |cps| ==> cps[i].createdAt != cps[j].createdAt
    ensures EventCount(cps, tag, k) == TagCount(cps, tag, k)
  {
    if k > 0 {
      EventCountDistinct(cps, tag, k - 1);
      var xs := CreatedAts(cps);
      var r := IndexOf(xs, cps[k - 1].createdAt);
      assert xs[k - 1] == cps[k - 1].createdAt;
      assert r == k - 1;
    }
  }

  lemma TagEventNumberBounds(cps: seq<Checkpoint>, tag: string)
    ensures TagEventNumber(cps, tag) <= TagCount(cps, tag, |cps|)
    ensures (forall i, j :: 0 <= i < j < |cps| ==> cps[i].createdAt != cps[j].createdAt) ==>
      TagEventNumber(cps, tag) == TagCount(cps, tag, |cps|)
  {
    EventCountBounded(cps, tag, |cps|);
    if forall i, j :: 0 <= i < j < |cps| ==> cps[i].createdAt != cps[j].createdAt {
      EventCountDistinct(cps, tag, |cps|);
    }
  }

  /** The position of the last checkpoint with the tag, or -1. */
  function LastWithTag(cps: seq<Checkpoint>, tag: string): (r: int)
    ensures -1 <= r < |cps|
    ensures r >= 0 ==> cps[r].tag == tag
    ensures forall j :: r < j < |cps| ==> cps[j].tag != tag
  {
    if |cps| == 0 then -1
    else if cps[|cps| - 1].tag == tag then |cps| - 1
    else LastWithTag(cps[..|cps| - 1], tag)
  }

  /** The tags whose delivery date and location come from a checkpoint. */
  const DeliveryTags: seq<string> := ["AvailableForPickup", "OutForDelivery", "Delivered"]

  /** The package the loop body builds from a tracking. */
  function Normalize(couriers: StatusTable, r: Record): (p: Package)
    ensures p.trackingNumber == r.trackingNumber && p.tag == r.tag && p.slug == r.slug && p.title == r.title
    ensures p.courier == Lookup(couriers, r.slug) && p.lastUpdated == r.lastUpdatedAt
    ensures p.tagEventNumber == TagEventNumber(r.checkpoints, r.tag)
    ensures r.tag !in DeliveryTags ==> p.date == r.expectedDelivery && p.location.None?
    ensures r.tag in DeliveryTags && (forall i :: 0 <= i < |r.checkpoints| ==> r.checkpoints[i].tag != r.tag) ==>
      p.date.None? && p.location.None?
    ensures r.tag in DeliveryTags ==> forall i :: 0 <= i < |r.checkpoints| ==>
      ((r.checkpoints[i].tag == r.tag && forall j :: i < j < |r.checkpoints| ==> r.checkpoints[j].tag != r.tag) ==>
        p.date == r.checkpoints[i].checkpointTime && p.location == DeliveryLocation(r.checkpoints[i]))
  {
    var cps := r.checkpoints;
    var k := LastWithTag(cps, r.tag);
    var fields: (Option<int>, Option<string>) :=
      if r.tag !in DeliveryTags then (r.expectedDelivery, None)
      else if k < 0 then (None, None)
      else (cps[k].checkpointTime, DeliveryLocation(cps[k]));
    Package(r.trackingNumber, r.tag, r.slug, Lookup(couriers, r.slug), r.title, fields.0, fields.1,
            r.lastUpdatedAt, TagEventNumber(cps, r.tag))
  }

  /** A delivered package whose delivery date or last update lies too many days back. */
  predicate Stale(clock: Clock, settings: Settings, p: Package) {
    p.tag == "Delivered"
    && ((p.date.Some? && clock.daysToToday(p.date.value) > settings.daysPastDelivered)
        || clock.daysToToday(p.lastUpdated) > settings.daysPastDelivered)
  }

  /** Only delivered packages are ever stale, and a fresh last update with no date keeps one. */
  lemma StaleOnlyDelivered(clock: Clock, settings: Settings, p: Package)
    ensures Stale(clock, settings, p) ==> p.tag == "Delivered"
    ensures p.tag == "Delivered" && p.date.None? ==>
      (Stale(clock, settings, p) <==> clock.daysToToday(p.lastUpdated) > settings.daysPastDelivered)
  {
  }

  /** The packages that reach the grouping step, in order. */
  function Survivors(clock: Clock, settings: Settings, couriers: StatusTable, rs: seq<Record>): (ps: seq<Package>)
    ensures |ps| <= |rs|
    decreases |rs|
  {
    if |rs| == 0 then []
    else
      var r := rs[|rs| - 1];
      var p := Normalize(couriers, r);
      Survivors(clock, settings, couriers, rs[..|rs| - 1])
      + (if settings.noteTest(r.note) && !Stale(clock, settings, p) then [p] else [])
  }

  /** A survivor is the normalisation of a record whose note passes and which is not stale. */
  lemma {:induction false} SurvivorsAreKept(clock: Clock, settings: Settings, couriers: StatusTable, rs: seq<Record>)
    ensures forall p :: p in Survivors(clock, settings, couriers, rs) ==>
      exists r :: r in rs && p == Normalize(couriers, r) && settings.noteTest(r.note) && !Stale(clock, settings, p)
    decreases |rs|
  {
    if |rs| > 0 {
      SurvivorsAreKept(clock, settings, couriers, rs[..|rs| - 1]);
      forall p | p in Survivors(clock, settings, couriers, rs)
        ensures exists r :: r in rs && p == Normalize(couriers, r) && settings.noteTest(r.note) && !Stale(clock, settings, p)
      {
        if p in Survivors(clock, settings, couriers, rs[..|rs| - 1]) {
          var r :| r in rs[..|rs| - 1] && p == Normalize(couriers, r) && settings.noteTest(r.note) && !Stale(clock, settings, p);
          assert r in rs;
        } else {
          assert rs[|rs| - 1] in rs;
        }
      }
    }
  }

  /** Every record whose note passes and which is not stale survives. */
  lemma {:induction false} KeptAreSurvivors(clock: Clock, settings: Settings, couriers: StatusTable, rs: seq<Record>)
    ensures forall r :: r in rs && settings.noteTest(r.note) && !Stale(clock, settings, Normalize(couriers, r)) ==>
      Normalize(couriers, r) in Survivors(clock, settings, couriers, rs)
    decreases |rs|
  {
    if |rs| > 0 {
      KeptAreSurvivors(clock, settings, couriers, rs[..|rs| - 1]);
      forall r | r in rs && settings.noteTest(r.note) && !Stale(clock, settings, Normalize(couriers, r))
        ensures Normalize(couriers, r) in Survivors(clock, settings, couriers, rs)
      {
        if r != rs[|rs| - 1] {
          assert rs == rs[..|rs| - 1] + [rs[|rs| - 1]];
          assert r in rs[..|rs| - 1];
        }
      }
    }
  }

  // ---------------------------------------------------------------------------
  // Grouping

  /** The status buckets of the multi-package test; every other tag shares the bucket -1. */
  const GroupTags: seq<string> := ["AttemptFail", "AvailableForPickup", "Exception", "Delivered", "OutForDelivery"]

  /** `GroupTags.indexOf(tag)`, spelled out. */
  function Bucket(tag: string): int {
    if tag == "AttemptFail" then 0
    else if tag == "AvailableForPickup" then 1
    else if tag == "Exception" then 2
    else if tag == "Delivered" then 3
    else if tag == "OutForDelivery" then 4
    else -1
  }

  /** The spelled-out bucket is the position in the tag list. */
  lemma BucketIsIndex(tag: string)
    ensures Bucket(tag) == IndexOf(GroupTags, tag)
  {
    var t := GroupTags;
    assert t[1..][1..][1..][1..][1..] == [];
  }

  /** Both dates absent, or both present and zero hours apart. */
  predicate SameMoment(clock: Clock, a: Option<int>, b: Option<int>) {
    (a.None? && b.None?) || (a.Some? && b.Some? && clock.hoursBetween(a.value, b.value) == 0)
  }

  /** The keymap test of an existing entry against the new package's entry; lastUpdated and tagEventNumber are ignored. */
  predicate Matches(clock: Clock, item: Entry, pkg: Entry) {
    Bucket(item.tag) == Bucket(pkg.tag)
    && item.slug == pkg.slug
    && item.courier == pkg.courier
    && item.title == pkg.title
    && SameMoment(clock, item.date, pkg.date)
    && item.location == pkg.location
  }

  /** The entry `reduce` builds for a package that joins no existing one. */
  function NewEntry(p: Package): Entry {
    Entry(p.tag, p.slug, p.courier, p.title, p.date, p.location, p.lastUpdated, p.tagEventNumber,
          1, [p.trackingNumber], None, [])
  }

  /** `response.find(...)`: the position of the first matching entry, or -1. */
  function FindMatch(clock: Clock, response: seq<Entry>, e: Entry): (r: int)
    ensures -1 <= r < |response|
    ensures r >= 0 ==> Matches(clock, response[r], e)
    ensures forall j :: 0 <= j < |response| && (r < 0 || j < r) ==> !Matches(clock, response[j], e)
  {
    if |response| == 0 then -1
    else if Matches(clock, response[0], e) then 0
    else var t := FindMatch(clock, response[1..], e); if t < 0 then -1 else t + 1
  }

  /** The entry after one more package joined it. */
  function Joined(e: Entry, trackingNumber: string): Entry {
    e.(count := e.count + 1, trackingIds := e.trackingIds + [trackingNumber])
  }

  /** One package added to the response: it joins the first matching entry, or is appended. */
  function AddPackage(clock: Clock, response: seq<Entry>, p: Package): seq<Entry> {
    var i := FindMatch(clock, response, NewEntry(p));
    if i < 0 then response + [NewEntry(p)] else response[i := Joined(response[i], p.trackingNumber)]
  }

  /** A package that matches no entry is appended as a new entry; otherwise the first match gets its id. */
  lemma AddPackageCases(clock: Clock, response: seq<Entry>, p: Package)
    ensures (forall j :: 0 <= j < |response| ==> !Matches(clock, response[j], NewEntry(p))) ==>
      AddPackage(clock, response, p) == response + [NewEntry(p)]
    ensures forall i :: 0 <= i < |response| ==>
      ((Matches(clock, response[i], NewEntry(p)) && forall j :: 0 <= j < i ==> !Matches(clock, response[j], NewEntry(p))) ==>
        AddPackage(clock, response, p) == response[i := Joined(response[i], p.trackingNumber)])
  {
  }

  /** The response after the packages, in order. */
  function Group(clock: Clock, ps: seq<Package>): seq<Entry>
    decreases |ps|
  {
    if |ps| == 0 then [] else AddPackage(clock, Group(clock, ps[..|ps| - 1]), ps[|ps| - 1])
  }

  /** The sum of the entries' counts. */
  function CountSum(es: seq<Entry>): nat
    decreases |es|
  {
    if |es| == 0 then 0 else CountSum(es[..|es| - 1]) + es[|es| - 1].count
  }

  /** All tracking numbers the entries hold. */
  function IdBag(es: seq<Entry>): multiset<string>
    decreases |es|
  {
    if |es| == 0 then multiset{} else IdBag(es[..|es| - 1]) + multiset(es[|es| - 1].trackingIds)
  }

  /** The tracking numbers of the packages. */
  function PackageIds(ps: seq<Package>): multiset<string>
    decreases |ps|
  {
    if |ps| == 0 then multiset{} else PackageIds(ps[..|ps| - 1]) + multiset{ps[|ps| - 1].trackingNumber}
  }

  /** A join adds one to the sum of the counts. */
  lemma {:induction false} CountSumJoin(es: seq<Entry>, i: nat, tn: string)
    requires i < |es|
    ensures CountSum(es[i := Joined(es[i], tn)]) == CountSum(es) + 1
    decreases |es|
  {
    var n := |es| - 1;
    var r := es[i := Joined(es[i], tn)];
    if i < n {
      CountSumJoin(es[..n], i, tn);
      assert r[..n] == es[..n][i := Joined(es[..n][i], tn)];
    } else {
      assert r[..n] == es[..n];
    }
  }

  /** A join adds its tracking number to the ids. */
  lemma {:induction false} IdBagJoin(es: seq<Entry>, i: nat, tn: string)
    requires i < |es|
    ensures IdBag(es[i := Joined(es[i], tn)]) == IdBag(es) + multiset{tn}
    decreases |es|
  {
    var n := |es| - 1;
    var r := es[i := Joined(es[i], tn)];
    if i < n {
      IdBagJoin(es[..n], i, tn);
      assert r[..n] == es[..n][i := Joined(es[..n][i], tn)];
      assert r[n] == es[n];
    } else {
      assert r[..n] == es[..n];
      assert multiset(r[n].trackingIds) == multiset(es[n].trackingIds) + multiset{tn};
    }
  }

  /** Every entry counts its tracking numbers, and holds at least one. */
  predicate CountsIds(es: seq<Entry>) {
    forall i :: 0 <= i < |es| ==> es[i].count == |es[i].trackingIds| && es[i].count >= 1
  }

  /** No entry matches an earlier one: each was appended because none before it matched. */
  predicate NoLaterMatch(clock: Clock, es: seq<Entry>) {
    forall i, j :: 0 <= i < j < |es| ==> !Matches(clock, es[i], es[j])
  }

  /** Two entries agree on every field the match test reads. */
  predicate SameKey(a: Entry, b: Entry) {
    a.tag == b.tag && a.slug == b.slug && a.courier == b.courier && a.title == b.title
    && a.date == b.date && a.location == b.location
  }

  /** Entries with the same key match the same entries. */
  lemma MatchesByKey(clock: Clock, a: Entry, b: Entry, x: Entry)
    requires SameKey(a, b)
    ensures Matches(clock, a, x) == Matches(clock, b, x)
    ensures Matches(clock, x, a) == Matches(clock, x, b)
  {
  }

  /** Appending a package that matches nothing keeps the invariants. */
  lemma AppendKeeps(clock: Clock, response: seq<Entry>, p: Package)
    requires CountsIds(response) && NoLaterMatch(clock, response)
    requires forall j :: 0 <= j < |response| ==> !Matches(clock, response[j], NewEntry(p))
    ensures var r := response + [NewEntry(p)];
      CountsIds(r) && NoLaterMatch(clock, r)
      && CountSum(r) == CountSum(response) + 1
      && IdBag(r) == IdBag(response) + multiset{p.trackingNumber}
  {
    var r := response + [NewEntry(p)];
    assert r[..|response|] == response;
  }

  /** Joining a package to an entry keeps the counts and the ids in line. */
  lemma JoinKeepsCounts(response: seq<Entry>, i: nat, p: Package)
    requires CountsIds(response)
    requires i < |response|
    ensures var r := response[i := Joined(response[i], p.trackingNumber)];
      CountsIds(r)
      && CountSum(r) == CountSum(response) + 1
      && IdBag(r) == IdBag(response) + multiset{p.trackingNumber}
  {
    CountSumJoin(response, i, p.trackingNumber);
    IdBagJoin(response, i, p.trackingNumber);
  }

  /** Joining a package to an entry changes no key, so no entry comes to match an earlier one. */
  lemma JoinKeepsOrder(clock: Clock, response: seq<Entry>, i: nat, p: Package)
    requires NoLaterMatch(clock, response)
    requires i < |response|
    ensures NoLaterMatch(clock, response[i := Joined(response[i], p.trackingNumber)])
  {
    var r := response[i := Joined(response[i], p.trackingNumber)];
    forall a, b | 0 <= a < b < |r| ensures !Matches(clock, r[a], r[b]) {
      MatchesByKey(clock, r[a], response[a], r[b]);
      MatchesByKey(clock, r[b], response[b], response[a]);
    }
  }

  /** A step never removes an entry or changes the key of one. */
  lemma AddPackageKeepsKeys(clock: Clock, response: seq<Entry>, p: Package)
    ensures var r := AddPackage(clock, response, p);
      |response| <= |r| <= |response| + 1 && forall i :: 0 <= i < |response| ==> SameKey(r[i], response[i])
  {
  }

  /** Each step of the grouping keeps the counts and the ids in line, and no entry matches an earlier one. */
  lemma AddPackageKeeps(clock: Clock, response: seq<Entry>, p: Package)
    requires CountsIds(response) && NoLaterMatch(clock, response)
    ensures var r := AddPackage(clock, response, p);
      CountsIds(r) && NoLaterMatch(clock, r)
      && CountSum(r) == CountSum(response) + 1
      && IdBag(r) == IdBag(response) + multiset{p.trackingNumber}
  {
    var i := FindMatch(clock, response, NewEntry(p));
    if i < 0 {
      AppendKeeps(clock, response, p);
    } else {
      JoinKeepsCounts(response, i, p);
      JoinKeepsOrder(clock, response, i, p);
    }
  }

  /**
   * The grouping invariants: every entry's count is the number of its ids,
   * the counts add up to the number of packages, the ids are exactly the
   * packages' tracking numbers, and no entry matches an earlier one.
   */
  lemma {:induction false} GroupInvariants(clock: Clock, ps: seq<Package>)
    ensures var g := Group(clock, ps);
      CountsIds(g) && NoLaterMatch(clock, g)
      && CountSum(g) == |ps|
      && IdBag(g) == PackageIds(ps)
      && |g| <= |ps|
    decreases |ps|
  {
    if |ps| > 0 {
      GroupInvariants(clock, ps[..|ps| - 1]);
      AddPackageKeeps(clock, Group(clock, ps[..|ps| - 1]), ps[|ps| - 1]);
    }
  }

  /** Grouping only ever joins or appends: an entry's key never changes once it is in the response. */
  lemma {:induction false} GroupKeepsKeys(clock: Clock, ps: seq<Package>, k: nat)
    requires k <= |ps|
    ensures var early, late := Group(clock, ps[..k]), Group(clock, ps);
      |early| <= |late| && forall i :: 0 <= i < |early| ==> SameKey(late[i], early[i])
    decreases |ps|
  {
    if k < |ps| {
      var n := |ps| - 1;
      assert ps[..n][..k] == ps[..k];
      var early, mid, late := Group(clock, ps[..k]), Group(clock, ps[..n]), Group(clock, ps);
      GroupKeepsKeys(clock, ps[..n], k);
      AddPackageKeepsKeys(clock, mid, ps[n]);
      assert late == AddPackage(clock, mid, ps[n]);
      forall i | 0 <= i < |early| ensures SameKey(late[i], early[i]) {
        assert SameKey(mid[i], early[i]) && SameKey(late[i], mid[i]);
      }
    } else {
      assert ps[..k] == ps;
    }
  }

  /** Some entry of `g` matches the package and lists its tracking number. */
  ghost predicate Placed(clock: Clock, g: seq<Entry>, q: Package) {
    exists i :: 0 <= i < |g| && Matches(clock, g[i], NewEntry(q)) && q.trackingNumber in g[i].trackingIds
  }

  /** One step keeps every earlier package placed in a matching entry that lists its id. */
  lemma PlacedStep(clock: Clock, prev: seq<Entry>, p: Package, q: Package)
    requires Placed(clock, prev, q)
    ensures Placed(clock, AddPackage(clock, prev, p), q)
  {
    var g := AddPackage(clock, prev, p);
    AddPackageKeepsKeys(clock, prev, p);
    var i :| 0 <= i < |prev| && Matches(clock, prev[i], NewEntry(q)) && q.trackingNumber in prev[i].trackingIds;
    MatchesByKey(clock, g[i], prev[i], NewEntry(q));
    var f := FindMatch(clock, prev, NewEntry(p));
    if f == i {
      assert g[i].trackingIds == prev[i].trackingIds + [p.trackingNumber];
    } else {
      assert g[i] == prev[i];
    }
  }

  /** With reflexive hour differences, the package just added is in an entry that matches it and lists its id. */
  lemma PlacedNew(clock: Clock, prev: seq<Entry>, p: Package)
    requires HoursReflexive(clock)
    ensures Placed(clock, AddPackage(clock, prev, p), p)
  {
    var g := AddPackage(clock, prev, p);
    var f := FindMatch(clock, prev, NewEntry(p));
    if f < 0 {
      assert g[|prev|] == NewEntry(p);
      if p.date.Some? {
        var t := p.date.value;
        assert clock.hoursBetween(t, t) == 0;
      }
      assert Matches(clock, g[|prev|], NewEntry(p));
    } else {
      assert g[f] == Joined(prev[f], p.trackingNumber);
      MatchesByKey(clock, g[f], prev[f], NewEntry(p));
    }
  }

  /** With reflexive hour differences, every package ends up in an entry that matches it and lists its id. */
  lemma {:induction false} GroupPlacesEvery(clock: Clock, ps: seq<Package>)
    requires HoursReflexive(clock)
    ensures forall k :: 0 <= k < |ps| ==> Placed(clock, Group(clock, ps), ps[k])
    decreases |ps|
  {
    if |ps| > 0 {
      var n := |ps| - 1;
      var prev := Group(clock, ps[..n]);
      GroupPlacesEvery(clock, ps[..n]);
      var g := AddPackage(clock, prev, ps[n]);
      assert Group(clock, ps) == g;
      forall k | 0 <= k < |ps|
        ensures Placed(clock, g, ps[k])
      {
        if k < n {
          assert ps[..n][k] == ps[k];
          assert Placed(clock, prev, ps[..n][k]);
          PlacedStep(clock, prev, ps[n], ps[k]);
        } else {
          PlacedNew(clock, prev, ps[n]);
        }
      }
    }
  }

  /** One more record extends the survivors by its package exactly when it is kept. */
  lemma SurvivorsStep(clock: Clock, settings: Settings, couriers: StatusTable, rs: seq<Record>, i: nat)
    requires i < |rs|
    ensures Survivors(clock, settings, couriers, rs[..i + 1]) ==
      if Kept(clock, settings, couriers, rs[i]) then Survivors(clock, settings, couriers, rs[..i]) + [Normalize(couriers, rs[i])]
      else Survivors(clock, settings, couriers, rs[..i])
  {
    assert rs[..i + 1][..i] == rs[..i];
  }

  /** One more package is one more grouping step. */
  lemma GroupStep(clock: Clock, ps: seq<Package>, p: Package)
    ensures Group(clock, ps + [p]) == AddPackage(clock, Group(clock, ps), p)
  {
    assert (ps + [p])[..|ps|] == ps;
  }

  /** `response.find(...)` over the entries so far. */
  method FindMultiPackage(clock: Clock, response: seq<Entry>, entry: Entry) returns (j: int)
    ensures j == FindMatch(clock, response, entry)
  {
    j := 0;
    while j < |response| && !Matches(clock, response[j], entry)
      invariant 0 <= j <= |response|
      invariant forall q :: 0 <= q < j ==> !Matches(clock, response[q], entry)
    {
      j := j + 1;
    }
    if j == |response| {
      j := -1;
    }
  }

  /** Whether a record reaches the grouping step. */
  predicate Kept(clock: Clock, settings: Settings, couriers: StatusTable, r: Record) {
    settings.noteTest(r.note) && !Stale(clock, settings, Normalize(couriers, r))
  }

  /** The body of the `forEach` callback for one tracking. */
  method AddTracking(clock: Clock, settings: Settings, couriers: StatusTable, response: seq<Entry>, rec: Record)
    returns (r: seq<Entry>)
    ensures r == if Kept(clock, settings, couriers, rec) then AddPackage(clock, response, Normalize(couriers, rec)) else response
  {
    r := response;
    if !settings.noteTest(rec.note) {
      return;
    }
    var pkg := Normalize(couriers, rec);
    if Stale(clock, settings, pkg) {
      return;
    }
    var j := FindMultiPackage(clock, response, NewEntry(pkg));
    if j >= 0 {
      r := response[j := Joined(response[j], pkg.trackingNumber)];
    } else {
      r := response + [NewEntry(pkg)];
    }
  }

  /**
   * The `forEach` loop of `getTrackingsInformation`: filter, normalise and
   * fold each tracking into the response.
   */
  method CollectTrackings(clock: Clock, settings: Settings, couriers: StatusTable, trackings: seq<Record>)
    returns (response: seq<Entry>)
    ensures response == Group(clock, Survivors(clock, settings, couriers, trackings))
  {
    response := [];
    var i := 0;
    while i < |trackings|
      invariant 0 <= i <= |trackings|
      invariant response == Group(clock, Survivors(clock, settings, couriers, trackings[..i]))
    {
      SurvivorsStep(clock, settings, couriers, trackings, i);
      GroupStep(clock, Survivors(clock, settings, couriers, trackings[..i]), Normalize(couriers, trackings[i]));
      response := AddTracking(clock, settings, couriers, response, trackings[i]);
      i := i + 1;
    }
    assert trackings[..i] == trackings;
  }

  // ---------------------------------------------------------------------------
  // Ranking

  /** The tie-break list of the comparator: a later tag comes first. */
  const TagOrder: seq<string> := ["Delivered", "AttemptFail", "Exception", "OutForDelivery", "AvailableForPickup"]

  /** The comparator handed to `trackings.sort`. */
  function Compare(clock: Clock, a: Entry, b: Entry): int {
    if a.date.None? then 1
    else if b.date.None? then -1
    else if Abs(clock.daysFromToday(a.date.value)) < Abs(clock.daysFromToday(b.date.value)) then -1
    else if Abs(clock.daysFromToday(a.date.value)) > Abs(clock.daysFromToday(b.date.value)) then 1
    else if IndexOf(TagOrder, a.tag) < IndexOf(TagOrder, b.tag) then 1
    else if IndexOf(TagOrder, a.tag) > IndexOf(TagOrder, b.tag) then -1
    else 0
  }

  function RankOf(clock: Clock, e: Entry): Ranking.Rank {
    Ranking.Rank(e.date.Some?, if e.date.Some? then Abs(clock.daysFromToday(e.date.value)) else 0, IndexOf(TagOrder, e.tag))
  }

  /**
   * The comparator is negative exactly when the first entry ranks strictly
   * before the second, and positive exactly when the second ranks strictly
   * before the first or neither has a date (the inconsistent case).
   */
  lemma CompareIsRank(clock: Clock, a: Entry, b: Entry)
    ensures Compare(clock, a, b) < 0 <==> Ranking.RankLess(RankOf(clock, a), RankOf(clock, b))
    ensures Compare(clock, a, b) > 0 <==>
      Ranking.RankLess(RankOf(clock, b), RankOf(clock, a)) || (a.date.None? && b.date.None?)
    ensures Compare(clock, a, b) == 0 <==>
      (a.date.Some? && b.date.Some?
       && Abs(clock.daysFromToday(a.date.value)) == Abs(clock.daysFromToday(b.date.value))
       && IndexOf(TagOrder, a.tag) == IndexOf(TagOrder, b.tag))
  {
  }

  /** On equal distance the tag later in the tie-break list comes first; unlisted tags come last. */
  lemma TieBreak(clock: Clock, a: Entry, b: Entry)
    requires a.date.Some? && b.date.Some?
    requires Abs(clock.daysFromToday(a.date.value)) == Abs(clock.daysFromToday(b.date.value))
    ensures b.tag !in TagOrder && a.tag in TagOrder ==> Compare(clock, a, b) < 0
    ensures a.tag == "AvailableForPickup" && b.tag == "Delivered" ==> Compare(clock, a, b) < 0
  {
  }

  /** `sortTrackingsInformation`: sorts the response in place by the comparator. */
  method SortTrackingsInformation(clock: Clock, a: array<Entry>)
    modifies a
    ensures forall i, j :: 0 <= i < j < a.Length ==> Compare(clock, a[j], a[i]) >= 0
    ensures Ranking.SortedBy(a[..], e => RankOf(clock, e))
    ensures multiset(a[..]) == multiset(old(a[..]))
  {
    Ranking.SortBy(a, e => RankOf(clock, e));
    forall i, j | 0 <= i < j < a.Length ensures Compare(clock, a[j], a[i]) >= 0 {
      CompareIsRank(clock, a[j], a[i]);
      assert a[..][j] == a[j] && a[..][i] == a[i];
    }
  }

  /** In a sorted response every dated entry precedes every undated one. */
  lemma SortedDatedFirst(clock: Clock, s: seq<Entry>)
    requires Ranking.SortedBy(s, e => RankOf(clock, e))
    ensures forall i, j :: 0 <= i < j < |s| && s[i].date.None? ==> s[j].date.None?
  {
    forall i, j | 0 <= i < j < |s| && s[i].date.None? ensures s[j].date.None? {
      assert !Ranking.RankLess(RankOf(clock, s[j]), RankOf(clock, s[i]));
    }
  }
}
