/**
 * `formatTrackingsAddress`, `formatTrackingsList` and `generateTrackingsList`
 * of lambda/custom/aftership.js: the address phrase of each entry through the
 * older geocoder, the message words (the carrier name comes from the courier
 * list, the delivery time from its own field), the summary and the text.
 */
module LegacySpeech {
  import opened Wrappers
  import opened Strings
  import opened Clocks
  import opened Geo
  import opened Tracking
  import opened Narrative
  import opened AftershipQuery
  import opened LegacyQuery
  import opened LegacyRecords
  import LegacyLocation
  import Helpers

  // ---------------------------------------------------------------------------
  // Addresses

  /**
   * What `cur.location ? location.getGeoLocation(cur.location, true) : null`
   * settles to: nothing without a location or after a failed request,
   * otherwise the extracted location.
   */
  function LegacyGeocoded(e: LegacyEntry, geocode: string -> Fetch): (r: Option<GeoLocation>)
    ensures r.Some? <==> Truthy(e.location) && geocode(e.location.value).Fetched?
    ensures r.Some? && HasResults(geocode(e.location.value).data) ==>
      var first := geocode(e.location.value).data.results.value[0];
      r.value.lat == Some(first.lat) && r.value.lng == Some(first.lng)
  {
    if !Truthy(e.location) then None
    else match geocode(e.location.value)
      case Fetched(data) => Some(LegacyLocation.Expected(data))
      case FetchFailed(_) => None
  }

  /**
   * No location is found exactly for an entry without a location or after a
   * failed request; the lambda/custom/location.js extraction itself never
   * fails, and a non-empty response gives the first result's coordinates.
   */
  lemma LegacyGeocodedNoneIff(e: LegacyEntry, geocode: string -> Fetch)
    ensures LegacyGeocoded(e, geocode).None? <==> !Truthy(e.location) || geocode(e.location.value).FetchFailed?
    ensures LegacyGeocoded(e, geocode).Some? && HasResults(geocode(e.location.value).data) ==>
      var first := geocode(e.location.value).data.results.value[0];
      LegacyGeocoded(e, geocode).value.lat == Some(first.lat) && LegacyGeocoded(e, geocode).value.lng == Some(first.lng)
  {
    if Truthy(e.location) && geocode(e.location.value).Fetched? && HasResults(geocode(e.location.value).data) {
      LegacyLocation.CoordinatesFromFirst(geocode(e.location.value).data);
    }
  }

  /**
   * The entry after `trackings[index].address` was written, if it was. The
   * loose `==` of the source compares two strings or a string with
   * `undefined`, where it agrees with the strict comparison of
   * `ClassifyAddress`.
   */
  function LegacyAddressed(e: LegacyEntry, geocode: string -> Fetch, device: GeoLocation, defaultCountry: string): LegacyEntry {
    match LegacyGeocoded(e, geocode)
    case Some(address) => e.(address := Some(ClassifyAddress(address, device, defaultCountry)))
    case None => e
  }

  /** Every entry after the address pass. */
  function LegacyAddressedAll(es: seq<LegacyEntry>, geocode: string -> Fetch, device: GeoLocation, defaultCountry: string)
    : (r: seq<LegacyEntry>)
    ensures |r| == |es|
    ensures forall i :: 0 <= i < |es| ==> r[i].(address := es[i].address) == es[i]
  {
    seq(|es|, i requires 0 <= i < |es| => LegacyAddressed(es[i], geocode, device, defaultCountry))
  }

  /** Only the address changes, only after a settled geocode request, and a failed one leaves the entry alone. */
  lemma LegacyAddressedChangesOnlyAddress(e: LegacyEntry, geocode: string -> Fetch, device: GeoLocation, defaultCountry: string)
    ensures LegacyAddressed(e, geocode, device, defaultCountry).(address := e.address) == e
    ensures LegacyGeocoded(e, geocode).None? ==> LegacyAddressed(e, geocode, device, defaultCountry) == e
    ensures LegacyGeocoded(e, geocode).Some? ==>
      LegacyAddressed(e, geocode, device, defaultCountry).address
        == Some(ClassifyAddress(LegacyGeocoded(e, geocode).value, device, defaultCountry))
  {
  }

  /** An empty geocode response yields `{}`, which is "here". */
  lemma LegacyEmptyGeocodeIsHere(e: LegacyEntry, geocode: string -> Fetch, device: GeoLocation, defaultCountry: string)
    requires Truthy(e.location) && geocode(e.location.value).Fetched?
    requires var data := geocode(e.location.value).data;
      data.results.None? || data.results.value == []
    ensures LegacyAddressed(e, geocode, device, defaultCountry).address == Some("here")
  {
    LegacyLocation.NoResultsEmpty(geocode(e.location.value).data);
    EmptyAddressIsHere(device, defaultCountry);
  }

  /**
   * `formatTrackingsAddress`: the geocode requests of `Promise.all`, then an
   * address for every entry whose request gave a location.
   */
  method FormatTrackingsAddress(trackings: array<LegacyEntry>, geocode: string -> Fetch, device: GeoLocation,
                                defaultCountry: string)
    modifies trackings
    ensures trackings[..] == LegacyAddressedAll(old(trackings[..]), geocode, device, defaultCountry)
  {
    ghost var before := trackings[..];
    var index := 0;
    while index < trackings.Length
      invariant 0 <= index <= trackings.Length
      invariant forall i :: 0 <= i < index ==> trackings[i] == LegacyAddressed(before[i], geocode, device, defaultCountry)
      invariant forall i :: index <= i < trackings.Length ==> trackings[i] == before[i]
    {
      var e := trackings[index];
      if Truthy(e.location) {
        var address := LegacyLocation.GetGeoLocation(geocode(e.location.value), true);
        if address.Returned? {
          trackings[index] := e.(address := Some(ClassifyAddress(address.location, device, defaultCountry)));
        }
      }
      index := index + 1;
    }
  }

  // ---------------------------------------------------------------------------
  // Messages

  /** The summary key: one of the four grouped tags, or "ExpectedDelivery". */
  function LegacySummaryKey(tag: string): (r: string)
    ensures tag in LegacyGroupTags ==> r == tag
    ensures tag !in LegacyGroupTags ==> r == "ExpectedDelivery"
  {
    LegacyBucketIsIndex(tag);
    if LegacyBucket(tag) >= 0 then tag else "ExpectedDelivery"
  }

  /** The first five words: count, carrier name (or slug), "package(s)", "from" and the title. */
  function LegacyHead(e: LegacyEntry, couriers: Couriers, numberTagging: string -> string): seq<string> {
    [ if e.count == 1 then "A" else Helpers.SayAs(NatToString(e.count), "cardinal"),
      if Truthy(Lookup(couriers, e.slug)) then Lookup(couriers, e.slug).value else e.slug,
      if e.count == 1 then "package" else "packages",
      "from",
      Helpers.Format(e.title, numberTagging) ]
  }

  /** "in <address>" for an address other than "here". */
  function LegacyInAddress(address: string): string {
    "in " + Helpers.SayAs(address, "address")
  }

  /** The calendar phrase of an optional day, or nothing. */
  function CalendarOf(clock: Clock, d: Option<int>): string {
    if d.Some? then clock.calendar(d.value) else ""
  }

  /** The address words of a delivery: "in <address>", "here", or nothing. */
  function DeliveredAt(address: Option<string>, here: string): string {
    if Truthy(address) then (if address.value != "here" then LegacyInAddress(address.value) else here) else ""
  }

  /** The words the `Delivered` case pushes. */
  function DeliveredWords(clock: Clock, e: LegacyEntry): seq<string> {
    [ if e.count == 1 then "was" else "were",
      if e.lastUpdated.Some? && e.date.None? then "marked as" else "",
      Phrase(LegacyStatus, "Delivered"),
      DeliveredAt(e.address, "here"),
      if e.date.Some? then clock.calendar(e.date.value) else CalendarOf(clock, e.lastUpdated),
      if Truthy(e.time) then "at " + e.time.value else "" ]
  }

  /** The words the `OutForDelivery` case pushes. */
  function OutForDeliveryWords(e: LegacyEntry): seq<string> {
    [ if e.count == 1 then "is" else "are",
      Phrase(LegacyStatus, "OutForDelivery"),
      DeliveredAt(e.address, "towards here"),
      if Truthy(e.time) then "since " + e.time.value else "" ]
  }

  /** The one word the `default` case pushes. */
  function ExpectedWords(clock: Clock, e: LegacyEntry): seq<string> {
    [ if e.date.Some? then
        (if clock.daysBetween(e.date.value, clock.today) >= 0 then Phrase(LegacyStatus, "ExpectedPresent")
         else Phrase(LegacyStatus, "ExpectedPast")) + " " + clock.calendar(e.date.value)
      else (if e.count == 1 then "is " else "are ") + Phrase(LegacyStatus, e.tag) ]
  }

  /** The words the `switch (pkg.tag)` pushes. */
  function LegacyStatusWords(clock: Clock, e: LegacyEntry): seq<string> {
    if e.tag == "AttemptFail" then
      [Phrase(LegacyStatus, "AttemptFail"), CalendarOf(clock, e.date)]
    else if e.tag == "Exception" then
      [ if e.count == 1 then "is" else "are",
        Phrase(LegacyStatus, "Exception"),
        if e.date.Some? then "as of " + clock.calendar(e.date.value) else "" ]
    else if e.tag == "Delivered" then DeliveredWords(clock, e)
    else if e.tag == "OutForDelivery" then OutForDeliveryWords(e)
    else ExpectedWords(clock, e)
  }

  /** `pkg.message`: the words without the empty ones. */
  function LegacyMessage(clock: Clock, couriers: Couriers, numberTagging: string -> string, e: LegacyEntry): seq<string> {
    NonEmptyWords(LegacyHead(e, couriers, numberTagging) + LegacyStatusWords(clock, e))
  }

  /** The entry after `pkg.message` was written. */
  function LegacyNarrated(clock: Clock, couriers: Couriers, numberTagging: string -> string, e: LegacyEntry): LegacyEntry {
    e.(message := LegacyMessage(clock, couriers, numberTagging, e))
  }

  /** The carrier is the courier list's name for the slug, or the slug when the list has none. */
  lemma LegacyCarrierName(e: LegacyEntry, couriers: Couriers, numberTagging: string -> string, name: string)
    requires name != ""
    ensures (exists i :: 0 <= i < |couriers| && couriers[i] == (e.slug, name)
               && forall j :: 0 <= j < i ==> couriers[j].0 != e.slug)
      ==> LegacyHead(e, couriers, numberTagging)[1] == name
    ensures !HasKey(couriers, e.slug) ==> LegacyHead(e, couriers, numberTagging)[1] == e.slug
  {
    if exists i :: 0 <= i < |couriers| && couriers[i] == (e.slug, name) && forall j :: 0 <= j < i ==> couriers[j].0 != e.slug {
      var i :| 0 <= i < |couriers| && couriers[i] == (e.slug, name) && forall j :: 0 <= j < i ==> couriers[j].0 != e.slug;
      LookupFirst(couriers, e.slug, i);
    }
  }

  /** `Lookup` finds the first pair with the key. */
  lemma {:induction false} LookupFirst(table: StatusTable, key: string, i: nat)
    requires i < |table| && table[i].0 == key
    requires forall j :: 0 <= j < i ==> table[j].0 != key
    ensures Lookup(table, key) == Some(table[i].1)
    decreases i
  {
    if i > 0 {
      LookupFirst(table[1..], key, i - 1);
    }
  }

  /** Several packages say their count as a cardinal, one package is "A … package". */
  lemma LegacyHeadCount(e: LegacyEntry, couriers: Couriers, numberTagging: string -> string)
    ensures e.count == 1 ==> LegacyHead(e, couriers, numberTagging)[0] == "A" && LegacyHead(e, couriers, numberTagging)[2] == "package"
    ensures e.count != 1 ==>
      LegacyHead(e, couriers, numberTagging)[0] == "<say-as interpret-as=\"" + "cardinal" + "\">" + NatToString(e.count) + "</say-as>"
      && LegacyHead(e, couriers, numberTagging)[2] == "packages"
  {
    if e.count != 1 {
      assert "cardinal" in Helpers.SupportedSayAs by {
        assert Helpers.SupportedSayAs[2] == "cardinal";
      }
      Helpers.SayAsWraps(NatToString(e.count), "cardinal");
    }
  }

  /** The `switch` picks the case of the tag; every tag outside the four goes to the default case. */
  lemma LegacyStatusCases(clock: Clock, e: LegacyEntry)
    ensures e.tag == "Delivered" ==> LegacyStatusWords(clock, e) == DeliveredWords(clock, e)
    ensures e.tag == "OutForDelivery" ==> LegacyStatusWords(clock, e) == OutForDeliveryWords(e)
    ensures e.tag !in LegacyGroupTags ==> LegacyStatusWords(clock, e) == ExpectedWords(clock, e)
  {
  }

  /** A delivery known only by its last update is "marked as" delivered on that day. */
  lemma LegacyDeliveredWithoutDate(clock: Clock, e: LegacyEntry)
    requires e.date.None? && e.lastUpdated.Some?
    ensures var w := DeliveredWords(clock, e);
      w[1] == "marked as" && w[4] == clock.calendar(e.lastUpdated.value)
  {
  }

  /** A delivery with a checkpoint time names its day and "at" its time, and is not "marked as". */
  lemma LegacyDeliveredWithTime(clock: Clock, e: LegacyEntry)
    requires e.date.Some? && Truthy(e.time)
    ensures var w := DeliveredWords(clock, e);
      w[1] == "" && w[4] == clock.calendar(e.date.value) && w[5] == "at " + e.time.value
  {
  }

  /** A package at the device's own location is delivered "here" and out for delivery "towards here". */
  lemma LegacyHereWording(clock: Clock, e: LegacyEntry)
    requires e.address == Some("here")
    ensures DeliveredWords(clock, e)[3] == "here"
    ensures OutForDeliveryWords(e)[2] == "towards here"
  {
  }

  /** Every key of the legacy status table is between 7 and 16 characters long. */
  lemma LegacyKeyLengths()
    ensures forall i :: 0 <= i < |LegacyStatus| ==> 7 <= |LegacyStatus[i].0| <= 16
  {
  }

  /**
   * The table has no AvailableForPickup phrase, so a package awaiting pickup
   * falls to the default case and, without a date, "is undefined".
   */
  lemma LegacyPickupWording(clock: Clock, e: LegacyEntry)
    requires e.tag == "AvailableForPickup"
    ensures !HasKey(LegacyStatus, e.tag)
    ensures e.tag !in LegacyGroupTags
    ensures e.date.None? && e.count == 1 ==> ExpectedWords(clock, e) == ["is undefined"]
  {
    LegacyKeyLengths();
    assert "is " + "undefined" == "is undefined";
  }

  /** A dated package in the default case should arrive, or should have arrived, on its day. */
  lemma LegacyExpectedWording(clock: Clock, e: LegacyEntry)
    requires e.date.Some?
    ensures ExpectedWords(clock, e) ==
      [(if clock.daysBetween(e.date.value, clock.today) >= 0 then "should arrive" else "should have arrived")
       + " " + clock.calendar(e.date.value)]
  {
    PresentPhrase();
    PastPhrase();
  }

  lemma PresentPhrase()
    ensures Phrase(LegacyStatus, "ExpectedPresent") == "should arrive"
  {
    assert forall j :: 0 <= j < 8 ==> |LegacyStatus[j].0| != 15;
    LookupFirst(LegacyStatus, "ExpectedPresent", 8);
  }

  lemma PastPhrase()
    ensures Phrase(LegacyStatus, "ExpectedPast") == "should have arrived"
  {
    assert forall j :: 1 <= j < 9 ==> |LegacyStatus[j].0| != 12;
    assert LegacyStatus[0].0[0] != "ExpectedPast"[0];
    LookupFirst(LegacyStatus, "ExpectedPast", 9);
  }

  // ---------------------------------------------------------------------------
  // Summary and list text

  /** The `(summary key, count)` pairs the `forEach` adds, in order. */
  function LegacySummaryPairs(es: seq<LegacyEntry>): (r: seq<(string, nat)>)
    ensures |r| == |es|
    ensures forall i :: 0 <= i < |es| ==> r[i].0 in LegacyGroupTags + ["ExpectedDelivery"] && r[i].1 == es[i].count
  {
    seq(|es|, i requires 0 <= i < |es| => (LegacySummaryKey(es[i].tag), es[i].count))
  }

  /** The summary keys are keys of `trackingStatus`, so no summary phrase is `undefined`. */
  lemma LegacySummaryKeysPhrased(es: seq<LegacyEntry>)
    ensures forall i :: 0 <= i < |LegacySummaryPairs(es)| ==>
      LegacySummaryPairs(es)[i].0 in LegacyGroupTags + ["ExpectedDelivery"]
      && HasKey(LegacyStatus, LegacySummaryPairs(es)[i].0)
  {
    var t := LegacyStatus;
    assert t[2].0 == "OutForDelivery" && t[3].0 == "AttemptFail" && t[4].0 == "Delivered";
    assert t[5].0 == "Exception" && t[7].0 == "ExpectedDelivery";
  }

  /** The sentence used when there is nothing to report: it names the status only under a tag filter. */
  function LegacyFallback(q: LegacyQuery): (r: string)
    ensures StartsWith(r, "no package")
    ensures r != "no package" <==> q.options.TagOption? && q.options.tag != ""
  {
    if q.options.TagOption? && q.options.tag != "" then
      var r := "no package " + Phrase(LegacyStatus, q.options.tag);
      assert |r| > |"no package"| && r[..10] == "no package";
      r
    else "no package"
  }

  /**
   * For the query `formatTrackingsQuery` builds, the fallback names a status
   * exactly under the tag option, and then with that status's own phrase.
   */
  lemma LegacyFallbackNamesStatus(keyword: Option<string>, couriers: Couriers)
    ensures var q := FormatTrackingsQuery(keyword, couriers);
      LegacyFallback(q) != "no package" <==> q.options.TagOption?
    ensures var q := FormatTrackingsQuery(keyword, couriers);
      q.options.TagOption? ==>
        Lookup(LegacyStatus, q.options.tag).Some?
        && LegacyFallback(q) == "no package " + Lookup(LegacyStatus, q.options.tag).value
  {
    LegacyQueryPrecedence(keyword, couriers);
    LegacyKeysNonEmpty();
    var q := FormatTrackingsQuery(keyword, couriers);
    if q.options.TagOption? {
      assert |LegacyFallback(q)| > |"no package"|;
    }
  }

  /** " from <query.string>" under a truthy keyword or slug option; `null` prints as "null". */
  function LegacyFromPart(q: LegacyQuery): string {
    if (q.options.KeywordOption? && Truthy(q.options.keyword)) || (q.options.SlugOption? && q.options.slug != "") then
      " from " + (if q.text.Some? then q.text.value else "null")
    else ""
  }

  /** The text `formatTrackingsList` returns for entries before their messages were written. */
  function LegacyListText(clock: Clock, couriers: Couriers, numberTagging: string -> string, q: LegacyQuery,
                          es: seq<LegacyEntry>, footnotes: Option<seq<string>>): string {
    var summary := SummarySentence(LegacyStatus, Tally(LegacySummaryPairs(es)), LegacyFallback(q), LegacyFromPart(q));
    Compose(summary, seq(|es|, i requires 0 <= i < |es| => Detail(LegacyMessage(clock, couriers, numberTagging, es[i]))), footnotes)
  }

  /** The query built for a keyword says " from <keyword>" exactly when it filters by keyword or carrier. */
  lemma LegacyFromPartIff(keyword: Option<string>, couriers: Couriers)
    ensures var q := FormatTrackingsQuery(keyword, couriers);
      LegacyFromPart(q) != "" <==>
        (q.options.SlugOption? && q.options.slug != "") || (q.options.KeywordOption? && Truthy(q.options.keyword))
    ensures var q := FormatTrackingsQuery(keyword, couriers);
      LegacyFromPart(q) != "" ==> q.text.Some? && LegacyFromPart(q) == " from " + q.text.value
  {
    LegacyQueryPrecedence(keyword, couriers);
  }

  /** Without entries the text is the fallback sentence, ending with ".". */
  lemma LegacyTextWithoutTrackings(clock: Clock, couriers: Couriers, numberTagging: string -> string, q: LegacyQuery,
                                   footnotes: Option<seq<string>>)
    ensures LegacyListText(clock, couriers, numberTagging, q, [], footnotes)
      == "<p>" + ("Currently, you have " + LegacyFallback(q) + LegacyFromPart(q) + ".") + "</p>" + Footnotes(footnotes)
  {
    var s := Tally(LegacySummaryPairs([]));
    assert s == [];
    SummarySentenceShape(LegacyStatus, s, LegacyFallback(q), LegacyFromPart(q));
  }

  /** With one entry only its detail sentence is spoken. */
  lemma LegacyTextWithOneTracking(clock: Clock, couriers: Couriers, numberTagging: string -> string, q: LegacyQuery,
                                  e: LegacyEntry, footnotes: Option<seq<string>>)
    ensures LegacyListText(clock, couriers, numberTagging, q, [e], footnotes)
      == "<p>" + Detail(LegacyMessage(clock, couriers, numberTagging, e)) + "</p>" + Footnotes(footnotes)
  {
    var d := seq(1, i requires 0 <= i < 1 => Detail(LegacyMessage(clock, couriers, numberTagging, [e][i])));
    assert d == [Detail(LegacyMessage(clock, couriers, numberTagging, e))];
  }

  /** Every summary count is the total count of the entries with that summary key. */
  lemma LegacySummaryTotals(es: seq<LegacyEntry>, key: string)
    ensures Get(Tally(LegacySummaryPairs(es)), key) == SumFor(LegacySummaryPairs(es), key)
  {
    TallySums(LegacySummaryPairs(es));
  }

  /**
   * `formatTrackingsList`: the `forEach` that fills the summary table and
   * writes the messages, then the text.
   */
  method FormatTrackingsList(clock: Clock, couriers: Couriers, numberTagging: string -> string,
                             trackings: array<LegacyEntry>, q: LegacyQuery, footnotes: Option<seq<string>>)
    returns (text: string)
    modifies trackings
    ensures forall i :: 0 <= i < trackings.Length ==>
      trackings[i] == LegacyNarrated(clock, couriers, numberTagging, old(trackings[i]))
    ensures text == LegacyListText(clock, couriers, numberTagging, q, old(trackings[..]), footnotes)
  {
    ghost var before := trackings[..];
    var summary := CountAndUpdate(trackings, (e: LegacyEntry) => LegacySummaryKey(e.tag), (e: LegacyEntry) => e.count,
                                  (e: LegacyEntry) => LegacyNarrated(clock, couriers, numberTagging, e));
    assert Pairs(before, (e: LegacyEntry) => LegacySummaryKey(e.tag), (e: LegacyEntry) => e.count) == LegacySummaryPairs(before);
    var details := seq(trackings.Length, i requires 0 <= i < trackings.Length reads trackings => Detail(trackings[i].message));
    assert details == seq(|before|, i requires 0 <= i < |before| => Detail(LegacyMessage(clock, couriers, numberTagging, before[i])));
    text := Compose(SummarySentence(LegacyStatus, summary, LegacyFallback(q), LegacyFromPart(q)), details, footnotes);
  }

  /**
   * `generateTrackingsList(keyword, footnotes)`: the query for the keyword,
   * the selected trackings, their addresses, and the list text. `couriers`
   * is the courier list and `listed` what `/trackings` returned for the
   * query; `shown` names the selected entries.
   */
  method GenerateTrackingsList(clock: Clock, settings: LegacySettings, numberTagging: string -> string,
                               geocode: string -> Fetch, device: GeoLocation, couriers: Couriers,
                               listed: seq<LegacyRecord>, keyword: Option<string>, footnotes: Option<seq<string>>)
    returns (text: string, ghost shown: seq<LegacyEntry>)
    ensures LegacySelected(clock, settings.countLimit, LegacyGroup(clock, LegacySurvivors(clock, settings, listed)), shown)
    ensures text == LegacyListText(clock, couriers, numberTagging, FormatTrackingsQuery(keyword, couriers),
                                   LegacyAddressedAll(shown, geocode, device, settings.defaultCountry), footnotes)
  {
    var query := FormatTrackingsQuery(keyword, couriers);
    var trackings := LegacyTrackingsInformation(clock, settings, listed);
    shown := trackings;
    var a := new LegacyEntry[|trackings|](i requires 0 <= i < |trackings| => trackings[i]);
    assert a[..] == trackings;
    FormatTrackingsAddress(a, geocode, device, settings.defaultCountry);
    text := FormatTrackingsList(clock, couriers, numberTagging, a, query, footnotes);
  }
}
