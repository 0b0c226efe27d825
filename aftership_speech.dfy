/**
 * `getTrackingsAddress` and `getTrackingsSpeechOutput` of lambda/aftership.js:
 * the geocoded address phrase of each entry, the per-package message words,
 * the per-status summary and the spoken text.
 */
module AftershipSpeech {
  import opened Wrappers
  import opened Strings
  import opened Clocks
  import opened Geo
  import opened Tracking
  import opened Narrative
  import opened AftershipQuery
  import opened AftershipRecords
  import Location
  import Speech

  // ---------------------------------------------------------------------------
  // Addresses

  /**
   * What `tracking.location && getGeoLocation(tracking.location, true)`
   * settles to, given what the geocode request for each location settles to:
   * nothing without a location, otherwise the extracted location, or nothing
   * when the request or the extraction failed.
   */
  function Geocoded(e: Entry, geocode: string -> Fetch): (r: Option<GeoLocation>)
    ensures r.Some? ==> Truthy(e.location) && geocode(e.location.value).Fetched?
    ensures r.Some? && HasResults(geocode(e.location.value).data) ==>
      var first := geocode(e.location.value).data.results.value[0];
      r.value.lat == Some(first.lat) && r.value.lng == Some(first.lng)
  {
    if !Truthy(e.location) then None
    else match geocode(e.location.value)
      case Fetched(data) => Location.ExpectedNoneIff(data); Location.Expected(data)
      case FetchFailed(_) => None
  }

  /**
   * No location is ever found for an entry without a location, after a failed
   * request, or when the first result has a sublocality component; in every
   * other case one is.
   */
  lemma GeocodedNoneIff(e: Entry, geocode: string -> Fetch)
    ensures Geocoded(e, geocode).None? <==>
      !Truthy(e.location)
      || geocode(e.location.value).FetchFailed?
      || Location.FirstHasSublocality(geocode(e.location.value).data)
  {
    if Truthy(e.location) && geocode(e.location.value).Fetched? {
      Location.ExpectedNoneIff(geocode(e.location.value).data);
    }
  }

  /** The entry after `trackings[index].address` was written, if it was. */
  function Addressed(e: Entry, geocode: string -> Fetch, device: GeoLocation, defaultCountry: string): Entry {
    match Geocoded(e, geocode)
    case Some(address) => e.(address := Some(ClassifyAddress(address, device, defaultCountry)))
    case None => e
  }

  /** Only the address changes, and only when a geocode result exists. */
  lemma AddressedChangesOnlyAddress(e: Entry, geocode: string -> Fetch, device: GeoLocation, defaultCountry: string)
    ensures Addressed(e, geocode, device, defaultCountry).(address := e.address) == e
    ensures Geocoded(e, geocode).None? ==> Addressed(e, geocode, device, defaultCountry) == e
    ensures Geocoded(e, geocode).Some? ==>
      Addressed(e, geocode, device, defaultCountry).address == Some(ClassifyAddress(Geocoded(e, geocode).value, device, defaultCountry))
  {
  }

  /** A geocode result with a sublocality component raises inside the geocoder, so the entry gets no address. */
  lemma SublocalityLeavesNoAddress(e: Entry, geocode: string -> Fetch, j: nat, device: GeoLocation, defaultCountry: string)
    requires Truthy(e.location) && geocode(e.location.value).Fetched?
    requires var data := geocode(e.location.value).data;
      HasResults(data) && j < |data.results.value[0].components|
      && KindOf(data.results.value[0].components[j].types) == Sublocality
    ensures Addressed(e, geocode, device, defaultCountry) == e
  {
    Location.SublocalityNeverReturns(geocode(e.location.value).data, j);
  }

  /** An empty geocode response yields `{}`, which is "here". */
  lemma EmptyGeocodeIsHere(e: Entry, geocode: string -> Fetch, device: GeoLocation, defaultCountry: string)
    requires Truthy(e.location) && geocode(e.location.value).Fetched?
    requires var data := geocode(e.location.value).data;
      data.results.None? || data.results.value == []
    ensures Addressed(e, geocode, device, defaultCountry).address == Some("here")
  {
    Location.NoResultsEmpty(geocode(e.location.value).data);
    EmptyAddressIsHere(device, defaultCountry);
  }

  /** `getTrackingsAddress`. */
  method GetTrackingsAddress(trackings: array<Entry>, geocode: string -> Fetch, device: GeoLocation, defaultCountry: string)
    modifies trackings
    ensures forall i :: 0 <= i < trackings.Length ==>
      trackings[i] == Addressed(old(trackings[i]), geocode, device, defaultCountry)
  {
    var index := 0;
    while index < trackings.Length
      invariant 0 <= index <= trackings.Length
      invariant forall i :: 0 <= i < index ==> trackings[i] == Addressed(old(trackings[i]), geocode, device, defaultCountry)
      invariant forall i :: index <= i < trackings.Length ==> trackings[i] == old(trackings[i])
    {
      var e := trackings[index];
      if Truthy(e.location) {
        var address := Location.GetGeoLocation(geocode(e.location.value), true);
        if address.Returned? {
          trackings[index] := e.(address := Some(ClassifyAddress(address.location, device, defaultCountry)));
        }
      }
      index := index + 1;
    }
  }

  // ---------------------------------------------------------------------------
  // Messages

  /** The summary key of a tag: one of the five bucketed tags, or "ExpectedDelivery". */
  function SummaryKey(tag: string): string {
    if Bucket(tag) >= 0 then tag else "ExpectedDelivery"
  }

  /** `TAGS.includes(pkg.tag) ? pkg.tag : 'ExpectedDelivery'`. */
  lemma SummaryKeyIncludes(tag: string)
    ensures tag in GroupTags ==> SummaryKey(tag) == tag
    ensures tag !in GroupTags ==> SummaryKey(tag) == "ExpectedDelivery"
  {
    BucketIsIndex(tag);
  }

  /** The first five words: count, carrier, "package(s)", "from" and the title. */
  function Head(e: Entry, numberTagging: string -> string): seq<string> {
    [ if e.count == 1 then "A" else Speech.SayAs(NatToString(e.count), "cardinal"),
      if Truthy(e.courier) then e.courier.value else e.slug,
      if e.count == 1 then "package" else "packages",
      "from",
      Speech.Format(e.title, numberTagging) ]
  }

  /** "in <address>" for an address other than "here". */
  function InAddress(address: string): string {
    "in " + Speech.SayAs(address, "address")
  }

  /** The words the `switch (pkg.tag)` pushes. */
  function StatusWords(clock: Clock, e: Entry): seq<string> {
    var one := e.count == 1;
    var dated := e.date.Some?;
    if e.tag == "AttemptFail" then
      [Phrase(TrackingStatus, "AttemptFail"), if dated then clock.calendar(e.date.value) else ""]
    else if e.tag == "Exception" then
      [ if one then "is" else "are",
        Phrase(TrackingStatus, "Exception"),
        if dated then "as of " + clock.calendar(e.date.value) else "" ]
    else if e.tag == "Delivered" then
      [ if one then "was" else "were",
        if !dated then "marked as" else "",
        Phrase(TrackingStatus, "Delivered"),
        if Truthy(e.address) then (if e.address.value != "here" then InAddress(e.address.value) else "here") else "",
        if dated then clock.calendar(e.date.value) else clock.calendar(e.lastUpdated),
        if dated then "at " + clock.timeOfDay(e.date.value) else "" ]
    else if e.tag == "OutForDelivery" then
      [ if one then "is" else "are",
        Phrase(TrackingStatus, "OutForDelivery"),
        if Truthy(e.address) then (if e.address.value != "here" then InAddress(e.address.value) else "towards here") else "",
        if dated then "since " + clock.timeOfDay(e.date.value) else "" ]
    else if e.tag == "AvailableForPickup" then
      [ if one then "is" else "are",
        Phrase(TrackingStatus, "AvailableForPickup"),
        if Truthy(e.address) && e.address.value != "here" then InAddress(e.address.value) else "",
        if dated then "since " + clock.timeOfDay(e.date.value) else "" ]
    else
      [ if dated then
          (if clock.daysFromToday(e.date.value) >= 0 then Phrase(TrackingStatus, "ExpectedPresent")
           else Phrase(TrackingStatus, "ExpectedPast")) + " " + clock.calendar(e.date.value)
        else (if one then "is " else "are ") + Phrase(TrackingStatus, e.tag) ]
  }

  /** `pkg.message`: the words without the empty ones. */
  function Message(clock: Clock, numberTagging: string -> string, e: Entry): seq<string> {
    NonEmptyWords(Head(e, numberTagging) + StatusWords(clock, e))
  }

  /** The entry after `pkg.message` was written. */
  function Narrated(clock: Clock, numberTagging: string -> string, e: Entry): Entry {
    e.(message := Message(clock, numberTagging, e))
  }

  /** A single package reads "A <carrier> package from <title>", and the carrier falls back to the slug. */
  lemma HeadForOne(e: Entry, numberTagging: string -> string)
    requires e.count == 1
    ensures Head(e, numberTagging)[0] == "A" && Head(e, numberTagging)[2] == "package"
    ensures !Truthy(e.courier) ==> Head(e, numberTagging)[1] == e.slug
  {
  }

  /** Several packages say their count as a cardinal. */
  lemma HeadForMany(e: Entry, numberTagging: string -> string)
    requires e.count != 1
    ensures Head(e, numberTagging)[0] == "<say-as interpret-as=\"cardinal\">" + NatToString(e.count) + "</say-as>"
    ensures Head(e, numberTagging)[2] == "packages"
  {
    Speech.SupportedHaveNoAngles();
    Speech.SayAsUnchangedIff(NatToString(e.count), "cardinal");
    assert "cardinal" in Speech.SupportedSayAs;
  }

  /** A delivery without a date is "marked as" delivered on the day of its last update. */
  lemma DeliveredWithoutDate(clock: Clock, e: Entry)
    requires e.tag == "Delivered" && e.date.None?
    ensures var w := StatusWords(clock, e);
      w[1] == "marked as" && w[4] == clock.calendar(e.lastUpdated) && w[5] == ""
  {
  }

  /** A package at the device's own location is delivered "here" and out for delivery "towards here". */
  lemma HereWording(clock: Clock, e: Entry)
    requires e.address == Some("here")
    ensures e.tag == "Delivered" ==> StatusWords(clock, e)[3] == "here"
    ensures e.tag == "OutForDelivery" ==> StatusWords(clock, e)[2] == "towards here"
    ensures e.tag == "AvailableForPickup" ==> StatusWords(clock, e)[2] == ""
  {
  }

  /** Any other tag with a date says whether it should arrive or should have arrived. */
  lemma ExpectedWording(clock: Clock, e: Entry)
    requires Bucket(e.tag) < 0
    ensures e.date.Some? ==>
      (StatusWords(clock, e) ==
         [(if clock.daysFromToday(e.date.value) >= 0 then Phrase(TrackingStatus, "ExpectedPresent")
           else Phrase(TrackingStatus, "ExpectedPast"))
          + " " + clock.calendar(e.date.value)])
    ensures e.date.None? ==>
      (StatusWords(clock, e) == [(if e.count == 1 then "is " else "are ") + Phrase(TrackingStatus, e.tag)])
  {
  }

  /** A tag outside the status table without a date reads "is undefined". */
  lemma UnknownTagIsUndefined(clock: Clock, e: Entry)
    requires e.count == 1 && e.date.None?
    requires Bucket(e.tag) < 0
    requires !HasKey(TrackingStatus, e.tag)
    ensures StatusWords(clock, e) == ["is undefined"]
  {
    assert "is " + "undefined" == "is undefined";
  }

  // ---------------------------------------------------------------------------
  // Summary and spoken text

  /** The `(summary key, count)` pairs the `forEach` adds, in order. */
  function SummaryPairs(es: seq<Entry>): (r: seq<(string, nat)>)
    ensures |r| == |es|
    ensures forall i :: 0 <= i < |es| ==> r[i].0 in GroupTags + ["ExpectedDelivery"] && r[i].1 == es[i].count
  {
    assert forall i :: 0 <= i < |es| ==> SummaryKey(es[i].tag) in GroupTags + ["ExpectedDelivery"] by {
      forall i | 0 <= i < |es| ensures SummaryKey(es[i].tag) in GroupTags + ["ExpectedDelivery"] {
        SummaryKeyIncludes(es[i].tag);
      }
    }
    seq(|es|, i requires 0 <= i < |es| => (SummaryKey(es[i].tag), es[i].count))
  }

  /** The summary keys are keys of `TRACKING_STATUS`, so no summary phrase is `undefined`. */
  lemma SummaryKeysPhrased(es: seq<Entry>)
    ensures forall i :: 0 <= i < |SummaryPairs(es)| ==>
      SummaryPairs(es)[i].0 in GroupTags + ["ExpectedDelivery"] && HasKey(TrackingStatus, SummaryPairs(es)[i].0)
  {
    var t := TrackingStatus;
    assert t[2].0 == "AvailableForPickup" && t[3].0 == "OutForDelivery" && t[4].0 == "AttemptFail";
    assert t[5].0 == "Delivered" && t[6].0 == "Exception" && t[8].0 == "ExpectedDelivery";
    forall i | 0 <= i < |SummaryPairs(es)|
      ensures SummaryPairs(es)[i].0 in GroupTags + ["ExpectedDelivery"] && HasKey(TrackingStatus, SummaryPairs(es)[i].0)
    {
      SummaryKeyIncludes(es[i].tag);
    }
  }

  /** The sentence used when there is nothing to report. */
  function Fallback(q: Query): string {
    if q.filter.TagFilter? then "no package " + Phrase(TrackingStatus, q.filter.tag) else "no package"
  }

  /** `${query.string}`. */
  function QueryString(q: Query): string {
    if q.text.Some? then q.text.value else "null"
  }

  /** " from <keyword>" under a keyword or slug filter. */
  function FromPart(q: Query): string {
    if (q.filter.KeywordFilter? && q.filter.keyword != "") || (q.filter.SlugFilter? && q.filter.slug != "") then
      " from " + QueryString(q)
    else ""
  }

  /** One detail sentence per entry, each ending with a period. */
  function Details(es: seq<Entry>): (r: seq<string>)
    ensures |r| == |es| && forall i :: 0 <= i < |es| ==> |r[i]| > 0 && r[i][|r[i]| - 1] == '.'
  {
    seq(|es|, i requires 0 <= i < |es| => Detail(es[i].message))
  }

  /** The string `getTrackingsSpeechOutput` resolves with, over the narrated entries. */
  function SpeechText(q: Query, es: seq<Entry>, footnotes: Option<seq<string>>): string {
    var summary := SummarySentence(TrackingStatus, Tally(SummaryPairs(es)), Fallback(q), FromPart(q));
    Compose(summary, Details(es), footnotes)
  }

  /** With no entry the output is the fallback sentence ending with ".". */
  lemma SpeechWithoutTrackings(q: Query, footnotes: Option<seq<string>>)
    ensures SpeechText(q, [], footnotes) ==
      "<p>" + ("Currently, you have " + Fallback(q) + FromPart(q) + ".") + "</p>" + Footnotes(footnotes)
  {
    var s := Tally(SummaryPairs([]));
    assert s == [];
    SummarySentenceShape(TrackingStatus, s, Fallback(q), FromPart(q));
    ComposeNoDetails(SummarySentence(TrackingStatus, s, Fallback(q), FromPart(q)), footnotes);
  }

  /** With one entry only its detail sentence is spoken. */
  lemma SpeechWithOneTracking(q: Query, e: Entry, footnotes: Option<seq<string>>)
    ensures SpeechText(q, [e], footnotes) == "<p>" + Detail(e.message) + "</p>" + Footnotes(footnotes)
  {
    var s := Tally(SummaryPairs([e]));
    assert Details([e]) == [Detail(e.message)];
    ComposeOneDetail(SummarySentence(TrackingStatus, s, Fallback(q), FromPart(q)), Detail(e.message), footnotes);
  }

  /** With several entries the summary ends with ":" and the details follow, one per line. */
  lemma SpeechWithTrackings(q: Query, es: seq<Entry>, footnotes: Option<seq<string>>)
    requires |es| >= 2
    ensures SpeechText(q, es, footnotes) ==
      "<p>" + ("Currently, you have " + SummaryBody(TrackingStatus, Tally(SummaryPairs(es))) + FromPart(q) + ":")
      + "</p>\n<p>" + Join("\n", Details(es)) + "</p>" + Footnotes(footnotes)
  {
    var s := Tally(SummaryPairs(es));
    TallyKeys(SummaryPairs(es));
    assert SummaryPairs(es)[0].0 in Keys(s);
    SummarySentenceShape(TrackingStatus, s, Fallback(q), FromPart(q));
    ComposeManyDetails(SummarySentence(TrackingStatus, s, Fallback(q), FromPart(q)), Details(es), footnotes);
  }

  /** Every summary count is the total count of the entries in its bucket. */
  lemma SummaryTotals(es: seq<Entry>, key: string)
    ensures Get(Tally(SummaryPairs(es)), key) == SumFor(SummaryPairs(es), key)
  {
    TallySums(SummaryPairs(es));
  }

  /** " from <keyword>" appears exactly for a keyword or slug filter. */
  lemma FromPartIff(keyword: Option<string>, couriers: Couriers)
    ensures var q := BuildQuery(keyword, couriers);
      FromPart(q) != "" <==> q.filter.KeywordFilter? || q.filter.SlugFilter?
    ensures var q := BuildQuery(keyword, couriers);
      FromPart(q) != "" ==> FromPart(q) == " from " + q.text.value
  {
    var q := BuildQuery(keyword, couriers);
    if !q.filter.NoFilter? {
      FilteredQueryHasText(keyword, couriers);
    }
  }

  /**
   * The `forEach` over the trackings: adds each entry's count to its summary
   * key and writes its message.
   */
  method NarrateTrackings(clock: Clock, numberTagging: string -> string, trackings: array<Entry>) returns (summary: Summary)
    modifies trackings
    ensures summary == Tally(SummaryPairs(old(trackings[..])))
    ensures forall i :: 0 <= i < trackings.Length ==> trackings[i] == Narrated(clock, numberTagging, old(trackings[i]))
  {
    ghost var before := trackings[..];
    summary := CountAndUpdate(trackings, (e: Entry) => SummaryKey(e.tag), (e: Entry) => e.count, (e: Entry) => Narrated(clock, numberTagging, e));
    assert Pairs(before, (e: Entry) => SummaryKey(e.tag), (e: Entry) => e.count) == SummaryPairs(before);
  }
}
