/**
 * The `AftershipClient` class of lambda/aftership.js and the two exported
 * entry points built on it.
 *
 * The client's one piece of state the core reads back is `this.query`, set by
 * `getTrackingsQuery` and used by `getTrackingsSpeechOutput`. The AfterShip
 * API calls are parameters: the courier names object and the trackings that
 * `listTrackings(query.parameters)` returned.
 */
module AftershipClient {
  import opened Wrappers
  import opened Clocks
  import opened Geo
  import Ranking
  import opened Narrative
  import opened AftershipQuery
  import opened AftershipRecords
  import opened AftershipSpeech
  import opened AftershipEvents

  /** `Array.prototype.slice(0, limit)` keeps this many elements. */
  function SliceLength(limit: nat, n: nat): (m: nat)
    ensures m <= n && m <= limit && (m == n || m == limit)
  {
    if limit < n then limit else n
  }

  /** The grouped entries `getTrackingsInformation` sorts and then cuts. */
  function Grouped(clock: Clock, settings: Settings, couriers: Couriers, listed: seq<Record>): seq<Entry> {
    Group(clock, Survivors(clock, settings, couriers, listed))
  }

  /**
   * What `getTrackingsInformation` promises of its result: it holds the
   * configured number of entries (or all of them), sorted by the comparator,
   * each taken from the grouped entries, and no entry it drops sorts strictly
   * before one it keeps.
   */
  ghost predicate Selected(clock: Clock, limit: nat, grouped: seq<Entry>, r: seq<Entry>) {
    |r| == SliceLength(limit, |grouped|)
    && (forall i, j :: 0 <= i < j < |r| ==> Compare(clock, r[j], r[i]) >= 0)
    && multiset(r) <= multiset(grouped)
    && (forall x, y :: x in multiset(grouped) - multiset(r) && y in r ==> Compare(clock, x, y) >= 0)
  }

  /** Each entry after the address pass and the message pass of `getTrackingsSpeechOutput`. */
  function Spoken(clock: Clock, numberTagging: string -> string, geocode: string -> Fetch, device: GeoLocation,
                  defaultCountry: string, es: seq<Entry>): (r: seq<Entry>)
    ensures |r| == |es|
    ensures forall i :: 0 <= i < |es| ==> r[i].(address := es[i].address, message := es[i].message) == es[i]
  {
    assert forall i :: 0 <= i < |es| ==> Addressed(es[i], geocode, device, defaultCountry).(address := es[i].address) == es[i] by {
      forall i | 0 <= i < |es| ensures Addressed(es[i], geocode, device, defaultCountry).(address := es[i].address) == es[i] {
        AddressedChangesOnlyAddress(es[i], geocode, device, defaultCountry);
      }
    }
    seq(|es|, i requires 0 <= i < |es| => Narrated(clock, numberTagging, Addressed(es[i], geocode, device, defaultCountry)))
  }

  /** The message pass keeps every entry's tag and count, so the summary pairs are the same before and after it. */
  lemma NarratedKeepsPairs(clock: Clock, numberTagging: string -> string, before: seq<Entry>, after: seq<Entry>)
    requires |after| == |before|
    requires forall i :: 0 <= i < |before| ==> after[i] == Narrated(clock, numberTagging, before[i])
    ensures SummaryPairs(after) == SummaryPairs(before)
  {
    assert forall i :: 0 <= i < |before| ==> SummaryPairs(after)[i] == SummaryPairs(before)[i];
  }

  class AftershipClient {
    /** `this.query`; `None` until `getTrackingsQuery` has run. */
    var query: Option<Query>

    /** A new client has no query yet; the AfterShip API handle is not modelled. */
    constructor()
      ensures query == None
    {
      query := None;
    }

    /** `getTrackingsQuery(keyword, couriers)`: builds the query and keeps it in `this.query`. */
    method GetTrackingsQuery(keyword: Option<string>, couriers: Couriers) returns (q: Query)
      modifies this
      ensures q == BuildQuery(keyword, couriers)
      ensures query == Some(q)
    {
      q := BuildQuery(keyword, couriers);
      query := Some(q);
    }

    /**
     * `getTrackingsInformation(keyword)`: the query, the grouped survivors of
     * the listed trackings, sorted and cut to the configured count limit.
     */
    method GetTrackingsInformation(clock: Clock, settings: Settings, keyword: Option<string>, couriers: Couriers,
                                   listed: seq<Record>) returns (r: seq<Entry>)
      modifies this
      ensures query == Some(BuildQuery(keyword, couriers))
      ensures Selected(clock, settings.countLimit, Grouped(clock, settings, couriers, listed), r)
    {
      var q := GetTrackingsQuery(keyword, couriers);
      var response := CollectTrackings(clock, settings, couriers, listed);
      var a := new Entry[|response|](i requires 0 <= i < |response| => response[i]);
      assert a[..] == response;
      SortTrackingsInformation(clock, a);
      var m := SliceLength(settings.countLimit, a.Length);
      r := a[..m];
      SelectedByRank(clock, a[..], response, settings.countLimit);
    }

    /**
     * `getTrackingsSpeechOutput(trackings, footnotes)`: writes the addresses
     * and messages into the entries and returns the spoken text for the
     * stored query.
     */
    method GetTrackingsSpeechOutput(clock: Clock, numberTagging: string -> string, trackings: array<Entry>,
                                    geocode: string -> Fetch, device: GeoLocation, defaultCountry: string,
                                    footnotes: Option<seq<string>>) returns (text: string)
      requires query.Some?
      modifies trackings
      ensures trackings[..] == Spoken(clock, numberTagging, geocode, device, defaultCountry, old(trackings[..]))
      ensures text == SpeechText(query.value, trackings[..], footnotes)
    {
      var q := query.value;
      ghost var original := trackings[..];
      GetTrackingsAddress(trackings, geocode, device, defaultCountry);
      ghost var addressed := trackings[..];
      var summary := NarrateTrackings(clock, numberTagging, trackings);
      NarratedKeepsPairs(clock, numberTagging, addressed, trackings[..]);
      text := Compose(SummarySentence(TrackingStatus, summary, Fallback(q), FromPart(q)), Details(trackings[..]), footnotes);
      assert trackings[..] == Spoken(clock, numberTagging, geocode, device, defaultCountry, original);
    }
  }

  /** Under the count limit, the selection is every grouped entry, reordered. */
  lemma SelectedUnderLimit(clock: Clock, limit: nat, grouped: seq<Entry>, r: seq<Entry>)
    requires Selected(clock, limit, grouped, r)
    requires |grouped| <= limit
    ensures multiset(r) == multiset(grouped)
  {
    var rest := multiset(grouped) - multiset(r);
    assert multiset(grouped) == multiset(r) + rest;
    assert |rest| == 0;
  }

  /** A sorted arrangement of the grouped entries, cut at the count limit, meets `Selected`. */
  lemma SelectedByRank(clock: Clock, p: seq<Entry>, input: seq<Entry>, limit: nat)
    requires multiset(p) == multiset(input)
    requires forall i, j :: 0 <= i < j < |p| ==> Compare(clock, p[j], p[i]) >= 0
    ensures Selected(clock, limit, input, p[..SliceLength(limit, |p|)])
  {
    var m := SliceLength(limit, |p|);
    assert |input| == |p| by {
      assert |multiset(p)| == |multiset(input)|;
    }
    forall i, j | 0 <= i < j < |p|
      ensures !Ranking.RankLess(RankOf(clock, p[j]), RankOf(clock, p[i]))
    {
      CompareIsRank(clock, p[j], p[i]);
    }
    Ranking.TopRanked(p, input, e => RankOf(clock, e), m);
    forall x, y | x in multiset(input) - multiset(p[..m]) && y in p[..m]
      ensures Compare(clock, x, y) >= 0
    {
      CompareIsRank(clock, x, y);
    }
  }

  /**
   * The exported `getSpeechOutput(keyword, footnotes)`: a new client fetches
   * the trackings for the keyword and speaks them. `listed` is what the API
   * returned for the query; `shown` names the entries the client selected.
   */
  method GetSpeechOutput(clock: Clock, settings: Settings, numberTagging: string -> string, geocode: string -> Fetch,
                         device: GeoLocation, couriers: Couriers, listed: seq<Record>,
                         keyword: Option<string>, footnotes: Option<seq<string>>)
    returns (text: string, ghost shown: seq<Entry>)
    ensures Selected(clock, settings.countLimit, Grouped(clock, settings, couriers, listed), shown)
    ensures text == SpeechText(BuildQuery(keyword, couriers),
                               Spoken(clock, numberTagging, geocode, device, settings.defaultCountry, shown), footnotes)
  {
    var client := new AftershipClient();
    var trackings := client.GetTrackingsInformation(clock, settings, keyword, couriers, listed);
    shown := trackings;
    var a := new Entry[|trackings|](i requires 0 <= i < |trackings| => trackings[i]);
    assert a[..] == trackings;
    text := client.GetTrackingsSpeechOutput(clock, numberTagging, a, geocode, device, settings.defaultCountry, footnotes);
  }

  /**
   * The exported `getProactiveEvents(lastEvent)`: a new client fetches the
   * trackings with no keyword (so `listed` is the answer to the unfiltered
   * query) and turns the selected entries into events.
   */
  method GetProactiveEvents(clock: Clock, settings: Settings, couriers: Couriers, listed: seq<Record>,
                            lastEvent: Option<int>) returns (events: seq<Event>, ghost shown: seq<Entry>)
    ensures Selected(clock, settings.countLimit, Grouped(clock, settings, couriers, listed), shown)
    ensures events == Events(clock, lastEvent, shown)
  {
    var client := new AftershipClient();
    var trackings := client.GetTrackingsInformation(clock, settings, None, couriers, listed);
    shown := trackings;
    events := GetTrackingsProactiveEvents(clock, trackings, lastEvent);
  }
}
