/**
 * `getTrackingsProactiveEvents` of lambda/aftership.js: one order-status
 * event per tracking id of every entry updated after the last event whose
 * status is announced.
 *
 * The moment `now` is shared by all events and `endOf('day')` moves it in
 * place, so the k-th event starts where the previous one expired; an in-transit
 * entry's `date` is moved the same way once per tracking id.
 */
module AftershipEvents {
  import opened Wrappers
  import opened Clocks
  import opened AftershipRecords

  /** The fields of one event that depend on the entry; the constant ones are not modelled. */
  datatype Event = Event(
    timestamp: int,
    referenceId: string,
    expiryTime: int,
    status: string,
    enterTimeStamp: int,
    deliveredOn: Option<int>,
    expectedArrival: Option<int>,
    sellerName: string)

  /** One entry of `trackingEvents`: the event status, and whether every occurrence of the tag is announced. */
  datatype EventKind = EventKind(status: string, all: bool)

  const Shipped := "ORDER_SHIPPED"
  const OutForDelivery := "ORDER_OUT_FOR_DELIVERY"
  const Delivered := "ORDER_DELIVERED"

  /** `trackingEvents[tag]` for a tag in it. */
  function TrackingEvent(tag: string): Option<EventKind> {
    if tag == "InTransit" then Some(EventKind(Shipped, false))
    else if tag == "OutForDelivery" then Some(EventKind(OutForDelivery, true))
    else if tag == "Delivered" then Some(EventKind(Delivered, true))
    else None
  }

  /** `lastEvent` as an instant; without one, `isAfter` compares with the current time. */
  function Threshold(clock: Clock, lastEvent: Option<int>): int {
    if lastEvent.Some? then lastEvent.value else clock.now
  }

  /** The `filter` callback. */
  predicate Qualifies(clock: Clock, lastEvent: Option<int>, pkg: Entry) {
    pkg.lastUpdated > Threshold(clock, lastEvent)
    && TrackingEvent(pkg.tag).Some?
    && (TrackingEvent(pkg.tag).value.all || pkg.tagEventNumber == 1)
  }

  /** The event of tracking id `j` of `pkg`, the `k`-th event pushed overall. */
  function MakeEvent(clock: Clock, pkg: Entry, kind: EventKind, k: nat, j: nat): Event
    requires j < |pkg.trackingIds|
  {
    Event(
      Iterate(clock.endOfDay, clock.now, k),
      pkg.trackingIds[j],
      Iterate(clock.endOfDay, clock.now, k + 1),
      kind.status,
      pkg.lastUpdated,
      if pkg.date.Some? && kind.status == Delivered then pkg.date else None,
      if pkg.date.Some? && kind.status == Shipped then Some(Iterate(clock.endOfDay, pkg.date.value, j + 1)) else None,
      pkg.title)
  }

  /** The events of one entry, numbered from `k`. */
  function PackageEvents(clock: Clock, pkg: Entry, kind: EventKind, k: nat): (r: seq<Event>)
    ensures |r| == |pkg.trackingIds|
    ensures forall j :: 0 <= j < |r| ==> r[j].referenceId == pkg.trackingIds[j] && r[j].status == kind.status
  {
    var r := seq(|pkg.trackingIds|, j requires 0 <= j < |pkg.trackingIds| => MakeEvent(clock, pkg, kind, k + j, j));
    assert forall j :: 0 <= j < |r| ==> r[j] == MakeEvent(clock, pkg, kind, k + j, j);
    r
  }

  /** The event at position `j` of an entry's events is the one built for its `j`-th tracking id. */
  lemma PackageEventAt(clock: Clock, pkg: Entry, kind: EventKind, k: nat)
    ensures forall j :: 0 <= j < |pkg.trackingIds| ==>
      PackageEvents(clock, pkg, kind, k)[j] == MakeEvent(clock, pkg, kind, k + j, j)
  {
  }

  /**
   * An entry's events carry its tracking ids in order, its status and title,
   * sit on the timeline from position `k`, and give a delivery date only to a
   * delivered and an arrival date only to a shipped event.
   */
  lemma PackageEventsCarryPackage(clock: Clock, pkg: Entry, kind: EventKind, k: nat)
    ensures var events := PackageEvents(clock, pkg, kind, k);
      |events| == |pkg.trackingIds|
      && forall j :: 0 <= j < |events| ==>
        events[j].referenceId == pkg.trackingIds[j]
        && events[j].timestamp == Iterate(clock.endOfDay, clock.now, k + j)
        && events[j].expiryTime == Iterate(clock.endOfDay, clock.now, k + j + 1)
        && events[j].status == kind.status && events[j].sellerName == pkg.title
        && (events[j].deliveredOn.Some? <==> pkg.date.Some? && kind.status == Delivered)
        && (events[j].expectedArrival.Some? <==> pkg.date.Some? && kind.status == Shipped)
  {
    PackageEventAt(clock, pkg, kind, k);
  }

  /** The `events` array after the entries `ps` were processed. */
  function Events(clock: Clock, lastEvent: Option<int>, ps: seq<Entry>): seq<Event>
    decreases |ps|
  {
    if |ps| == 0 then []
    else
      var prev := Events(clock, lastEvent, ps[..|ps| - 1]);
      var pkg := ps[|ps| - 1];
      if Qualifies(clock, lastEvent, pkg) then prev + PackageEvents(clock, pkg, TrackingEvent(pkg.tag).value, |prev|)
      else prev
  }

  /** The tracking ids of the qualifying entries, in order. */
  function QualifiedIds(clock: Clock, lastEvent: Option<int>, ps: seq<Entry>): seq<string>
    decreases |ps|
  {
    if |ps| == 0 then []
    else
      var pkg := ps[|ps| - 1];
      QualifiedIds(clock, lastEvent, ps[..|ps| - 1]) + (if Qualifies(clock, lastEvent, pkg) then pkg.trackingIds else [])
  }

  // ---------------------------------------------------------------------------
  // Properties

  /** Announced are: every out-for-delivery or delivered update, and the first in-transit one. */
  lemma QualifiesIff(clock: Clock, lastEvent: Option<int>, pkg: Entry)
    ensures Qualifies(clock, lastEvent, pkg) <==>
      pkg.lastUpdated > Threshold(clock, lastEvent)
      && (pkg.tag == "OutForDelivery" || pkg.tag == "Delivered" || (pkg.tag == "InTransit" && pkg.tagEventNumber == 1))
  {
  }

  /** One event per tracking id of every qualifying entry, in order. */
  lemma {:induction false} EventsFollowIds(clock: Clock, lastEvent: Option<int>, ps: seq<Entry>)
    ensures var events, ids := Events(clock, lastEvent, ps), QualifiedIds(clock, lastEvent, ps);
      |events| == |ids| && forall k :: 0 <= k < |events| ==> events[k].referenceId == ids[k]
    decreases |ps|
  {
    if |ps| > 0 {
      var init := ps[..|ps| - 1];
      EventsFollowIds(clock, lastEvent, init);
    }
  }

  /** The k-th event starts after k ends of day and expires after one more. */
  predicate OnTimeline(clock: Clock, e: Event, k: nat) {
    e.timestamp == Iterate(clock.endOfDay, clock.now, k) && e.expiryTime == Iterate(clock.endOfDay, clock.now, k + 1)
  }

  /** Every event is on the timeline at its position. */
  lemma {:induction false} EventsTimeline(clock: Clock, lastEvent: Option<int>, ps: seq<Entry>)
    ensures forall k :: 0 <= k < |Events(clock, lastEvent, ps)| ==> OnTimeline(clock, Events(clock, lastEvent, ps)[k], k)
    decreases |ps|
  {
    if |ps| > 0 {
      var init := ps[..|ps| - 1];
      EventsTimeline(clock, lastEvent, init);
      var prev := Events(clock, lastEvent, init);
      assert forall k :: 0 <= k < |prev| ==> OnTimeline(clock, prev[k], k);
      var pkg := ps[|ps| - 1];
      if Qualifies(clock, lastEvent, pkg) {
        var added := PackageEvents(clock, pkg, TrackingEvent(pkg.tag).value, |prev|);
        forall j | 0 <= j < |added|
          ensures OnTimeline(clock, added[j], |prev| + j)
        {
          assert added[j] == MakeEvent(clock, pkg, TrackingEvent(pkg.tag).value, |prev| + j, j);
        }
        assert forall k :: |prev| <= k < |prev| + |added| ==> (prev + added)[k] == added[k - |prev|];
      }
    }
  }

  /** Each event starts when the previous one expires. */
  lemma EventsChained(clock: Clock, lastEvent: Option<int>, ps: seq<Entry>)
    ensures var events := Events(clock, lastEvent, ps);
      forall k :: 0 <= k < |events| - 1 ==> events[k + 1].timestamp == events[k].expiryTime
  {
    EventsTimeline(clock, lastEvent, ps);
    var events := Events(clock, lastEvent, ps);
    forall k | 0 <= k < |events| - 1
      ensures events[k + 1].timestamp == events[k].expiryTime
    {
      assert OnTimeline(clock, events[k], k);
      assert OnTimeline(clock, events[k + 1], k + 1);
    }
  }

  /** With a real end of day, only the first event starts now: all others start, and all expire, at today's end. */
  lemma EventsEndToday(clock: Clock, lastEvent: Option<int>, ps: seq<Entry>)
    requires EndOfDayIdempotent(clock)
    ensures var events := Events(clock, lastEvent, ps);
      (|events| > 0 ==> events[0].timestamp == clock.now)
      && (forall k :: 1 <= k < |events| ==> events[k].timestamp == clock.endOfDay(clock.now))
      && (forall k :: 0 <= k < |events| ==> events[k].expiryTime == clock.endOfDay(clock.now))
  {
    EventsTimeline(clock, lastEvent, ps);
    IterateIdempotentAll(clock.endOfDay, clock.now);
    var events := Events(clock, lastEvent, ps);
    forall k | 0 <= k < |events|
      ensures k >= 1 ==> events[k].timestamp == clock.endOfDay(clock.now)
      ensures events[k].expiryTime == clock.endOfDay(clock.now)
    {
      assert OnTimeline(clock, events[k], k);
    }
  }

  /** An event's status is one of the three, with the delivery date only when delivered and the arrival only when shipped. */
  predicate Announced(e: Event) {
    (e.status == Shipped || e.status == OutForDelivery || e.status == Delivered)
    && (e.deliveredOn.Some? ==> e.status == Delivered)
    && (e.expectedArrival.Some? ==> e.status == Shipped)
  }

  /** Every event is announced as above. */
  lemma {:induction false} EventStatuses(clock: Clock, lastEvent: Option<int>, ps: seq<Entry>)
    ensures forall k :: 0 <= k < |Events(clock, lastEvent, ps)| ==> Announced(Events(clock, lastEvent, ps)[k])
    decreases |ps|
  {
    if |ps| > 0 {
      var init := ps[..|ps| - 1];
      EventStatuses(clock, lastEvent, init);
      assert forall k :: 0 <= k < |Events(clock, lastEvent, init)| ==> Announced(Events(clock, lastEvent, init)[k]);
      var pkg := ps[|ps| - 1];
      if Qualifies(clock, lastEvent, pkg) {
        var prev := Events(clock, lastEvent, init);
        var added := PackageEvents(clock, pkg, TrackingEvent(pkg.tag).value, |prev|);
        PackageEventAt(clock, pkg, TrackingEvent(pkg.tag).value, |prev|);
        assert forall j :: 0 <= j < |added| ==> Announced(added[j]);
        assert forall k :: |prev| <= k < |prev| + |added| ==> (prev + added)[k] == added[k - |prev|];
      }
    }
  }

  /** Nothing updated after the last event: no event. */
  lemma {:induction false} NoUpdateNoEvent(clock: Clock, lastEvent: Option<int>, ps: seq<Entry>)
    requires forall i :: 0 <= i < |ps| ==> ps[i].lastUpdated <= Threshold(clock, lastEvent)
    ensures Events(clock, lastEvent, ps) == []
    decreases |ps|
  {
    if |ps| > 0 {
      NoUpdateNoEvent(clock, lastEvent, ps[..|ps| - 1]);
    }
  }

  /** A shipped entry's expected arrival is its date's end of day for every one of its ids. */
  lemma ShippedArrival(clock: Clock, pkg: Entry, k: nat)
    requires EndOfDayIdempotent(clock)
    requires pkg.date.Some?
    ensures var events := PackageEvents(clock, pkg, EventKind(Shipped, false), k);
      forall j :: 0 <= j < |events| ==> events[j].expectedArrival == Some(clock.endOfDay(pkg.date.value))
  {
    IterateIdempotentAll(clock.endOfDay, pkg.date.value);
    PackageEventAt(clock, pkg, EventKind(Shipped, false), k);
  }

  // ---------------------------------------------------------------------------
  // The loop

  /**
   * The pushes for one qualifying entry: the shared moment and the entry's
   * date are moved to their end of day once per tracking id.
   */
  method PushPackageEvents(clock: Clock, pkg: Entry, kind: EventKind, events: seq<Event>, now: int)
    returns (pushed: seq<Event>, moved: int)
    requires now == Iterate(clock.endOfDay, clock.now, |events|)
    ensures pushed == events + PackageEvents(clock, pkg, kind, |events|)
    ensures moved == Iterate(clock.endOfDay, clock.now, |pushed|)
  {
    pushed, moved := events, now;
    var date := pkg.date;
    var j := 0;
    PackageEventAt(clock, pkg, kind, |events|);
    while j < |pkg.trackingIds|
      invariant 0 <= j <= |pkg.trackingIds|
      invariant pushed == events + PackageEvents(clock, pkg, kind, |events|)[..j]
      invariant moved == Iterate(clock.endOfDay, clock.now, |pushed|)
      invariant date == if pkg.date.Some? && kind.status == Shipped then Some(Iterate(clock.endOfDay, pkg.date.value, j)) else pkg.date
    {
      var timestamp := moved;
      moved := clock.endOfDay(moved);
      var deliveredOn := if date.Some? && kind.status == Delivered then date else None;
      var expectedArrival := None;
      if date.Some? && kind.status == Shipped {
        date := Some(clock.endOfDay(date.value));
        expectedArrival := date;
      }
      var event := Event(timestamp, pkg.trackingIds[j], moved, kind.status, pkg.lastUpdated, deliveredOn, expectedArrival, pkg.title);
      assert event == PackageEvents(clock, pkg, kind, |events|)[j];
      assert PackageEvents(clock, pkg, kind, |events|)[..j + 1] == PackageEvents(clock, pkg, kind, |events|)[..j] + [event];
      pushed := pushed + [event];
      j := j + 1;
    }
    assert PackageEvents(clock, pkg, kind, |events|)[..j] == PackageEvents(clock, pkg, kind, |events|);
  }

  /** `getTrackingsProactiveEvents(trackings, lastEvent)`. */
  method GetTrackingsProactiveEvents(clock: Clock, trackings: seq<Entry>, lastEvent: Option<int>) returns (events: seq<Event>)
    ensures events == Events(clock, lastEvent, trackings)
  {
    events := [];
    var now := clock.now;
    var i := 0;
    while i < |trackings|
      invariant 0 <= i <= |trackings|
      invariant events == Events(clock, lastEvent, trackings[..i])
      invariant now == Iterate(clock.endOfDay, clock.now, |events|)
    {
      var pkg := trackings[i];
      assert trackings[..i + 1][..i] == trackings[..i];
      if Qualifies(clock, lastEvent, pkg) {
        events, now := PushPackageEvents(clock, pkg, TrackingEvent(pkg.tag).value, events, now);
      }
      i := i + 1;
    }
    assert trackings[..i] == trackings;
  }
}
