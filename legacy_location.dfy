/**
 * The extraction and error policy of `getGeoLocation` in
 * lambda/custom/location.js. The HTTP request is the `Fetch` given in.
 */
module LegacyLocation {
  import opened Wrappers
  import opened Strings
  import opened Geo

  /**
   * The body of the `forEach` callback: the first type found by `indexOf`
   * decides which one field is written; a sublocality keeps a truthy city.
   */
  function Apply(loc: GeoLocation, c: Component): GeoLocation {
    if IndexOf(c.types, "postal_code") > -1 then loc.(zipcode := Some(c.longName))
    else if IndexOf(c.types, "locality") > -1 then loc.(city := Some(c.longName))
    else if IndexOf(c.types, "sublocality") > -1 then loc.(city := if Truthy(loc.city) then loc.city else Some(c.longName))
    else if IndexOf(c.types, "administrative_area_level_1") > -1 then loc.(state := Some(c.longName))
    else if IndexOf(c.types, "country") > -1 then loc.(country := Some(c.longName))
    else loc
  }

  /** The record after the callback has run on each of `comps`, in order. */
  function ApplyAll(loc: GeoLocation, comps: seq<Component>): GeoLocation
    decreases |comps|
  {
    if |comps| == 0 then loc else Apply(ApplyAll(loc, comps[..|comps| - 1]), comps[|comps| - 1])
  }

  /** The object built from a geocode body: `{}` without results, else the first result's fields. */
  function Expected(data: GeoData): GeoLocation {
    if HasResults(data) then
      var first := data.results.value[0];
      ApplyAll(Empty, first.components).(lat := Some(first.lat), lng := Some(first.lng))
    else Empty
  }

  /** The `forEach` over the first result's components, then the coordinates. */
  method Extract(data: GeoData) returns (loc: GeoLocation)
    ensures loc == Expected(data)
  {
    loc := Empty;
    if data.results.Some? && |data.results.value| > 0 {
      var first := data.results.value[0];
      var comps := first.components;
      var i := 0;
      while i < |comps|
        invariant 0 <= i <= |comps|
        invariant loc == ApplyAll(Empty, comps[..i])
      {
        assert comps[..i + 1][..i] == comps[..i];
        loc := Apply(loc, comps[i]);
        i := i + 1;
      }
      assert comps[..i] == comps;
      loc := loc.(lat := Some(first.lat));
      loc := loc.(lng := Some(first.lng));
    }
  }

  /** `getGeoLocation(address, ignoreError)` once the request has settled. */
  method GetGeoLocation(fetch: Fetch, ignoreError: bool) returns (r: Outcome)
    ensures fetch.Fetched? ==> r == Returned(Expected(fetch.data))
    ensures fetch.FetchFailed? ==> r == if ignoreError then ReturnedUndefined else Thrown(fetch.error)
    ensures r.ReturnedUndefined? <==> fetch.FetchFailed? && ignoreError
  {
    match fetch
    case Fetched(data) =>
      var loc := Extract(data);
      r := Returned(loc);
    case FetchFailed(error) =>
      if !ignoreError {
        r := Thrown(error);
      } else {
        r := ReturnedUndefined;
      }
  }

  // ---------------------------------------------------------------------------
  // Properties

  /** A missing or empty `results` array gives `{}`, without coordinates. */
  lemma NoResultsEmpty(data: GeoData)
    requires data.results.None? || data.results.value == []
    ensures Expected(data) == Empty
    ensures Expected(data).lat.None? && Expected(data).lng.None?
  {
  }

  /** The coordinates come from the first result only. */
  lemma CoordinatesFromFirst(data: GeoData)
    requires HasResults(data)
    ensures Expected(data).lat == Some(data.results.value[0].lat)
    ensures Expected(data).lng == Some(data.results.value[0].lng)
    ensures Expected(data) == Expected(GeoData(Some([data.results.value[0]])))
  {
  }

  /**
   * A component writes at most one field, the one its branch names; the
   * other fields and the coordinates are left as they were.
   */
  lemma ApplyWritesOneField(loc: GeoLocation, c: Component)
    ensures var k := KindOf(c.types); var out := Apply(loc, c);
      out.lat == loc.lat && out.lng == loc.lng
      && (k != PostalCode ==> out.zipcode == loc.zipcode)
      && (k != Locality && k != Sublocality ==> out.city == loc.city)
      && (k != AdminArea ==> out.state == loc.state)
      && (k != Country ==> out.country == loc.country)
      && (k != Other && k != Sublocality ==> Field(out, k) == Some(c.longName))
  {
  }

  /** A locality always overwrites the city; a sublocality fills it only when it is falsy. */
  lemma CityPrecedence(loc: GeoLocation, c: Component)
    ensures KindOf(c.types) == Locality ==> Apply(loc, c).city == Some(c.longName)
    ensures KindOf(c.types) == Sublocality ==>
      Apply(loc, c).city == if Truthy(loc.city) then loc.city else Some(c.longName)
  {
  }

  /** Zipcode, state and country hold the name of the last component of their kind. */
  lemma {:induction false} LastNameWins(loc: GeoLocation, comps: seq<Component>, k: Kind)
    requires k == PostalCode || k == AdminArea || k == Country
    ensures Field(ApplyAll(loc, comps), k) == if LastOfKind(comps, k).Some? then LastOfKind(comps, k) else Field(loc, k)
    decreases |comps|
  {
    if |comps| > 0 {
      var init := comps[..|comps| - 1];
      LastNameWins(loc, init, k);
      ApplyWritesOneField(ApplyAll(loc, init), comps[|comps| - 1]);
    }
  }

  /** After the last locality with a non-empty name, no later component changes the city. */
  lemma {:induction false} LastLocalityWins(loc: GeoLocation, comps: seq<Component>, i: nat)
    requires i < |comps| && KindOf(comps[i].types) == Locality && comps[i].longName != ""
    requires forall j :: i < j < |comps| ==> KindOf(comps[j].types) != Locality
    ensures ApplyAll(loc, comps).city == Some(comps[i].longName)
    decreases |comps|
  {
    var init := comps[..|comps| - 1];
    var last := comps[|comps| - 1];
    CityPrecedence(ApplyAll(loc, init), last);
    if i < |comps| - 1 {
      LastLocalityWins(loc, init, i);
      ApplyWritesOneField(ApplyAll(loc, init), last);
    }
  }
}
