/**
 * The extraction and error policy of `getGeoLocation` in lambda/location.js.
 * Its sublocality branch reads `result.city`, but no `result` is declared
 * there, so reaching that branch throws a ReferenceError, which the same
 * `catch` as a failed request handles.
 */
module Location {
  import opened Wrappers
  import opened Geo
  import LegacyLocation

  /** The message of the ReferenceError the sublocality branch raises. */
  const ResultNotDefined := "ReferenceError: result is not defined"

  /** The `forEach` callback: the updated record, or `None` when it throws. */
  function Step(loc: GeoLocation, c: Component): Option<GeoLocation> {
    if "postal_code" in c.types then Some(loc.(zipcode := Some(c.longName)))
    else if "locality" in c.types then Some(loc.(city := Some(c.longName)))
    else if "sublocality" in c.types then None
    else if "administrative_area_level_1" in c.types then Some(loc.(state := Some(c.longName)))
    else if "country" in c.types then Some(loc.(country := Some(c.longName)))
    else Some(loc)
  }

  /** The callback run on each of `comps` in order; the first throw ends the loop. */
  function StepAll(loc: GeoLocation, comps: seq<Component>): Option<GeoLocation>
    decreases |comps|
  {
    if |comps| == 0 then Some(loc)
    else match StepAll(loc, comps[..|comps| - 1])
      case None => None
      case Some(l) => Step(l, comps[|comps| - 1])
  }

  /** The object built from a geocode body, or `None` for the ReferenceError. */
  function Expected(data: GeoData): Option<GeoLocation> {
    if HasResults(data) then
      var first := data.results.value[0];
      match StepAll(Empty, first.components)
      case None => None
      case Some(l) => Some(l.(lat := Some(first.lat), lng := Some(first.lng)))
    else Some(Empty)
  }

  /** The `forEach` over the first result's components, then the coordinates. */
  method Extract(data: GeoData) returns (r: Option<GeoLocation>)
    ensures r == Expected(data)
  {
    var loc := Empty;
    if data.results.Some? && |data.results.value| > 0 {
      var first := data.results.value[0];
      var comps := first.components;
      var i := 0;
      while i < |comps|
        invariant 0 <= i <= |comps|
        invariant StepAll(Empty, comps[..i]) == Some(loc)
      {
        assert comps[..i + 1][..i] == comps[..i];
        var next := Step(loc, comps[i]);
        if next.None? {
          StepAllStaysThrown(Empty, comps, i + 1);
          assert comps[..|comps|] == comps;
          return None;
        }
        loc := next.value;
        i := i + 1;
      }
      assert comps[..i] == comps;
      loc := loc.(lat := Some(first.lat));
      loc := loc.(lng := Some(first.lng));
    }
    r := Some(loc);
  }

  /** `getGeoLocation(address, ignoreError)` once the request has settled. */
  method GetGeoLocation(fetch: Fetch, ignoreError: bool) returns (r: Outcome)
    ensures fetch.Fetched? && Expected(fetch.data).Some? ==> r == Returned(Expected(fetch.data).value)
    ensures fetch.Fetched? && Expected(fetch.data).None? ==>
      r == if ignoreError then ReturnedUndefined else Thrown(ResultNotDefined)
    ensures fetch.FetchFailed? ==> r == if ignoreError then ReturnedUndefined else Thrown(fetch.error)
  {
    var error: string;
    match fetch {
      case Fetched(data) =>
        var loc := Extract(data);
        if loc.Some? {
          return Returned(loc.value);
        }
        error := ResultNotDefined;
      case FetchFailed(e) =>
        error := e;
    }
    if !ignoreError {
      r := Thrown(error);
    } else {
      r := ReturnedUndefined;
    }
  }

  /** The call as written at its call sites, with `ignoreError` left at its default `false`. */
  method GetGeoLocationDefault(fetch: Fetch) returns (r: Outcome)
    ensures !r.ReturnedUndefined?
    ensures fetch.Fetched? && Expected(fetch.data).Some? ==> r == Returned(Expected(fetch.data).value)
    ensures fetch.Fetched? && Expected(fetch.data).None? ==> r == Thrown(ResultNotDefined)
    ensures fetch.FetchFailed? ==> r == Thrown(fetch.error)
  {
    r := GetGeoLocation(fetch, false);
  }

  // ---------------------------------------------------------------------------
  // Properties

  /** Once a component has thrown, the rest of the loop is skipped. */
  lemma {:induction false} StepAllStaysThrown(loc: GeoLocation, comps: seq<Component>, n: nat)
    requires n <= |comps| && StepAll(loc, comps[..n]).None?
    ensures StepAll(loc, comps).None?
    decreases |comps| - n
  {
    if n < |comps| {
      assert comps[..n + 1][..n] == comps[..n];
      StepAllStaysThrown(loc, comps, n + 1);
    } else {
      assert comps[..n] == comps;
    }
  }

  /** The loop throws exactly when some component reaches the sublocality branch. */
  lemma {:induction false} SublocalityFault(loc: GeoLocation, comps: seq<Component>)
    ensures StepAll(loc, comps).None? <==> exists j :: 0 <= j < |comps| && KindOf(comps[j].types) == Sublocality
    decreases |comps|
  {
    if |comps| > 0 {
      var init := comps[..|comps| - 1];
      SublocalityFault(loc, init);
      if exists j :: 0 <= j < |init| && KindOf(init[j].types) == Sublocality {
        var j :| 0 <= j < |init| && KindOf(init[j].types) == Sublocality;
        assert comps[j] == init[j];
      }
      if exists j :: 0 <= j < |comps| && KindOf(comps[j].types) == Sublocality {
        var j :| 0 <= j < |comps| && KindOf(comps[j].types) == Sublocality;
        if j < |init| {
          assert init[j] == comps[j];
        }
      }
    }
  }

  /**
   * Without a sublocality component the loop computes what the
   * lambda/custom/location.js loop computes.
   */
  lemma {:induction false} AgreesWithLegacy(loc: GeoLocation, comps: seq<Component>)
    requires forall j :: 0 <= j < |comps| ==> KindOf(comps[j].types) != Sublocality
    ensures StepAll(loc, comps) == Some(LegacyLocation.ApplyAll(loc, comps))
    decreases |comps|
  {
    if |comps| > 0 {
      var init := comps[..|comps| - 1];
      assert forall j :: 0 <= j < |init| ==> init[j] == comps[j];
      AgreesWithLegacy(loc, init);
    }
  }

  /** A missing or empty `results` array gives `{}`. */
  lemma NoResultsEmpty(data: GeoData)
    requires data.results.None? || data.results.value == []
    ensures Expected(data) == Some(Empty)
  {
  }

  /**
   * With results and no sublocality, the record has the legacy field mapping
   * and the first result's coordinates.
   */
  lemma FieldMapping(data: GeoData)
    requires HasResults(data)
    requires var comps := data.results.value[0].components;
      forall j :: 0 <= j < |comps| ==> KindOf(comps[j].types) != Sublocality
    ensures Expected(data) == Some(LegacyLocation.Expected(data))
    ensures Expected(data).value.lat == Some(data.results.value[0].lat)
    ensures Expected(data).value.lng == Some(data.results.value[0].lng)
  {
    AgreesWithLegacy(Empty, data.results.value[0].components);
  }

  /** The first geocode result has a component that reaches the sublocality branch. */
  predicate FirstHasSublocality(data: GeoData) {
    HasResults(data)
    && exists j :: 0 <= j < |data.results.value[0].components|
         && KindOf(data.results.value[0].components[j].types) == Sublocality
  }

  /**
   * The extraction fails exactly on a sublocality component of the first
   * result; otherwise a non-empty response gives that result's coordinates.
   */
  lemma ExpectedNoneIff(data: GeoData)
    ensures Expected(data).None? <==> FirstHasSublocality(data)
    ensures Expected(data).Some? && HasResults(data) ==>
      Expected(data).value.lat == Some(data.results.value[0].lat)
      && Expected(data).value.lng == Some(data.results.value[0].lng)
  {
    if HasResults(data) {
      SublocalityFault(Empty, data.results.value[0].components);
    }
  }

  /** A sublocality component makes the call resolve to `undefined` or throw. */
  lemma SublocalityNeverReturns(data: GeoData, j: nat)
    requires HasResults(data)
    requires j < |data.results.value[0].components|
    requires KindOf(data.results.value[0].components[j].types) == Sublocality
    ensures Expected(data).None?
  {
    SublocalityFault(Empty, data.results.value[0].components);
  }
}
