/**
 * The Google Maps geocode response and the location record both
 * `getGeoLocation` variants build from it.
 */
module Geo {
  import opened Wrappers

  /** One entry of `address_components`. */
  datatype Component = Component(types: seq<string>, longName: string)

  /** One geocode result: its address components and `geometry.location`. */
  datatype GeoResult = GeoResult(components: seq<Component>, lat: real, lng: real)

  /** The response body; `results` is `None` when it is not an array. */
  datatype GeoData = GeoData(results: Option<seq<GeoResult>>)

  /** The geocode request: the body it resolved with, or the error it rejected with. */
  datatype Fetch = Fetched(data: GeoData) | FetchFailed(error: string)

  /** The location object; a field that was never assigned is `None`. */
  datatype GeoLocation = GeoLocation(
    zipcode: Option<string>,
    city: Option<string>,
    state: Option<string>,
    country: Option<string>,
    lat: Option<real>,
    lng: Option<real>)

  /** The `{}` the extraction starts from. */
  const Empty := GeoLocation(None, None, None, None, None, None)

  /** How `getGeoLocation` settles: a location, `undefined`, or a thrown error. */
  datatype Outcome = Returned(location: GeoLocation) | ReturnedUndefined | Thrown(error: string)

  /** The branch of the component `if`/`else if` chain a component takes. */
  datatype Kind = PostalCode | Locality | Sublocality | AdminArea | Country | Other

  /** The first type of the chain the component lists; earlier branches win. */
  function KindOf(types: seq<string>): Kind {
    if "postal_code" in types then PostalCode
    else if "locality" in types then Locality
    else if "sublocality" in types then Sublocality
    else if "administrative_area_level_1" in types then AdminArea
    else if "country" in types then Country
    else Other
  }

  /** The field of the location record a branch writes (both city branches write `city`). */
  function Field(loc: GeoLocation, k: Kind): Option<string> {
    match k
    case PostalCode => loc.zipcode
    case Locality | Sublocality => loc.city
    case AdminArea => loc.state
    case Country => loc.country
    case Other => None
  }

  /** `Array.isArray(results) && results.length > 0`. */
  predicate HasResults(data: GeoData) {
    data.results.Some? && |data.results.value| > 0
  }

  /** The name of the last component of kind `k`, if there is one. */
  function LastOfKind(comps: seq<Component>, k: Kind): (r: Option<string>)
    ensures r.None? <==> forall j :: 0 <= j < |comps| ==> KindOf(comps[j].types) != k
  {
    if |comps| == 0 then None
    else if KindOf(comps[|comps| - 1].types) == k then Some(comps[|comps| - 1].longName)
    else LastOfKind(comps[..|comps| - 1], k)
  }
}
