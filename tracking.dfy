/**
 * Pieces both variants of the AfterShip client share: status-phrase tables,
 * the AfterShip checkpoint record and its delivery location, and the
 * decision table that names a geocoded address.
 */
module Tracking {
  import opened Wrappers
  import opened Strings
  import opened Geo

  /** A status table: tag keys and their spoken phrases, in declaration order. */
  type StatusTable = seq<(string, string)>

  /** `key in table`, on the table's own keys. */
  predicate HasKey(table: StatusTable, key: string) {
    exists i :: 0 <= i < |table| && table[i].0 == key
  }

  /** `table[key]`, or `None` for `undefined`. */
  function Lookup(table: StatusTable, key: string): (r: Option<string>)
    ensures r.None? <==> !HasKey(table, key)
    ensures r.Some? ==> exists i :: 0 <= i < |table| && table[i] == (key, r.value)
  {
    if |table| == 0 then None
    else if table[0].0 == key then Some(table[0].1)
    else
      var r := Lookup(table[1..], key);
      assert r.Some? ==> exists i :: 0 <= i < |table[1..]| && table[1..][i] == (key, r.value);
      assert HasKey(table[1..], key) ==> HasKey(table, key) by {
        if HasKey(table[1..], key) {
          var i :| 0 <= i < |table[1..]| && table[1..][i].0 == key;
          assert table[i + 1].0 == key;
        }
      }
      assert HasKey(table, key) && table[0].0 != key ==> HasKey(table[1..], key) by {
        if HasKey(table, key) && table[0].0 != key {
          var i :| 0 <= i < |table| && table[i].0 == key;
          assert table[1..][i - 1].0 == key;
        }
      }
      r
  }

  /** The text a status phrase gives inside a template or concatenation: `undefined` for a missing key. */
  function Phrase(table: StatusTable, key: string): (r: string)
    ensures HasKey(table, key) ==> Some(r) == Lookup(table, key)
    ensures !HasKey(table, key) ==> r == "undefined"
  {
    match Lookup(table, key)
    case Some(p) => p
    case None => "undefined"
  }

  // ---------------------------------------------------------------------------
  // Checkpoints

  /** One AfterShip checkpoint; an optional field is `None` when missing or empty. */
  datatype Checkpoint = Checkpoint(
    tag: string,
    createdAt: string,
    checkpointTime: Option<int>,
    city: Option<string>,
    state: Option<string>,
    countryName: Option<string>,
    zip: Option<string>)

  /** The truthy values among `xs`, in order. */
  function Present(xs: seq<Option<string>>): (r: seq<string>)
    ensures |r| <= |xs|
    ensures forall i :: 0 <= i < |r| ==> r[i] != ""
    ensures (forall i :: 0 <= i < |xs| ==> !Truthy(xs[i])) <==> r == []
  {
    if |xs| == 0 then []
    else (if Truthy(xs[0]) then [xs[0].value] else []) + Present(xs[1..])
  }

  /** A single field keeps its value exactly when it is truthy. */
  lemma PresentOne(x: Option<string>)
    ensures Present([x]) == (if Truthy(x) then [x.value] else [])
  {
    assert [x][1..] == [];
  }

  /** Filtering distributes over concatenation, so order and repetitions are kept. */
  lemma {:induction false} PresentAppend(a: seq<Option<string>>, b: seq<Option<string>>)
    ensures Present(a + b) == Present(a) + Present(b)
    decreases |a|
  {
    if |a| > 0 {
      assert (a + b)[1..] == a[1..] + b;
      PresentAppend(a[1..], b);
    } else {
      assert a + b == b;
    }
  }

  /** The truthy fields among city, state, country_name and zip, in that order. */
  function LocationParts(cp: Checkpoint): seq<string> {
    Present([cp.city, cp.state, cp.countryName, cp.zip])
  }

  /** `delivery_location`: the parts joined by ", ", or unset when there are none. */
  function DeliveryLocation(cp: Checkpoint): Option<string> {
    var parts := LocationParts(cp);
    if |parts| > 0 then Some(Join(", ", parts)) else None
  }

  /** A location is set exactly when one of the four fields is truthy, and it is never empty. */
  lemma DeliveryLocationIff(cp: Checkpoint)
    ensures DeliveryLocation(cp).Some? <==>
      Truthy(cp.city) || Truthy(cp.state) || Truthy(cp.countryName) || Truthy(cp.zip)
    ensures DeliveryLocation(cp).Some? ==> DeliveryLocation(cp).value != ""
    ensures Truthy(cp.city) ==> DeliveryLocation(cp) == Some(Join(", ", [cp.city.value] + Present([cp.state, cp.countryName, cp.zip])))
  {
    var xs := [cp.city, cp.state, cp.countryName, cp.zip];
    assert xs[1..] == [cp.state, cp.countryName, cp.zip];
    assert xs[1..][1..] == [cp.countryName, cp.zip];
    assert xs[1..][1..][1..] == [cp.zip];
    var parts := LocationParts(cp);
    assert (forall i :: 0 <= i < |xs| ==> !Truthy(xs[i])) <==>
      !(Truthy(xs[0]) || Truthy(xs[1]) || Truthy(xs[2]) || Truthy(xs[3]));
    if |parts| > 0 {
      assert parts[0] != "";
      assert |Join(", ", parts)| > 0 by {
        if |parts| > 1 {
          assert Join(", ", parts) == parts[0] + ", " + Join(", ", parts[1..]);
        }
      }
    }
  }

  // ---------------------------------------------------------------------------
  // Addresses

  /** Every field the geocoded address has, other than lat and lng, equals the device's. */
  predicate SameAsDevice(address: GeoLocation, device: GeoLocation) {
    (address.zipcode.Some? ==> address.zipcode == device.zipcode)
    && (address.city.Some? ==> address.city == device.city)
    && (address.state.Some? ==> address.state == device.state)
    && (address.country.Some? ==> address.country == device.country)
  }

  /** The address phrase of a geocoded location. */
  function ClassifyAddress(address: GeoLocation, device: GeoLocation, defaultCountry: string): string {
    if SameAsDevice(address, device) then "here"
    else if !Truthy(address.country) || address.country.value == defaultCountry then
      (if Truthy(address.city) then
        (if Truthy(address.state) then address.city.value + ", " + address.state.value else address.city.value)
      else "")
    else if Truthy(address.city) then address.city.value + ", " + address.country.value
    else address.country.value
  }

  /** The empty geocode object `{}` has no field to differ, so it is "here". */
  lemma EmptyAddressIsHere(device: GeoLocation, defaultCountry: string)
    ensures ClassifyAddress(Empty, device, defaultCountry) == "here"
  {
  }

  /** The phrase is empty exactly for an address away from the device, in the default country, without a city. */
  lemma AddressEmptyIff(address: GeoLocation, device: GeoLocation, defaultCountry: string)
    ensures ClassifyAddress(address, device, defaultCountry) == "" <==>
      !SameAsDevice(address, device)
      && (!Truthy(address.country) || address.country.value == defaultCountry)
      && !Truthy(address.city)
  {
  }

  /** Away from the device and outside the default country, the phrase ends with the country. */
  lemma ForeignNamesCountry(address: GeoLocation, device: GeoLocation, defaultCountry: string)
    requires !SameAsDevice(address, device)
    requires Truthy(address.country) && address.country.value != defaultCountry
    ensures var r := ClassifyAddress(address, device, defaultCountry);
      |address.country.value| <= |r| && r[|r| - |address.country.value|..] == address.country.value
  {
  }

  /** In the default country, a city and a state give "city, state". */
  lemma DomesticCityState(address: GeoLocation, device: GeoLocation, defaultCountry: string)
    requires !SameAsDevice(address, device)
    requires !Truthy(address.country) || address.country.value == defaultCountry
    requires Truthy(address.city) && Truthy(address.state)
    ensures ClassifyAddress(address, device, defaultCountry) == address.city.value + ", " + address.state.value
  {
  }
}
