/**
 * The static coordinate table: built once from geocoded records, queried by location id,
 * and used to fill in coordinates that a location lacks.
 */
module CoordinatesMapping {
  import Wrappers
  import Strs
  import Seqs

  /** A record of the geocoded data file; a coordinate is `None` for `null`. */
  datatype GeocodedRecord = GeocodedRecord(
    locationId: string, geocoded: bool, latitude: Wrappers.Option<real>, longitude: Wrappers.Option<real>)

  datatype Coords = Coords(latitude: real, longitude: real)

  /** The table: location id to coordinates (a JavaScript object used as a dictionary). */
  type CoordinatesMap = map<string, Coords>

  /** `location.geocoded && location.latitude && location.longitude`: a coordinate of 0 is falsy. */
  predicate Usable(r: GeocodedRecord) {
    r.geocoded && Wrappers.NumTruthy(r.latitude) && Wrappers.NumTruthy(r.longitude)
  }

  function CoordsOf(r: GeocodedRecord): Coords
    requires Usable(r)
  {
    Coords(r.latitude.value, r.longitude.value)
  }

  /** The table after the `reduce` has seen `data`: each usable record sets its id, later ones over earlier ones. */
  function TableOf(data: seq<GeocodedRecord>): CoordinatesMap {
    if data == [] then map[]
    else
      var m := TableOf(data[..|data| - 1]);
      var r := data[|data| - 1];
      if Usable(r) then m[r.locationId := CoordsOf(r)] else m
  }

  /** The `reduce` that builds `coordinatesMap`, writing into its accumulator. */
  method BuildCoordinatesMap(data: seq<GeocodedRecord>) returns (acc: CoordinatesMap)
    ensures acc == TableOf(data)
  {
    acc := map[];
    for i := 0 to |data|
      invariant acc == TableOf(data[..i])
    {
      var location := data[i];
      assert data[..i + 1][..i] == data[..i];
      if location.geocoded && Wrappers.NumTruthy(location.latitude) && Wrappers.NumTruthy(location.longitude) {
        acc := acc[location.locationId := Coords(location.latitude.value, location.longitude.value)];
      }
    }
    assert data[..|data|] == data;
  }

  /** The argument of `getLocationCoordinates`: a string or a number (integers only here). */
  datatype LocationKey = StringId(s: string) | NumberId(n: int)

  /** `String(locationId)`. */
  function KeyString(id: LocationKey): string {
    match id
    case StringId(s) => s
    case NumberId(n) => Strs.IntToString(n)
  }

  /** `getLocationCoordinates`: the coordinates mapped to the id's string, or `null`. */
  function GetLocationCoordinates(table: CoordinatesMap, id: LocationKey): (r: Wrappers.Option<Coords>)
    ensures r.Some? <==> KeyString(id) in table
    ensures r.Some? ==> r.value == table[KeyString(id)]
  {
    if KeyString(id) in table then Wrappers.Some(table[KeyString(id)]) else Wrappers.None
  }

  /**
   * The coordinates a location ends up with: when either is missing and the table knows the
   * id, both are replaced by the table's; otherwise both are kept.
   */
  function Filled(table: CoordinatesMap, id: LocationKey, latitude: Wrappers.Option<real>,
                  longitude: Wrappers.Option<real>): (r: (Wrappers.Option<real>, Wrappers.Option<real>))
    ensures (latitude.None? || longitude.None?) && KeyString(id) in table ==>
      r == (Wrappers.Some(table[KeyString(id)].latitude), Wrappers.Some(table[KeyString(id)].longitude))
    ensures !((latitude.None? || longitude.None?) && KeyString(id) in table) ==> r == (latitude, longitude)
  {
    if latitude.None? || longitude.None? then
      match GetLocationCoordinates(table, id)
      case Some(c) => (Wrappers.Some(c.latitude), Wrappers.Some(c.longitude))
      case None => (latitude, longitude)
    else (latitude, longitude)
  }

  /** A location object that `enhanceLocationWithCoordinates` updates in place. */
  class Place {
    const id: LocationKey
    var latitude: Wrappers.Option<real>
    var longitude: Wrappers.Option<real>

    constructor(id: LocationKey, latitude: Wrappers.Option<real>, longitude: Wrappers.Option<real>)
      ensures this.id == id && this.latitude == latitude && this.longitude == longitude
    {
      this.id := id;
      this.latitude := latitude;
      this.longitude := longitude;
    }
  }

  /** `enhanceLocationWithCoordinates`: writes the filled coordinates into `location` and returns it. */
  method EnhanceLocationWithCoordinates(table: CoordinatesMap, location: Place) returns (r: Place)
    modifies location
    ensures r == location
    ensures (location.latitude, location.longitude) == Filled(table, location.id, old(location.latitude), old(location.longitude))
  {
    if location.latitude.None? || location.longitude.None? {
      var coords := GetLocationCoordinates(table, location.id);
      if coords.Some? {
        location.latitude := Wrappers.Some(coords.value.latitude);
        location.longitude := Wrappers.Some(coords.value.longitude);
      }
    }
    r := location;
  }

  /** A location as a value: its id, its coordinates and whatever other fields it has. */
  datatype Located<T> = Located(id: LocationKey, latitude: Wrappers.Option<real>, longitude: Wrappers.Option<real>, rest: T)

  /** `{ ...location, ...coords }` or `{ ...location }`: a new object with the filled coordinates. */
  function Enhanced<T>(table: CoordinatesMap, location: Located<T>): (r: Located<T>)
    ensures r.id == location.id && r.rest == location.rest
    ensures (r.latitude, r.longitude) == Filled(table, location.id, location.latitude, location.longitude)
  {
    var c := Filled(table, location.id, location.latitude, location.longitude);
    location.(latitude := c.0, longitude := c.1)
  }

  /** `enhanceLocationsWithCoordinates`: a new array, one enhanced copy per location, in order. */
  function EnhanceLocationsWithCoordinates<T>(table: CoordinatesMap, locations: seq<Located<T>>): (r: seq<Located<T>>)
    ensures |r| == |locations|
    ensures forall i :: 0 <= i < |r| ==> r[i] == Enhanced(table, locations[i])
  {
    Seqs.Map((l: Located<T>) => Enhanced(table, l), locations)
  }

  /** The result of `getCoordinatesMappingStats`; the ids are a set, their order is not modelled. */
  datatype MappingStats = MappingStats(totalLocations: nat, locationIds: set<string>)

  function GetCoordinatesMappingStats(table: CoordinatesMap): (r: MappingStats)
    ensures r.locationIds == table.Keys && r.totalLocations == |table.Keys|
  {
    MappingStats(|table.Keys|, table.Keys)
  }

  /** The ids of the usable records. */
  function UsableIds(data: seq<GeocodedRecord>): set<string> {
    set i | 0 <= i < |data| && Usable(data[i]) :: data[i].locationId
  }

  // ---------------------------------------------------------------------------
  // Facts about the table

  /** An id is in the table exactly when some usable record has it. */
  lemma {:induction false} TableDomain(data: seq<GeocodedRecord>)
    ensures TableOf(data).Keys == UsableIds(data)
  {
    if data != [] {
      var init := data[..|data| - 1];
      TableDomain(init);
      assert forall i :: 0 <= i < |init| ==> init[i] == data[i];
      if Usable(data[|data| - 1]) {
        assert UsableIds(data) == UsableIds(init) + {data[|data| - 1].locationId};
      } else {
        assert UsableIds(data) == UsableIds(init);
      }
    }
  }

  /** The last usable record with an id is the one whose coordinates the table holds. */
  lemma {:induction false} LastRecordWins(data: seq<GeocodedRecord>, i: nat)
    requires i < |data| && Usable(data[i])
    requires forall j :: i < j < |data| && Usable(data[j]) ==> data[j].locationId != data[i].locationId
    ensures data[i].locationId in TableOf(data) && TableOf(data)[data[i].locationId] == CoordsOf(data[i])
  {
    if i < |data| - 1 {
      var init := data[..|data| - 1];
      assert forall j :: i < j < |init| ==> init[j] == data[j];
      LastRecordWins(init, i);
    }
  }

  /** A record with a zero coordinate never enters the table, since 0 is falsy. */
  lemma ZeroCoordinateIgnored(data: seq<GeocodedRecord>, r: GeocodedRecord)
    requires r.latitude == Wrappers.Some(0.0) || r.longitude == Wrappers.Some(0.0)
    ensures TableOf(data + [r]) == TableOf(data)
  {
    assert (data + [r])[..|data|] == data;
  }

  /** `totalLocations` is the number of distinct ids among the usable records. */
  lemma StatsCountDistinctIds(data: seq<GeocodedRecord>)
    ensures GetCoordinatesMappingStats(TableOf(data)).totalLocations == |UsableIds(data)|
  {
    TableDomain(data);
  }

  // ---------------------------------------------------------------------------
  // Facts about enhancing

  /** Enhancing twice is enhancing once: once filled, the coordinates are present. */
  lemma EnhancedIdempotent<T>(table: CoordinatesMap, location: Located<T>)
    ensures Enhanced(table, Enhanced(table, location)) == Enhanced(table, location)
  {
  }

  /** A location with both coordinates is left as it is, whatever the table says. */
  lemma CompleteLocationUnchanged<T>(table: CoordinatesMap, location: Located<T>)
    requires location.latitude.Some? && location.longitude.Some?
    ensures Enhanced(table, location) == location
  {
  }
}
