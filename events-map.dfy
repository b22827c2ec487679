/**
 * The data side of the events map: which cities still need geocoding, where each event is
 * placed (venue coordinates, then the static table, then the city's stored coordinates,
 * then runtime-geocoded or cached city coordinates), and how placed events are grouped
 * into markers. Rendering, popups and the map library are not modelled.
 */
module EventsMap {
  import Wrappers
  import Seqs
  import Types
  import LocationUtils
  import CoordinatesMapping
  import GeocodingService

  /** `parseCityCoordinates`, which is defined outside this model: a partial parser. */
  type CityParser = Wrappers.Option<string> -> Wrappers.Option<GeocodingService.Coords>

  /** `event.location.city?.coordinates`. */
  function CityCoordinates(l: Types.Location): Wrappers.Option<string> {
    if l.city.Some? then l.city.value.coordinates else Wrappers.None
  }

  /** `latitude != null && longitude != null`. */
  predicate HasVenueCoordinates(l: Types.Location) {
    l.latitude.Some? && l.longitude.Some?
  }

  /** `getLocationCoordinates(event.location.id)`. */
  function StaticCoordinates(table: CoordinatesMapping.CoordinatesMap, l: Types.Location): Wrappers.Option<CoordinatesMapping.Coords> {
    CoordinatesMapping.GetLocationCoordinates(table, CoordinatesMapping.StringId(l.id))
  }

  /** `shouldTrackMissingLocation` on the location's fields. */
  predicate Tracked(l: Types.Location) {
    LocationUtils.ShouldTrack(l.name, l.address, Types.CityName(l))
  }

  // ---------------------------------------------------------------------------
  // Cities to geocode

  /** The city an event asks to have geocoded, if any. */
  function CityToQueue(e: Types.Event, table: CoordinatesMapping.CoordinatesMap, parseCity: CityParser,
                       cache: GeocodingService.GeocodeCache): (r: Wrappers.Option<string>)
    ensures r.Some? <==>
      e.location.Some? && !HasVenueCoordinates(e.location.value) &&
      StaticCoordinates(table, e.location.value).None? && parseCity(CityCoordinates(e.location.value)).None? &&
      Tracked(e.location.value) && Wrappers.Truthy(Types.CityName(e.location.value)) &&
      GeocodingService.GetCachedCityCoordinates(cache, Types.CityName(e.location.value)).None?
    ensures r.Some? ==> r == Types.CityName(e.location.value)
  {
    match e.location
    case None => Wrappers.None
    case Some(l) =>
      if HasVenueCoordinates(l) || StaticCoordinates(table, l).Some? || parseCity(CityCoordinates(l)).Some? ||
         !Tracked(l) || (Wrappers.Truthy(Types.CityName(l)) && GeocodingService.GetCachedCityCoordinates(cache, Types.CityName(l)).Some?)
      then Wrappers.None
      else if Wrappers.Truthy(Types.CityName(l)) then Types.CityName(l)
      else Wrappers.None
  }

  function Asker(table: CoordinatesMapping.CoordinatesMap, parseCity: CityParser, cache: GeocodingService.GeocodeCache)
    : Types.Event -> Wrappers.Option<string> {
    e => CityToQueue(e, table, parseCity, cache)
  }

  /** The city names the events ask for (`ask` is `Asker(..)`), one per asking event, in order. */
  function Requests(events: seq<Types.Event>, ask: Types.Event -> Wrappers.Option<string>): seq<string> {
    if events == [] then []
    else
      var rest := Requests(events[..|events| - 1], ask);
      match ask(events[|events| - 1])
      case None => rest
      case Some(n) => rest + [n]
  }

  /**
   * The loop that fills `citiesToGeocode`; the `Set` is its insertion-ordered contents, which
   * `Array.from` hands to the geocoder.
   */
  method CollectCitiesToGeocode(events: seq<Types.Event>, table: CoordinatesMapping.CoordinatesMap,
                                parseCity: CityParser, cache: GeocodingService.GeocodeCache)
    returns (citiesToGeocode: seq<string>)
    ensures citiesToGeocode == Seqs.Dedup(Requests(events, Asker(table, parseCity, cache)))
  {
    citiesToGeocode := [];
    for i := 0 to |events|
      invariant citiesToGeocode == Seqs.Dedup(Requests(events[..i], Asker(table, parseCity, cache)))
    {
      RequestsTake(events, i, Asker(table, parseCity, cache));
      var event := events[i];
      if event.location.None? {
        continue;
      }
      var location := event.location.value;
      var cityName := Types.CityName(location);
      if location.latitude.Some? && location.longitude.Some? {
        continue;
      }
      if StaticCoordinates(table, location).Some? {
        continue;
      }
      if parseCity(CityCoordinates(location)).Some? {
        continue;
      }
      if !LocationUtils.ShouldTrack(location.name, location.address, cityName) {
        continue;
      }
      if Wrappers.Truthy(cityName) && GeocodingService.GetCachedCityCoordinates(cache, cityName).Some? {
        continue;
      }
      if Wrappers.Truthy(cityName) {
        Seqs.DedupSnoc(Requests(events[..i], Asker(table, parseCity, cache)), cityName.value);
        if cityName.value !in citiesToGeocode {
          citiesToGeocode := citiesToGeocode + [cityName.value];
        }
      }
    }
    assert events[..|events|] == events;
  }

  /**
   * `geocodeMissingCities`: collect, then geocode when there is anything to geocode. The
   * result is the new `geocodedCities` state, or `None` when it is left as it was.
   */
  method GeocodeMissingCities(events: seq<Types.Event>, table: CoordinatesMapping.CoordinatesMap,
                              parseCity: CityParser, cache: GeocodingService.GeocodeCache,
                              api: string -> Wrappers.Option<GeocodingService.Coords>, clock: nat -> int)
    returns (geocodedCities: Wrappers.Option<map<string, GeocodingService.Coords>>)
    ensures var queued := Seqs.Dedup(Requests(events, Asker(table, parseCity, cache)));
      (geocodedCities.Some? <==> queued != []) &&
      (geocodedCities.Some? ==>
         geocodedCities.value == GeocodingService.ApiPass(
           GeocodingService.Progress(GeocodingService.CacheHits(cache.cities, queued), cache.cities),
           GeocodingService.ToGeocode(cache.cities, queued), api, clock).results)
  {
    var citiesToGeocode := CollectCitiesToGeocode(events, table, parseCity, cache);
    if |citiesToGeocode| > 0 {
      var results, saved, pauses := GeocodingService.GeocodeCities(citiesToGeocode, cache, api, clock);
      geocodedCities := Wrappers.Some(results);
    } else {
      geocodedCities := Wrappers.None;
    }
  }

  // ---------------------------------------------------------------------------
  // Placing events

  /** An event on the map; `approximate` marks city-level coordinates. */
  datatype Placed = Placed(event: Types.Event, approximate: bool)

  /** The event with its location's coordinates replaced. */
  function WithCoordinates(e: Types.Event, latitude: real, longitude: real): (r: Types.Event)
    requires e.location.Some?
    ensures r.location.Some? && r.location.value.latitude == Wrappers.Some(latitude) &&
            r.location.value.longitude == Wrappers.Some(longitude)
    ensures r == e.(location := r.location)
    ensures r.location.value == e.location.value.(latitude := r.location.value.latitude, longitude := r.location.value.longitude)
  {
    e.(location := Wrappers.Some(e.location.value.(latitude := Wrappers.Some(latitude), longitude := Wrappers.Some(longitude))))
  }

  /** `geocodedCities.get(cityName) || getCachedCityCoordinates(cityName)` for a named city. */
  function RuntimeCoordinates(l: Types.Location, geocodedCities: map<string, GeocodingService.Coords>,
                              cache: GeocodingService.GeocodeCache): (r: Wrappers.Option<GeocodingService.Coords>)
    ensures !Wrappers.Truthy(Types.CityName(l)) ==> r.None?
    ensures Wrappers.Truthy(Types.CityName(l)) ==> var name := Types.CityName(l).value;
      r == if name in geocodedCities then Wrappers.Some(geocodedCities[name]) else GeocodingService.Cached(cache.cities, name)
  {
    if !Wrappers.Truthy(Types.CityName(l)) then Wrappers.None
    else if Types.CityName(l).value in geocodedCities then Wrappers.Some(geocodedCities[Types.CityName(l).value])
    else GeocodingService.GetCachedCityCoordinates(cache, Types.CityName(l))
  }

  /** The `map` callback: where the event goes, or `None` when it is left off the map. */
  function Place(e: Types.Event, table: CoordinatesMapping.CoordinatesMap, parseCity: CityParser,
                 geocodedCities: map<string, GeocodingService.Coords>, cache: GeocodingService.GeocodeCache): (r: Wrappers.Option<Placed>)
    ensures r.Some? ==> (
      e.location.Some? && r.value.event.location.Some? &&
      r.value.event == e.(location := r.value.event.location) &&
      r.value.event.location.value == e.location.value.(latitude := r.value.event.location.value.latitude,
                                                        longitude := r.value.event.location.value.longitude) &&
      HasVenueCoordinates(r.value.event.location.value))
  {
    match e.location
    case None => Wrappers.None
    case Some(l) =>
      if HasVenueCoordinates(l) then Wrappers.Some(Placed(e, false))
      else match StaticCoordinates(table, l)
        case Some(c) => Wrappers.Some(Placed(WithCoordinates(e, c.latitude, c.longitude), false))
        case None =>
          match parseCity(CityCoordinates(l))
          case Some(c) => Wrappers.Some(Placed(WithCoordinates(e, c.latitude, c.longitude), true))
          case None =>
            match RuntimeCoordinates(l, geocodedCities, cache)
            case Some(c) => Wrappers.Some(Placed(WithCoordinates(e, c.latitude, c.longitude), true))
            case None => Wrappers.None
  }

  function Placer(table: CoordinatesMapping.CoordinatesMap, parseCity: CityParser,
                  geocodedCities: map<string, GeocodingService.Coords>, cache: GeocodingService.GeocodeCache)
    : Types.Event -> Wrappers.Option<Placed> {
    e => Place(e, table, parseCity, geocodedCities, cache)
  }

  /** The present values of `s`, in order: `.filter(event => event !== null)`. */
  function Somes<T>(s: seq<Wrappers.Option<T>>): (r: seq<T>)
    ensures |r| <= |s|
  {
    if s == [] then [] else (if s[0].Some? then [s[0].value] else []) + Somes(s[1..])
  }

  /** `eventsWithCoords`. */
  function EventsWithCoords(events: seq<Types.Event>, table: CoordinatesMapping.CoordinatesMap, parseCity: CityParser,
                            geocodedCities: map<string, GeocodingService.Coords>, cache: GeocodingService.GeocodeCache)
    : seq<Placed> {
    Somes(Seqs.Map(Placer(table, parseCity, geocodedCities, cache), events))
  }

  /** What the map reports to the missing-locations collector for an event it cannot place. */
  datatype Report = Report(locationId: string, locationName: Wrappers.Option<string>, address: Wrappers.Option<string>,
                           cityName: Wrappers.Option<string>)

  function ReportOf(e: Types.Event, table: CoordinatesMapping.CoordinatesMap, parseCity: CityParser,
                    geocodedCities: map<string, GeocodingService.Coords>, cache: GeocodingService.GeocodeCache)
    : (r: Wrappers.Option<Report>)
    ensures r.Some? <==> e.location.Some? && Place(e, table, parseCity, geocodedCities, cache).None? && Tracked(e.location.value)
    ensures r.Some? ==> r.value.locationId == e.location.value.id
  {
    if e.location.Some? && Place(e, table, parseCity, geocodedCities, cache).None? && Tracked(e.location.value) then
      var l := e.location.value;
      Wrappers.Some(Report(l.id, l.name, l.address, if Wrappers.Truthy(Types.CityName(l)) then Types.CityName(l) else Wrappers.None))
    else Wrappers.None
  }

  function Reporter(table: CoordinatesMapping.CoordinatesMap, parseCity: CityParser,
                    geocodedCities: map<string, GeocodingService.Coords>, cache: GeocodingService.GeocodeCache)
    : Types.Event -> Wrappers.Option<Report> {
    e => ReportOf(e, table, parseCity, geocodedCities, cache)
  }

  /** The `missingLocationsCollector.add` calls of one pass, in order. */
  function Reports(events: seq<Types.Event>, table: CoordinatesMapping.CoordinatesMap, parseCity: CityParser,
                   geocodedCities: map<string, GeocodingService.Coords>, cache: GeocodingService.GeocodeCache)
    : (r: seq<Report>)
    ensures |r| <= |events|
    ensures forall x :: x in r <==>
      exists i :: 0 <= i < |events| && ReportOf(events[i], table, parseCity, geocodedCities, cache) == Wrappers.Some(x)
  {
    var reports := Seqs.Map(Reporter(table, parseCity, geocodedCities, cache), events);
    assert forall i :: 0 <= i < |events| ==> reports[i] == ReportOf(events[i], table, parseCity, geocodedCities, cache);
    SomesMembers(reports);
    Somes(reports)
  }

  // ---------------------------------------------------------------------------
  // Grouping into markers

  /** `event.location?.latitude && event.location?.longitude`. */
  predicate Groupable(p: Placed) {
    p.event.location.Some? && Wrappers.NumTruthy(p.event.location.value.latitude) &&
    Wrappers.NumTruthy(p.event.location.value.longitude)
  }

  /** The group key: `key` stands for `` `${lat.toFixed(4)},${lng.toFixed(4)}` ``. */
  function KeyOf(key: (real, real) -> string): Placed -> string {
    p => if Groupable(p) then key(p.event.location.value.latitude.value, p.event.location.value.longitude.value) else ""
  }

  function InGroup(key: (real, real) -> string, k: string): Placed -> bool {
    p => Groupable(p) && KeyOf(key)(p) == k
  }

  /** The keys in order of first appearance, as the `Map` enumerates them. */
  function GroupKeys(events: seq<Placed>, key: (real, real) -> string): (r: seq<string>)
    ensures Seqs.Distinct(r)
  {
    Seqs.Dedup(Seqs.Map(KeyOf(key), Seqs.Filter(Groupable, events)))
  }

  /** The keys and groups `forEach` has built after the events `s`. */
  ghost predicate GroupsOf(keys: seq<string>, groups: map<string, seq<Placed>>, s: seq<Placed>, key: (real, real) -> string) {
    keys == GroupKeys(s, key) &&
    (forall k :: k in groups <==> k in keys) &&
    (forall k :: k in groups ==> groups[k] == Seqs.Filter(InGroup(key, k), s))
  }

  /** `locationGroups` as built by the `forEach`: the insertion-ordered keys and the groups. */
  method GroupByLocation(events: seq<Placed>, key: (real, real) -> string)
    returns (keys: seq<string>, locationGroups: map<string, seq<Placed>>)
    ensures keys == GroupKeys(events, key)
    ensures forall k :: k in locationGroups <==> k in keys
    ensures forall k :: k in locationGroups ==> locationGroups[k] == Seqs.Filter(InGroup(key, k), events)
  {
    keys, locationGroups := [], map[];
    for i := 0 to |events|
      invariant GroupsOf(keys, locationGroups, events[..i], key)
    {
      var event := events[i];
      assert events[..i + 1] == events[..i] + [event];
      if !Groupable(event) {
        GroupsSkip(keys, locationGroups, events[..i], event, key);
        continue;
      }
      var k := KeyOf(key)(event);
      if k !in locationGroups {
        GroupsAddNew(keys, locationGroups, events[..i], event, key);
        locationGroups := locationGroups[k := []];
        keys := keys + [k];
        locationGroups := locationGroups[k := locationGroups[k] + [event]];
        assert locationGroups[k] == [event];
      } else {
        GroupsAddKnown(keys, locationGroups, events[..i], event, key);
        locationGroups := locationGroups[k := locationGroups[k] + [event]];
      }
    }
    assert events[..|events|] == events;
  }

  /** `groupEvents.some((e) => e._isApproximate)`. */
  function HasApproximate(group: seq<Placed>): (r: bool)
    ensures r <==> exists i :: 0 <= i < |group| && group[i].approximate
  {
    if group == [] then false else group[0].approximate || HasApproximate(group[1..])
  }

  // ---------------------------------------------------------------------------
  // Proof steps

  lemma RequestsTake(events: seq<Types.Event>, i: nat, ask: Types.Event -> Wrappers.Option<string>)
    requires i < |events|
    ensures Requests(events[..i + 1], ask) ==
      match ask(events[i])
      case None => Requests(events[..i], ask)
      case Some(n) => Requests(events[..i], ask) + [n]
  {
    assert events[..i + 1][..i] == events[..i];
  }

  /** One more event extends each group it belongs to and, when its key is new, the keys. */
  lemma GroupStep(s: seq<Placed>, p: Placed, key: (real, real) -> string)
    ensures GroupKeys(s + [p], key) ==
      if !Groupable(p) then GroupKeys(s, key)
      else if KeyOf(key)(p) in GroupKeys(s, key) then GroupKeys(s, key)
      else GroupKeys(s, key) + [KeyOf(key)(p)]
    ensures forall k :: (Seqs.Filter(InGroup(key, k), s + [p]) ==
      if InGroup(key, k)(p) then Seqs.Filter(InGroup(key, k), s) + [p] else Seqs.Filter(InGroup(key, k), s))
  {
    Seqs.FilterSnoc(Groupable, s, p);
    if Groupable(p) {
      Seqs.MapSnoc(KeyOf(key), Seqs.Filter(Groupable, s), p);
      Seqs.DedupSnoc(Seqs.Map(KeyOf(key), Seqs.Filter(Groupable, s)), KeyOf(key)(p));
    }
    forall k {
      Seqs.FilterSnoc(InGroup(key, k), s, p);
    }
  }

  /** An event that cannot be grouped changes neither the keys nor the groups. */
  lemma GroupsSkip(keys: seq<string>, groups: map<string, seq<Placed>>, s: seq<Placed>, p: Placed, key: (real, real) -> string)
    requires GroupsOf(keys, groups, s, key) && !Groupable(p)
    ensures GroupsOf(keys, groups, s + [p], key)
  {
    GroupStep(s, p, key);
  }

  /** A groupable event with a new key starts a group of its own and adds its key at the end. */
  lemma GroupsAddNew(keys: seq<string>, groups: map<string, seq<Placed>>, s: seq<Placed>, p: Placed, key: (real, real) -> string)
    requires GroupsOf(keys, groups, s, key) && Groupable(p) && KeyOf(key)(p) !in groups
    ensures GroupsOf(keys + [KeyOf(key)(p)], groups[KeyOf(key)(p) := [p]], s + [p], key)
  {
    var k := KeyOf(key)(p);
    assert keys + [k] == GroupKeys(s + [p], key) by {
      GroupStep(s, p, key);
    }
    assert Seqs.Filter(InGroup(key, k), s) == [] by {
      GroupKeysMembers(s, key, k);
    }
    assert forall x :: x in keys + [k] <==> x in keys || x == k;
    var g := groups[k := [p]];
    forall x | x in g
      ensures g[x] == Seqs.Filter(InGroup(key, x), s + [p])
    {
      Seqs.FilterSnoc(InGroup(key, x), s, p);
      if x != k {
        assert x in groups && !InGroup(key, x)(p);
      }
    }
  }

  /** A groupable event with a known key is pushed onto that key's group. */
  lemma GroupsAddKnown(keys: seq<string>, groups: map<string, seq<Placed>>, s: seq<Placed>, p: Placed, key: (real, real) -> string)
    requires GroupsOf(keys, groups, s, key) && Groupable(p) && KeyOf(key)(p) in groups
    ensures GroupsOf(keys, groups[KeyOf(key)(p) := groups[KeyOf(key)(p)] + [p]], s + [p], key)
  {
    var k := KeyOf(key)(p);
    assert keys == GroupKeys(s + [p], key) by {
      GroupStep(s, p, key);
    }
    var g := groups[k := groups[k] + [p]];
    forall x | x in g
      ensures g[x] == Seqs.Filter(InGroup(key, x), s + [p])
    {
      Seqs.FilterSnoc(InGroup(key, x), s, p);
      if x != k {
        assert !InGroup(key, x)(p);
      }
    }
  }

  /** A key is listed exactly when its group is not empty. */
  lemma GroupKeysMembers(s: seq<Placed>, key: (real, real) -> string, k: string)
    ensures k in GroupKeys(s, key) <==> Seqs.Filter(InGroup(key, k), s) != []
  {
    var g := Seqs.Filter(Groupable, s);
    Seqs.DedupMembers(Seqs.Map(KeyOf(key), g));
    Seqs.FilterMembers(Groupable, s);
    Seqs.FilterMembers(InGroup(key, k), s);
    if k in GroupKeys(s, key) {
      var j :| 0 <= j < |g| && Seqs.Map(KeyOf(key), g)[j] == k;
      assert g[j] in g;
      assert g[j] in Seqs.Filter(InGroup(key, k), s);
    }
    if Seqs.Filter(InGroup(key, k), s) != [] {
      var p := Seqs.Filter(InGroup(key, k), s)[0];
      assert p in Seqs.Filter(InGroup(key, k), s);
      assert p in g;
      var j :| 0 <= j < |g| && g[j] == p;
      assert Seqs.Map(KeyOf(key), g)[j] == k;
    }
  }

  // ---------------------------------------------------------------------------
  // Facts

  /** A city is requested exactly when some event asks for it. */
  lemma {:induction false} RequestsMembers(events: seq<Types.Event>, ask: Types.Event -> Wrappers.Option<string>, n: string)
    ensures n in Requests(events, ask) <==> exists i :: 0 <= i < |events| && ask(events[i]) == Wrappers.Some(n)
  {
    if events != [] {
      var init := events[..|events| - 1];
      RequestsMembers(init, ask, n);
      if n in Requests(events, ask) {
        if ask(events[|events| - 1]) != Wrappers.Some(n) {
          var i :| 0 <= i < |init| && ask(init[i]) == Wrappers.Some(n);
          assert init[i] == events[i];
        }
      } else {
        forall i | 0 <= i < |events|
          ensures ask(events[i]) != Wrappers.Some(n)
        {
          if i < |init| {
            assert init[i] == events[i];
          }
        }
      }
    }
  }

  /** Every queued city is asked for by some event, it is queued once, and each asking event's city is queued. */
  lemma QueuedOnce(events: seq<Types.Event>, table: CoordinatesMapping.CoordinatesMap,
                   parseCity: CityParser, cache: GeocodingService.GeocodeCache, n: string)
    ensures n in Seqs.Dedup(Requests(events, Asker(table, parseCity, cache))) <==>
      exists i :: 0 <= i < |events| && CityToQueue(events[i], table, parseCity, cache) == Wrappers.Some(n)
    ensures Seqs.Distinct(Seqs.Dedup(Requests(events, Asker(table, parseCity, cache))))
  {
    Seqs.DedupMembers(Requests(events, Asker(table, parseCity, cache)));
    RequestsMembers(events, Asker(table, parseCity, cache), n);
  }

  /** An event without a location is never placed and never reported. */
  lemma NoLocationDropped(e: Types.Event, table: CoordinatesMapping.CoordinatesMap, parseCity: CityParser,
                          geocodedCities: map<string, GeocodingService.Coords>, cache: GeocodingService.GeocodeCache)
    requires e.location.None?
    ensures Place(e, table, parseCity, geocodedCities, cache).None?
    ensures ReportOf(e, table, parseCity, geocodedCities, cache).None?
    ensures CityToQueue(e, table, parseCity, cache).None?
  {
  }

  /** Venue coordinates win: the event is placed unchanged and exactly. */
  lemma VenueCoordinatesKept(e: Types.Event, table: CoordinatesMapping.CoordinatesMap, parseCity: CityParser,
                             geocodedCities: map<string, GeocodingService.Coords>, cache: GeocodingService.GeocodeCache)
    requires e.location.Some? && HasVenueCoordinates(e.location.value)
    ensures Place(e, table, parseCity, geocodedCities, cache) == Wrappers.Some(Placed(e, false))
  {
  }

  /**
   * Without venue coordinates the sources are tried in order: the static table (exact),
   * the city's stored coordinates, the runtime-geocoded cities, the local cache (all
   * approximate); with none the event is dropped and reported unless it is online.
   */
  lemma Precedence(e: Types.Event, table: CoordinatesMapping.CoordinatesMap, parseCity: CityParser,
                   geocodedCities: map<string, GeocodingService.Coords>, cache: GeocodingService.GeocodeCache)
    requires e.location.Some? && !HasVenueCoordinates(e.location.value)
    ensures var l, r := e.location.value, Place(e, table, parseCity, geocodedCities, cache);
      var name := Types.CityName(l);
      (StaticCoordinates(table, l).Some? ==>
         var c := StaticCoordinates(table, l).value; r == Wrappers.Some(Placed(WithCoordinates(e, c.latitude, c.longitude), false))) &&
      (StaticCoordinates(table, l).None? && parseCity(CityCoordinates(l)).Some? ==>
         var c := parseCity(CityCoordinates(l)).value; r == Wrappers.Some(Placed(WithCoordinates(e, c.latitude, c.longitude), true))) &&
      (StaticCoordinates(table, l).None? && parseCity(CityCoordinates(l)).None? && Wrappers.Truthy(name) && name.value in geocodedCities ==>
         var c := geocodedCities[name.value]; r == Wrappers.Some(Placed(WithCoordinates(e, c.latitude, c.longitude), true))) &&
      (StaticCoordinates(table, l).None? && parseCity(CityCoordinates(l)).None? && Wrappers.Truthy(name) && name.value !in geocodedCities &&
       GeocodingService.GetCachedCityCoordinates(cache, name).Some? ==>
         var c := GeocodingService.GetCachedCityCoordinates(cache, name).value;
         r == Wrappers.Some(Placed(WithCoordinates(e, c.latitude, c.longitude), true))) &&
      (r.None? <==> StaticCoordinates(table, l).None? && parseCity(CityCoordinates(l)).None? &&
                    RuntimeCoordinates(l, geocodedCities, cache).None?) &&
      (r.Some? ==> (r.value.approximate <==> StaticCoordinates(table, l).None?))
  {
  }

  /**
   * A city queued for geocoding places its event once it is geocoded; until then the event
   * is left off the map and reported as missing.
   */
  lemma QueuedCityPlacedWhenGeocoded(e: Types.Event, table: CoordinatesMapping.CoordinatesMap, parseCity: CityParser,
                                     geocodedCities: map<string, GeocodingService.Coords>, cache: GeocodingService.GeocodeCache)
    requires CityToQueue(e, table, parseCity, cache).Some?
    ensures var n := CityToQueue(e, table, parseCity, cache).value;
      (n in geocodedCities ==>
         Place(e, table, parseCity, geocodedCities, cache) ==
         Wrappers.Some(Placed(WithCoordinates(e, geocodedCities[n].latitude, geocodedCities[n].longitude), true))) &&
      (n !in geocodedCities ==>
         Place(e, table, parseCity, geocodedCities, cache).None? &&
         ReportOf(e, table, parseCity, geocodedCities, cache).Some?)
  {
  }

  lemma {:induction false} SomesMembers<T>(s: seq<Wrappers.Option<T>>)
    ensures forall x :: x in Somes(s) <==> Wrappers.Some(x) in s
    ensures |Somes(s)| > 0 <==> exists i :: 0 <= i < |s| && s[i].Some?
  {
    if s != [] {
      SomesMembers(s[1..]);
      assert s == [s[0]] + s[1..];
      if exists i :: 0 <= i < |s| && s[i].Some? {
        var i :| 0 <= i < |s| && s[i].Some?;
        if i > 0 {
          assert s[1..][i - 1].Some?;
        }
      }
    }
  }

  /** The present values, wrapped again, are the `Some` entries in order: a subsequence of the input. */
  lemma {:induction false} SomesInOrder<T>(s: seq<Wrappers.Option<T>>)
    ensures Seqs.IsSubseq(Seqs.Map((x: T) => Wrappers.Some(x), Somes(s)), s)
  {
    if s != [] {
      SomesInOrder(s[1..]);
      var rest := Seqs.Map((x: T) => Wrappers.Some(x), Somes(s[1..]));
      if s[0].Some? {
        assert Seqs.Map((x: T) => Wrappers.Some(x), Somes(s)) == [s[0]] + rest;
        assert ([s[0]] + rest)[1..] == rest;
      } else {
        assert Somes(s) == Somes(s[1..]);
      }
    }
  }

  /**
   * The placed events are the events that have somewhere to go, in input order; the map shows
   * something (`hasCoordinates`) exactly when one of them does.
   */
  lemma PlacedInOrder(events: seq<Types.Event>, table: CoordinatesMapping.CoordinatesMap, parseCity: CityParser,
                      geocodedCities: map<string, GeocodingService.Coords>, cache: GeocodingService.GeocodeCache)
    ensures var placed := EventsWithCoords(events, table, parseCity, geocodedCities, cache);
      Seqs.IsSubseq(Seqs.Map((x: Placed) => Wrappers.Some(x), placed), Seqs.Map(Placer(table, parseCity, geocodedCities, cache), events)) &&
      (forall p :: p in placed <==> exists i :: 0 <= i < |events| && Place(events[i], table, parseCity, geocodedCities, cache) == Wrappers.Some(p)) &&
      (|placed| > 0 <==> exists i :: 0 <= i < |events| && Place(events[i], table, parseCity, geocodedCities, cache).Some?)
  {
    var s := Seqs.Map(Placer(table, parseCity, geocodedCities, cache), events);
    SomesInOrder(s);
    SomesMembers(s);
    forall p | Wrappers.Some(p) in s
      ensures exists i :: 0 <= i < |events| && Place(events[i], table, parseCity, geocodedCities, cache) == Wrappers.Some(p)
    {
      var i :| 0 <= i < |s| && s[i] == Wrappers.Some(p);
    }
  }

  /** Every event that is placed lands in exactly one marker group: the one of its rounded coordinates. */
  lemma ExactlyOneGroup(events: seq<Placed>, key: (real, real) -> string, p: Placed, k: string)
    requires p in events && Groupable(p)
    ensures p in Seqs.Filter(InGroup(key, k), events) <==> k == KeyOf(key)(p)
    ensures k == KeyOf(key)(p) ==> (
      k in GroupKeys(events, key) && multiset(Seqs.Filter(InGroup(key, k), events))[p] == multiset(events)[p])
  {
    Seqs.FilterMembers(InGroup(key, k), events);
    Seqs.FilterMultiplicity(InGroup(key, k), events, p);
    if k == KeyOf(key)(p) {
      GroupKeysMembers(events, key, k);
    }
  }

  /** A group built from a placed event at an approximate position is drawn as approximate. */
  lemma ApproximateGroup(group: seq<Placed>, i: nat)
    requires i < |group| && group[i].approximate
    ensures HasApproximate(group)
  {
  }
}
