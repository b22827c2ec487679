/**
 * The runtime city geocoder: a versioned cache of city coordinates keyed by the
 * lower-cased, trimmed name, and a batch lookup that serves cached cities first and asks
 * the geocoding API (an oracle here) for the rest, one request at a time.
 */
module GeocodingService {
  import Wrappers
  import Strs
  import Seqs

  const CacheVersion: string := "v1"

  datatype Coords = Coords(latitude: real, longitude: real)

  datatype CachedCity = CachedCity(name: string, latitude: real, longitude: real, timestamp: int)

  datatype GeocodeCache = GeocodeCache(version: string, cities: map<string, CachedCity>)

  /** The cache `loadCache` falls back to. */
  function EmptyCache(): GeocodeCache {
    GeocodeCache(CacheVersion, map[])
  }

  /**
   * `loadCache`: `stored` is what local storage holds under the cache key, and `parse` stands
   * for `JSON.parse` (`None` when it throws). Nothing stored, a parse error or another
   * version all give the empty cache.
   */
  function LoadCache(stored: Wrappers.Option<string>, parse: string -> Wrappers.Option<GeocodeCache>): (r: GeocodeCache)
    ensures r.version == CacheVersion
    ensures r != EmptyCache() ==> Wrappers.Truthy(stored) && parse(stored.value) == Wrappers.Some(r)
    ensures Wrappers.Truthy(stored) && parse(stored.value).Some? && parse(stored.value).value.version == CacheVersion ==>
      r == parse(stored.value).value
  {
    if !Wrappers.Truthy(stored) then EmptyCache()
    else match parse(stored.value)
      case None => EmptyCache()
      case Some(parsed) => if parsed.version != CacheVersion then EmptyCache() else parsed
  }

  /** `normalizeCityName`: lower-cased, then trimmed. */
  function NormalizeCityName(cityName: string): string {
    Strs.Trim(Strs.Lower(cityName))
  }

  function CoordsOf(c: CachedCity): Coords {
    Coords(c.latitude, c.longitude)
  }

  /** The cache entry for a name, looked up by its normalized form. */
  function Cached(cities: map<string, CachedCity>, cityName: string): (r: Wrappers.Option<Coords>)
    ensures r.Some? <==> NormalizeCityName(cityName) in cities
  {
    var key := NormalizeCityName(cityName);
    if key in cities then Wrappers.Some(CoordsOf(cities[key])) else Wrappers.None
  }

  /** `getCachedCityCoordinates`, on the loaded cache: `null` for a missing or empty name. */
  function GetCachedCityCoordinates(cache: GeocodeCache, cityName: Wrappers.Option<string>): (r: Wrappers.Option<Coords>)
    ensures !Wrappers.Truthy(cityName) ==> r.None?
    ensures Wrappers.Truthy(cityName) ==> r == Cached(cache.cities, cityName.value)
  {
    if !Wrappers.Truthy(cityName) then Wrappers.None else Cached(cache.cities, cityName.value)
  }

  // ---------------------------------------------------------------------------
  // geocodeCities

  /** The results of the cache pass over `names`: each name whose normalized form is cached. */
  function CacheHits(cities: map<string, CachedCity>, names: seq<string>): map<string, Coords> {
    if names == [] then map[]
    else
      var m := CacheHits(cities, names[..|names| - 1]);
      var n := names[|names| - 1];
      if NormalizeCityName(n) in cities then m[n := CoordsOf(cities[NormalizeCityName(n)])] else m
  }

  predicate Missing(cities: map<string, CachedCity>, n: string) {
    NormalizeCityName(n) !in cities
  }

  /** `toGeocode`: the names the cache does not know, in order, repeats included. */
  function ToGeocode(cities: map<string, CachedCity>, names: seq<string>): seq<string> {
    Seqs.Filter((n: string) => Missing(cities, n), names)
  }

  /** What the API pass has built. */
  datatype Progress = Progress(results: map<string, Coords>, cities: map<string, CachedCity>)

  /**
   * One step of the API pass, on name `n` at index `i`: an empty name is skipped; a name the
   * API resolves is added to the results and cached under its normalized form, stamped with
   * the clock reading of its step.
   */
  function Step(p: Progress, n: string, i: nat, api: string -> Wrappers.Option<Coords>, clock: nat -> int): Progress {
    if n == "" then p
    else match api(n)
      case None => p
      case Some(c) =>
        Progress(p.results[n := c], p.cities[NormalizeCityName(n) := CachedCity(n, c.latitude, c.longitude, clock(i))])
  }

  /** The API pass over `todo`, one step per name. */
  function ApiPass(start: Progress, todo: seq<string>, api: string -> Wrappers.Option<Coords>, clock: nat -> int): Progress {
    if todo == [] then start
    else Step(ApiPass(start, todo[..|todo| - 1], api, clock), todo[|todo| - 1], |todo| - 1, api, clock)
  }

  /** The waits among the first `n` steps: one after each non-empty name but the last of `todo`. */
  function Waits(todo: seq<string>, n: nat): nat
    requires n <= |todo|
  {
    if n == 0 then 0
    else Waits(todo, n - 1) + if todo[n - 1] != "" && n < |todo| then 1 else 0
  }

  /** The first loop of `geocodeCities`: cached names go to the results, the others are queued. */
  method CheckCache(cities: map<string, CachedCity>, cityNames: seq<string>)
    returns (results: map<string, Coords>, toGeocode: seq<string>)
    ensures results == CacheHits(cities, cityNames)
    ensures toGeocode == ToGeocode(cities, cityNames)
  {
    results := map[];
    toGeocode := [];
    for k := 0 to |cityNames|
      invariant results == CacheHits(cities, cityNames[..k])
      invariant toGeocode == ToGeocode(cities, cityNames[..k])
    {
      var cityName := cityNames[k];
      var normalizedName := NormalizeCityName(cityName);
      CacheHitsTake(cities, cityNames, k);
      Seqs.TakeSnoc(cityNames, k);
      Seqs.FilterSnoc((n: string) => Missing(cities, n), cityNames[..k], cityName);
      if normalizedName in cities {
        var cached := cities[normalizedName];
        results := results[cityName := Coords(cached.latitude, cached.longitude)];
      } else {
        toGeocode := toGeocode + [cityName];
      }
    }
    assert cityNames[..|cityNames|] == cityNames;
  }

  /** The second loop of `geocodeCities`: the queued names, one API request each, with waits between. */
  method GeocodeQueued(start: Progress, toGeocode: seq<string>, api: string -> Wrappers.Option<Coords>, clock: nat -> int)
    returns (results: map<string, Coords>, cities: map<string, CachedCity>, ghost pauses: nat)
    ensures Progress(results, cities) == ApiPass(start, toGeocode, api, clock)
    ensures pauses == Waits(toGeocode, |toGeocode|)
  {
    results, cities := start.results, start.cities;
    pauses := 0;
    for i := 0 to |toGeocode|
      invariant Progress(results, cities) == ApiPass(start, toGeocode[..i], api, clock)
      invariant pauses == Waits(toGeocode, i)
    {
      var cityName := toGeocode[i];
      ghost var before := Progress(results, cities);
      assert ApiPass(start, toGeocode[..i + 1], api, clock) == Step(before, cityName, i, api, clock) by {
        ApiPassTake(start, toGeocode, i, api, clock);
      }
      assert Waits(toGeocode, i + 1) == pauses + if cityName != "" && i < |toGeocode| - 1 then 1 else 0;
      if cityName != "" {
        var coords := api(cityName);
        if coords.Some? {
          results := results[cityName := coords.value];
          var normalizedName := NormalizeCityName(cityName);
          cities := cities[normalizedName := CachedCity(cityName, coords.value.latitude, coords.value.longitude, clock(i))];
        }
        if i < |toGeocode| - 1 {
          pauses := pauses + 1;
        }
      }
      assert Progress(results, cities) == Step(before, cityName, i, api, clock);
    }
    assert toGeocode[..|toGeocode|] == toGeocode;
  }

  /**
   * `geocodeCities` on the loaded cache. `api` stands for `geocodeCityViaAPI` and `clock(i)`
   * for `Date.now()` at step `i` of the API pass; `pauses` counts the one-second waits.
   */
  method GeocodeCities(cityNames: seq<string>, cache: GeocodeCache, api: string -> Wrappers.Option<Coords>, clock: nat -> int)
    returns (results: map<string, Coords>, saved: GeocodeCache, ghost pauses: nat)
    ensures var todo := ToGeocode(cache.cities, cityNames);
      Progress(results, saved.cities) == ApiPass(Progress(CacheHits(cache.cities, cityNames), cache.cities), todo, api, clock)
    ensures saved.version == cache.version
    ensures pauses == Waits(ToGeocode(cache.cities, cityNames), |ToGeocode(cache.cities, cityNames)|)
    ensures forall n :: n in results ==> n in cityNames
  {
    var hits, toGeocode := CheckCache(cache.cities, cityNames);
    var cities;
    results, cities, pauses := GeocodeQueued(Progress(hits, cache.cities), toGeocode, api, clock);
    saved := cache.(cities := cities);
    CacheHitsDomain(cache.cities, cityNames);
    Seqs.FilterMembers((m: string) => Missing(cache.cities, m), cityNames);
    ApiPassResults(Progress(hits, cache.cities), toGeocode, api, clock);
  }

  /** The cache pass over one more name. */
  lemma CacheHitsTake(cities: map<string, CachedCity>, names: seq<string>, k: nat)
    requires k < |names|
    ensures CacheHits(cities, names[..k + 1]) ==
      if NormalizeCityName(names[k]) in cities then CacheHits(cities, names[..k])[names[k] := CoordsOf(cities[NormalizeCityName(names[k])])]
      else CacheHits(cities, names[..k])
  {
    assert names[..k + 1][..k] == names[..k];
  }

  /** The pass over one more name is one more step. */
  lemma ApiPassTake(start: Progress, todo: seq<string>, i: nat, api: string -> Wrappers.Option<Coords>, clock: nat -> int)
    requires i < |todo|
    ensures ApiPass(start, todo[..i + 1], api, clock) == Step(ApiPass(start, todo[..i], api, clock), todo[i], i, api, clock)
  {
    assert todo[..i + 1][..i] == todo[..i];
  }

  // ---------------------------------------------------------------------------
  // Facts

  /** A normalized name is lower-case and trimmed already. */
  lemma NormalizedIsNormal(cityName: string)
    ensures var r := NormalizeCityName(cityName); Strs.Lower(r) == r && Strs.Trim(r) == r
  {
    Strs.LowerTrim(Strs.Lower(cityName));
    Strs.LowerIdempotent(cityName);
    Strs.TrimIdempotent(Strs.Lower(cityName));
  }

  /** Lower-casing and trimming once is enough. */
  lemma NormalizeIdempotent(cityName: string)
    ensures NormalizeCityName(NormalizeCityName(cityName)) == NormalizeCityName(cityName)
  {
    var t := Strs.Trim(Strs.Lower(cityName));
    Strs.LowerTrim(Strs.Lower(cityName));
    Strs.LowerIdempotent(cityName);
    Strs.TrimIdempotent(Strs.Lower(cityName));
  }

  /** Upper and lower case do not matter to the normalized name. */
  lemma NormalizeIgnoresCase(cityName: string)
    ensures NormalizeCityName(Strs.Lower(cityName)) == NormalizeCityName(cityName)
  {
    Strs.LowerIdempotent(cityName);
  }

  /** Surrounding white space does not matter to the normalized name. */
  lemma NormalizeIgnoresSurroundingSpace(cityName: string)
    ensures NormalizeCityName(" " + cityName + " ") == NormalizeCityName(cityName)
  {
    var l := Strs.Lower(cityName);
    assert Strs.Lower(" " + cityName + " ") == " " + l + " " by {
      Strs.LowerAppend(" ", cityName);
      Strs.LowerAppend(" " + cityName, " ");
    }
    Strs.TrimSurroundingSpace(" " + l);
    Strs.TrimSurroundingSpace(l);
  }

  /** Cache lookups ignore case. */
  lemma LookupIgnoresCase(cache: GeocodeCache, cityName: string)
    ensures GetCachedCityCoordinates(cache, Wrappers.Some(Strs.Lower(cityName))) == GetCachedCityCoordinates(cache, Wrappers.Some(cityName))
  {
    NormalizeIgnoresCase(cityName);
    if cityName == "" {
      assert Strs.Lower(cityName) == "";
    }
  }

  /**
   * Cache lookups of a non-empty name ignore surrounding white space. (A name of spaces alone
   * is truthy, so it is looked up, under the empty key.)
   */
  lemma LookupIgnoresSurroundingSpace(cache: GeocodeCache, cityName: string)
    requires cityName != ""
    ensures GetCachedCityCoordinates(cache, Wrappers.Some(" " + cityName + " ")) == GetCachedCityCoordinates(cache, Wrappers.Some(cityName))
  {
    NormalizeIgnoresSurroundingSpace(cityName);
  }

  /** A stored cache of another version is thrown away. */
  lemma OtherVersionDiscarded(stored: string, parse: string -> Wrappers.Option<GeocodeCache>)
    requires parse(stored).Some? && parse(stored).value.version != CacheVersion
    ensures LoadCache(Wrappers.Some(stored), parse) == EmptyCache()
  {
  }

  lemma {:induction false} CacheHitsDomain(cities: map<string, CachedCity>, names: seq<string>)
    ensures forall n :: n in CacheHits(cities, names) <==> n in names && !Missing(cities, n)
    ensures forall n :: n in CacheHits(cities, names) ==> Cached(cities, n) == Wrappers.Some(CacheHits(cities, names)[n])
  {
    if names != [] {
      CacheHitsDomain(cities, names[..|names| - 1]);
      assert names == names[..|names| - 1] + [names[|names| - 1]];
    }
  }

  /**
   * The API pass only adds: a name it resolves maps to the API's answer, any other result is
   * kept, and every name it adds is a non-empty name of `todo` that the API resolves.
   */
  lemma {:induction false} ApiPassResults(start: Progress, todo: seq<string>, api: string -> Wrappers.Option<Coords>, clock: nat -> int)
    ensures var r := ApiPass(start, todo, api, clock).results;
      forall n :: n in r <==> n in start.results || (n in todo && n != "" && api(n).Some?)
    ensures var r := ApiPass(start, todo, api, clock).results;
      forall n :: n in r ==> r[n] == if n in todo && n != "" && api(n).Some? then api(n).value else start.results[n]
  {
    if todo != [] {
      ApiPassResults(start, todo[..|todo| - 1], api, clock);
      assert todo == todo[..|todo| - 1] + [todo[|todo| - 1]];
    }
  }

  /**
   * After `geocodeCities`, a non-empty name has a result exactly when the cache held its
   * normalized form or the API resolves it; a cached name gets the cached coordinates and
   * is never sent to the API.
   */
  lemma GeocodeCitiesResults(cityNames: seq<string>, cache: GeocodeCache, api: string -> Wrappers.Option<Coords>,
                             clock: nat -> int, n: string)
    requires n in cityNames && n != ""
    ensures var p := ApiPass(Progress(CacheHits(cache.cities, cityNames), cache.cities), ToGeocode(cache.cities, cityNames), api, clock);
      (n in p.results <==> !Missing(cache.cities, n) || api(n).Some?) &&
      (!Missing(cache.cities, n) ==> n !in ToGeocode(cache.cities, cityNames) && p.results[n] == Cached(cache.cities, n).value) &&
      (Missing(cache.cities, n) && api(n).Some? ==> p.results[n] == api(n).value)
  {
    var todo := ToGeocode(cache.cities, cityNames);
    CacheHitsDomain(cache.cities, cityNames);
    Seqs.FilterMembers((m: string) => Missing(cache.cities, m), cityNames);
    ApiPassResults(Progress(CacheHits(cache.cities, cityNames), cache.cities), todo, api, clock);
  }

  /**
   * The API pass caches what it resolves under the normalized name, keeping every earlier
   * entry; an empty name or a failed lookup adds no key.
   */
  lemma {:induction false} ApiPassCaches(start: Progress, todo: seq<string>, api: string -> Wrappers.Option<Coords>, clock: nat -> int)
    ensures var c := ApiPass(start, todo, api, clock).cities;
      start.cities.Keys <= c.Keys &&
      forall n :: n in todo && n != "" && api(n).Some? ==> NormalizeCityName(n) in c
    ensures ApiPass(start, todo, api, clock).cities.Keys ==
            start.cities.Keys + set n | n in todo && n != "" && api(n).Some? :: NormalizeCityName(n)
  {
    if todo != [] {
      ApiPassCaches(start, todo[..|todo| - 1], api, clock);
      assert todo == todo[..|todo| - 1] + [todo[|todo| - 1]];
    }
  }

  /** Without empty names, there is one wait between each two consecutive API requests. */
  lemma {:induction false} WaitsBetweenRequests(todo: seq<string>, n: nat)
    requires n <= |todo|
    requires forall j :: 0 <= j < |todo| ==> todo[j] != ""
    ensures Waits(todo, n) == if n == |todo| then (if n == 0 then 0 else n - 1) else n
  {
    if n > 0 {
      WaitsBetweenRequests(todo, n - 1);
    }
  }

  /** The queue keeps repeats: a name the cache misses is sent to the API as often as it is listed. */
  lemma RepeatedMissQueuedTwice(cities: map<string, CachedCity>, n: string)
    requires Missing(cities, n)
    ensures ToGeocode(cities, [n, n]) == [n, n]
  {
    assert [n, n][1..] == [n] && [n][1..] == [];
    assert Seqs.Filter((m: string) => Missing(cities, m), [n]) == [n];
  }
}
