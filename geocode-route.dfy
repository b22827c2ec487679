/**
 * The development route that geocodes a batch of locations and streams its progress:
 * online venues are skipped, the others are looked up one by one with a pause between
 * requests, and every progress event carries the running counts of outcomes.
 * The stream's JSON encoding is not modelled: events are values.
 */
module GeocodeRoute {
  import Wrappers
  import Seqs
  import LocationUtils

  const Country: string := "Czech Republic"
  const SkippedError: string := "Skipped: Online/Virtual event"
  const FailedError: string := "Could not geocode address"

  datatype Location = Location(
    locationId: string, locationName: Wrappers.Option<string>, address: Wrappers.Option<string>,
    cityName: Wrappers.Option<string>)

  datatype Coords = Coords(latitude: real, longitude: real)

  /** A location with its outcome; an absent `skipped` is false. */
  datatype GeocodedLocation = GeocodedLocation(
    location: Location, latitude: Wrappers.Option<real>, longitude: Wrappers.Option<real>,
    geocoded: bool, error: Wrappers.Option<string>, skipped: bool)

  /** The query sent to the geocoder. */
  function FullAddress(address: string, city: string): string {
    address + ", " + city + ", " + Country
  }

  /**
   * `geocodeAddress`: `search` stands for the Nominatim request (`None` for no match or any
   * error). Without an address or a city nothing is asked and the answer is `null`.
   */
  function GeocodeAddress(address: Wrappers.Option<string>, city: Wrappers.Option<string>,
                          search: string -> Wrappers.Option<Coords>): (r: Wrappers.Option<Coords>)
    ensures !Wrappers.Truthy(address) || !Wrappers.Truthy(city) ==> r.None?
    ensures r.Some? ==> Wrappers.Truthy(address) && Wrappers.Truthy(city) && search(FullAddress(address.value, city.value)) == r
    ensures Wrappers.Truthy(address) && Wrappers.Truthy(city) ==> r == search(FullAddress(address.value, city.value))
  {
    if !Wrappers.Truthy(address) || !Wrappers.Truthy(city) then Wrappers.None
    else search(FullAddress(address.value, city.value))
  }

  /** `isOnlineLocation`, the same keyword test as the location utilities'. */
  predicate Online(location: Location) {
    LocationUtils.IsOnline(location.locationName, location.address, location.cityName)
  }

  /**
   * The result pushed for one location, for a venue test `online`: skipped when online,
   * geocoded when the lookup answers, failed otherwise. Only a geocoded result has
   * coordinates, and no result is both skipped and geocoded. The route's own test is
   * `Online`; the loop is stated for any test, which `Post` instantiates.
   */
  function ResultOf(location: Location, online: Location -> bool, search: string -> Wrappers.Option<Coords>): (r: GeocodedLocation)
    ensures r.location == location
    ensures r.skipped <==> online(location)
    ensures r.geocoded <==> !online(location) && GeocodeAddress(location.address, location.cityName, search).Some?
    ensures r.latitude.Some? <==> r.geocoded
    ensures r.longitude.Some? <==> r.geocoded
    ensures r.error.None? <==> r.geocoded
  {
    if online(location) then
      GeocodedLocation(location, Wrappers.None, Wrappers.None, false, Wrappers.Some(SkippedError), true)
    else match GeocodeAddress(location.address, location.cityName, search)
      case Some(c) => GeocodedLocation(location, Wrappers.Some(c.latitude), Wrappers.Some(c.longitude), true, Wrappers.None, false)
      case None => GeocodedLocation(location, Wrappers.None, Wrappers.None, false, Wrappers.Some(FailedError), false)
  }

  function Results(locations: seq<Location>, online: Location -> bool, search: string -> Wrappers.Option<Coords>): seq<GeocodedLocation> {
    Seqs.Map((l: Location) => ResultOf(l, online, search), locations)
  }

  predicate IsGeocoded(r: GeocodedLocation) { r.geocoded }
  predicate IsFailed(r: GeocodedLocation) { !r.geocoded && !r.skipped }
  predicate IsSkipped(r: GeocodedLocation) { r.skipped }

  function Successful(rs: seq<GeocodedLocation>): nat { Seqs.Count(IsGeocoded, rs) }
  function Failed(rs: seq<GeocodedLocation>): nat { Seqs.Count(IsFailed, rs) }
  function Skipped(rs: seq<GeocodedLocation>): nat { Seqs.Count(IsSkipped, rs) }

  datatype Event =
    | Start(total: nat)
    | Progress(current: nat, total: nat, location: GeocodedLocation, successful: nat, failed: nat, skipped: nat)
    | Complete(results: seq<GeocodedLocation>, total: nat, successful: nat, failed: nat, skipped: nat)

  /** The progress event sent after the last of `rs` was pushed. */
  function ProgressOf(rs: seq<GeocodedLocation>, total: nat): Event
    requires rs != []
  {
    Progress(|rs|, total, rs[|rs| - 1], Successful(rs), Failed(rs), Skipped(rs))
  }

  /** One progress event per result, each counting the results so far. */
  function ProgressEvents(rs: seq<GeocodedLocation>, total: nat): (r: seq<Event>)
    ensures |r| == |rs|
  {
    if rs == [] then [] else ProgressEvents(rs[..|rs| - 1], total) + [ProgressOf(rs, total)]
  }

  /** The waits among the first `n` locations: one after each location looked up, but the last. */
  function Delays(online: Location -> bool, locations: seq<Location>, n: nat): nat
    requires n <= |locations|
  {
    if n == 0 then 0
    else Delays(online, locations, n - 1) + if !online(locations[n - 1]) && n < |locations| then 1 else 0
  }

  /** What the stream has sent once `rs` are pushed: the start event and one progress event each. */
  function Sent(rs: seq<GeocodedLocation>, total: nat): seq<Event> {
    [Start(total)] + ProgressEvents(rs, total)
  }

  /** The whole stream for a batch. */
  function Stream(locations: seq<Location>, online: Location -> bool, search: string -> Wrappers.Option<Coords>): seq<Event> {
    var rs := Results(locations, online, search);
    Sent(rs, |locations|) + [Complete(rs, |locations|, Successful(rs), Failed(rs), Skipped(rs))]
  }

  /** The body of the loop up to the push: an online location is skipped, any other is looked up. */
  method GeocodeLocation(location: Location, online: Location -> bool, search: string -> Wrappers.Option<Coords>) returns (result: GeocodedLocation)
    ensures result == ResultOf(location, online, search)
  {
    if online(location) {
      return GeocodedLocation(location, Wrappers.None, Wrappers.None, false, Wrappers.Some(SkippedError), true);
    }
    var coords := GeocodeAddress(location.address, location.cityName, search);
    if coords.Some? {
      result := GeocodedLocation(location, Wrappers.Some(coords.value.latitude), Wrappers.Some(coords.value.longitude), true, Wrappers.None, false);
    } else {
      result := GeocodedLocation(location, Wrappers.None, Wrappers.None, false, Wrappers.Some(FailedError), false);
    }
  }

  /**
   * The stream's body: one result and one progress event per location, then the summary;
   * a wait follows each looked-up location but the last, and none follows a skipped one.
   */
  method StreamEvents(locations: seq<Location>, online: Location -> bool, search: string -> Wrappers.Option<Coords>)
    returns (events: seq<Event>, ghost delays: nat)
    ensures events == Stream(locations, online, search)
    ensures delays == Delays(online, locations, |locations|)
  {
    var results;
    results, events, delays := GeocodeEach(locations, online, search);
    events := events + [Complete(results, |locations|, Successful(results), Failed(results), Skipped(results))];
  }

  /** The `for` loop of the stream: a result and a progress event per location, and the waits. */
  method GeocodeEach(locations: seq<Location>, online: Location -> bool, search: string -> Wrappers.Option<Coords>)
    returns (results: seq<GeocodedLocation>, events: seq<Event>, ghost delays: nat)
    ensures results == Results(locations, online, search)
    ensures events == Sent(results, |locations|)
    ensures delays == Delays(online, locations, |locations|)
  {
    results := [];
    events := [Start(|locations|)];
    delays := 0;
    for i := 0 to |locations|
      invariant SentSoFar(locations, online, search, i, results, events, delays)
    {
      var result := GeocodeLocation(locations[i], online, search);
      SentStep(locations, online, search, i, results, events, delays, result);
      results := results + [result];
      events := events + [Progress(i + 1, |locations|, result, Successful(results), Failed(results), Skipped(results))];
      // an online location `continue`s before the wait
      if !result.skipped && i < |locations| - 1 {
        delays := delays + 1;
      }
    }
    assert locations[..|locations|] == locations;
  }

  /** The parsed request body: unreadable, `locations` not an array, or an array. */
  datatype Request = Unreadable | NotAnArray | Locations(locations: seq<Location>)

  datatype Response = Json(status: nat, error: string) | EventStream(events: seq<Event>)

  /** `POST`: `development` is whether `NODE_ENV` is "development". */
  method Post(development: bool, request: Request, search: string -> Wrappers.Option<Coords>)
    returns (response: Response, ghost delays: nat)
    ensures !development ==> response == Json(403, "This API route is only available in development mode")
    ensures development && request.Unreadable? ==> response == Json(500, "Internal server error")
    ensures development && request.NotAnArray? ==> response == Json(400, "Invalid request: locations must be an array")
    ensures development && request.Locations? ==>
      response == EventStream(Stream(request.locations, Online, search)) && delays == Delays(Online, request.locations, |request.locations|)
  {
    delays := 0;
    if !development {
      return Json(403, "This API route is only available in development mode"), delays;
    }
    match request
    case Unreadable =>
      response := Json(500, "Internal server error");
    case NotAnArray =>
      response := Json(400, "Invalid request: locations must be an array");
    case Locations(locations) =>
      var events;
      events, delays := StreamEvents(locations, Online, search);
      response := EventStream(events);
  }

  // ---------------------------------------------------------------------------
  // Facts

  lemma ResultsTake(locations: seq<Location>, i: nat, online: Location -> bool, search: string -> Wrappers.Option<Coords>)
    requires i < |locations|
    ensures Results(locations[..i + 1], online, search) == Results(locations[..i], online, search) + [ResultOf(locations[i], online, search)]
  {
    Seqs.TakeSnoc(locations, i);
    Seqs.MapSnoc((l: Location) => ResultOf(l, online, search), locations[..i], locations[i]);
  }

  /** One turn of the stream loop keeps its invariants. */
  lemma StreamStep(locations: seq<Location>, i: nat, online: Location -> bool, search: string -> Wrappers.Option<Coords>,
                   results: seq<GeocodedLocation>, result: GeocodedLocation)
    requires i < |locations| && results == Results(locations[..i], online, search)
    requires result == ResultOf(locations[i], online, search)
    ensures results + [result] == Results(locations[..i + 1], online, search)
    ensures Sent(results + [result], |locations|) == Sent(results, |locations|) +
      [Progress(i + 1, |locations|, result, Successful(results + [result]), Failed(results + [result]), Skipped(results + [result]))]
    ensures Delays(online, locations, i + 1) == Delays(online, locations, i) + if !result.skipped && i < |locations| - 1 then 1 else 0
  {
    ResultsTake(locations, i, online, search);
    ProgressEventsSnoc(results, result, |locations|);
    Seqs.AppendAssoc([Start(|locations|)], ProgressEvents(results, |locations|), [ProgressOf(results + [result], |locations|)]);
    DelaysStep(online, locations, i, result.skipped);
  }

  /** What the loop has pushed and sent, and how often it has waited, after `i` locations. */
  ghost predicate SentSoFar(locations: seq<Location>, online: Location -> bool, search: string -> Wrappers.Option<Coords>,
                            i: nat, results: seq<GeocodedLocation>, events: seq<Event>, delays: nat)
  {
    i <= |locations| && results == Results(locations[..i], online, search) && |results| == i &&
    events == Sent(results, |locations|) && delays == Delays(online, locations, i)
  }

  lemma SentStep(locations: seq<Location>, online: Location -> bool, search: string -> Wrappers.Option<Coords>,
                 i: nat, results: seq<GeocodedLocation>, events: seq<Event>, delays: nat, result: GeocodedLocation)
    requires i < |locations| && SentSoFar(locations, online, search, i, results, events, delays)
    requires result == ResultOf(locations[i], online, search)
    ensures var rs := results + [result];
      SentSoFar(locations, online, search, i + 1, rs,
                events + [Progress(i + 1, |locations|, result, Successful(rs), Failed(rs), Skipped(rs))],
                delays + if !result.skipped && i < |locations| - 1 then 1 else 0)
  {
    StreamStep(locations, i, online, search, results, result);
  }

  lemma DelaysStep(online: Location -> bool, locations: seq<Location>, i: nat, skipped: bool)
    requires i < |locations| && skipped == online(locations[i])
    ensures Delays(online, locations, i + 1) == Delays(online, locations, i) + if !skipped && i + 1 < |locations| then 1 else 0
  {
  }

  lemma ProgressEventsSnoc(rs: seq<GeocodedLocation>, r: GeocodedLocation, total: nat)
    ensures ProgressEvents(rs + [r], total) == ProgressEvents(rs, total) + [ProgressOf(rs + [r], total)]
  {
    assert (rs + [r])[..|rs|] == rs;
  }

  /** Exactly one result per location, in input order, each carrying its location. */
  lemma OneResultPerLocation(locations: seq<Location>, online: Location -> bool, search: string -> Wrappers.Option<Coords>)
    ensures |Results(locations, online, search)| == |locations|
    ensures forall i :: 0 <= i < |locations| ==> Results(locations, online, search)[i].location == locations[i]
  {
  }

  /** An online location is decided without asking the geocoder. */
  lemma OnlineNeedsNoLookup(location: Location, online: Location -> bool, search1: string -> Wrappers.Option<Coords>, search2: string -> Wrappers.Option<Coords>)
    requires online(location)
    ensures ResultOf(location, online, search1) == ResultOf(location, online, search2)
    ensures ResultOf(location, online, search1).skipped && !ResultOf(location, online, search1).geocoded
  {
  }

  /** When no result is both skipped and geocoded, the three counts add up to the number of results. */
  lemma {:induction false} CountsAddUp(rs: seq<GeocodedLocation>)
    requires forall k :: 0 <= k < |rs| ==> !(rs[k].geocoded && rs[k].skipped)
    ensures Successful(rs) + Failed(rs) + Skipped(rs) == |rs|
  {
    if rs != [] {
      CountsAddUp(rs[1..]);
    }
  }

  /** The `k`-th progress event reports the first `k + 1` results. */
  lemma {:induction false} ProgressEventAt(rs: seq<GeocodedLocation>, total: nat, k: nat)
    requires k < |rs|
    ensures ProgressEvents(rs, total)[k] == ProgressOf(rs[..k + 1], total)
  {
    if k < |rs| - 1 {
      ProgressEventAt(rs[..|rs| - 1], total, k);
      assert rs[..|rs| - 1][..k + 1] == rs[..k + 1];
    } else {
      assert rs[..k + 1] == rs;
    }
  }

  /**
   * In every progress event `current` is its position plus one and the counts add up to it;
   * in the summary they add up to `total`.
   */
  lemma StreamCountsAddUp(locations: seq<Location>, online: Location -> bool, search: string -> Wrappers.Option<Coords>)
    ensures var s := Stream(locations, online, search);
      |s| == |locations| + 2 && s[0] == Start(|locations|) &&
      (forall k :: 1 <= k <= |locations| ==>
        s[k].Progress? && s[k].current == k && s[k].successful + s[k].failed + s[k].skipped == k) &&
      s[|s| - 1].Complete? && s[|s| - 1].successful + s[|s| - 1].failed + s[|s| - 1].skipped == |locations|
  {
    var rs := Results(locations, online, search);
    var s := Stream(locations, online, search);
    var pe := ProgressEvents(rs, |locations|);
    assert s == [Start(|locations|)] + pe + [Complete(rs, |locations|, Successful(rs), Failed(rs), Skipped(rs))];
    forall k | 0 <= k < |rs| ensures !(rs[k].geocoded && rs[k].skipped) {
      assert rs[k] == ResultOf(locations[k], online, search);
    }
    forall k | 1 <= k <= |locations|
      ensures s[k].Progress? && s[k].current == k && s[k].successful + s[k].failed + s[k].skipped == k
    {
      assert s[k] == ProgressOf(rs[..k], |locations|) by {
        assert s[k] == pe[k - 1];
        ProgressEventAt(rs, |locations|, k - 1);
      }
      assert Successful(rs[..k]) + Failed(rs[..k]) + Skipped(rs[..k]) == k by {
        CountsAddUp(rs[..k]);
      }
    }
    CountsAddUp(rs);
  }

  /** Online locations cause no wait. */
  lemma {:induction false} OnlineBatchNoDelay(online: Location -> bool, locations: seq<Location>, n: nat)
    requires n <= |locations|
    requires forall i :: 0 <= i < |locations| ==> online(locations[i])
    ensures Delays(online, locations, n) == 0
  {
    if n > 0 {
      OnlineBatchNoDelay(online, locations, n - 1);
    }
  }
}
