/**
 * The batch geocoding script: it walks an array of locations, looks up the ones without
 * coordinates, writes the answers into the entries in place, counts the outcomes, saves
 * its progress every ten entries and pauses after some lookups.
 * File reading and writing, the command line and console output are not modelled.
 */
module GeocodeScript {
  import Wrappers
  import GeocodeRoute

  /** An entry of the input file; `latitude`/`longitude` are `None` for absent or `null`. */
  datatype ScriptLocation = ScriptLocation(
    locationId: string, locationName: Wrappers.Option<string>, address: Wrappers.Option<string>,
    cityName: Wrappers.Option<string>, count: Wrappers.Option<nat>, firstSeen: Wrappers.Option<string>,
    latitude: Wrappers.Option<real>, longitude: Wrappers.Option<real>)

  datatype Outcome = Succeeded | Failed | Skipped

  type Search = string -> Wrappers.Option<GeocodeRoute.Coords>

  /** `location.latitude && location.longitude`: both present and non-zero. */
  predicate HasCoordinates(l: ScriptLocation) {
    Wrappers.NumTruthy(l.latitude) && Wrappers.NumTruthy(l.longitude)
  }

  /** How one entry is handled. */
  function OutcomeOf(l: ScriptLocation, search: Search): Outcome {
    if HasCoordinates(l) then Skipped
    else if GeocodeRoute.GeocodeAddress(l.address, l.cityName, search).Some? then Succeeded
    else Failed
  }

  /**
   * An entry after its turn: kept when it has coordinates, otherwise given both looked-up
   * coordinates, or both set to `null` when the lookup fails.
   */
  function Processed(l: ScriptLocation, search: Search): (r: ScriptLocation)
    ensures r == l.(latitude := r.latitude, longitude := r.longitude)
    ensures OutcomeOf(l, search) == Skipped ==> r == l
    ensures OutcomeOf(l, search) == Failed ==> r.latitude.None? && r.longitude.None?
    ensures OutcomeOf(l, search) == Succeeded ==>
      var c := GeocodeRoute.GeocodeAddress(l.address, l.cityName, search).value;
      r.latitude == Wrappers.Some(c.latitude) && r.longitude == Wrappers.Some(c.longitude)
  {
    if HasCoordinates(l) then l
    else match GeocodeRoute.GeocodeAddress(l.address, l.cityName, search)
      case Some(c) => l.(latitude := Wrappers.Some(c.latitude), longitude := Wrappers.Some(c.longitude))
      case None => l.(latitude := Wrappers.None, longitude := Wrappers.None)
  }

  /** An array slot after its turn: a `null` slot is skipped over. */
  function Step(e: Wrappers.Option<ScriptLocation>, search: Search): Wrappers.Option<ScriptLocation> {
    match e
    case None => Wrappers.None
    case Some(l) => Wrappers.Some(Processed(l, search))
  }

  datatype Tally = Tally(success: nat, failed: nat, skipped: nat)

  /** The three counters after the slots `s`. */
  function TallyOf(s: seq<Wrappers.Option<ScriptLocation>>, search: Search): Tally {
    if s == [] then Tally(0, 0, 0)
    else
      var t := TallyOf(s[..|s| - 1], search);
      match s[|s| - 1]
      case None => t
      case Some(l) =>
        match OutcomeOf(l, search)
        case Succeeded => t.(success := t.success + 1)
        case Failed => t.(failed := t.failed + 1)
        case Skipped => t.(skipped := t.skipped + 1)
  }

  /** Whether the script pauses after slot `i` of `s` (given before its turn). */
  predicate PausesAfter(s: seq<Wrappers.Option<ScriptLocation>>, i: nat, search: Search)
    requires i < |s|
  {
    s[i].Some? && i < |s| - 1 && !Wrappers.NumTruthy(Processed(s[i].value, search).latitude)
  }

  /** The pauses among the first `n` slots. */
  function Pauses(s: seq<Wrappers.Option<ScriptLocation>>, n: nat, search: Search): nat
    requires n <= |s|
  {
    if n == 0 then 0 else Pauses(s, n - 1, search) + if PausesAfter(s, n - 1, search) then 1 else 0
  }

  /** The progress saves among the first `n` slots: after each non-`null` slot whose position is a multiple of ten. */
  function Saves(s: seq<Wrappers.Option<ScriptLocation>>, n: nat): nat
    requires n <= |s|
  {
    if n == 0 then 0 else Saves(s, n - 1) + if s[n - 1].Some? && n % 10 == 0 then 1 else 0
  }

  /**
   * The loop of `main`. `saves` counts the progress files written; `pauses` the half-second
   * waits.
   */
  method GeocodeLocations(locations: array<Wrappers.Option<ScriptLocation>>, search: Search)
    returns (successCount: nat, failedCount: nat, skippedCount: nat, ghost pauses: nat, ghost saves: nat)
    modifies locations
    ensures forall j :: 0 <= j < locations.Length ==> locations[j] == Step(old(locations[j]), search)
    ensures Tally(successCount, failedCount, skippedCount) == TallyOf(old(locations[..]), search)
    ensures pauses == Pauses(old(locations[..]), locations.Length, search)
    ensures saves == Saves(old(locations[..]), locations.Length)
  {
    ghost var input := locations[..];
    successCount, failedCount, skippedCount := 0, 0, 0;
    pauses, saves := 0, 0;
    for i := 0 to locations.Length
      invariant |input| == locations.Length && StepsDone(locations[..], input, i, search)
      invariant Tally(successCount, failedCount, skippedCount) == TallyOf(input[..i], search)
      invariant pauses == Pauses(input, i, search)
      invariant saves == Saves(input, i)
    {
      TallyTake(input, i, search);
      CountersStep(input, i, search);
      var entry := locations[i];
      if entry.None? {
        StepKept(locations[..], input, i, search);
        continue;
      }
      var location := entry.value;
      if Wrappers.NumTruthy(location.latitude) && Wrappers.NumTruthy(location.longitude) {
        skippedCount := skippedCount + 1;
        StepKept(locations[..], input, i, search);
      } else {
        var coords := GeocodeRoute.GeocodeAddress(location.address, location.cityName, search);
        if coords.Some? {
          location := location.(latitude := Wrappers.Some(coords.value.latitude), longitude := Wrappers.Some(coords.value.longitude));
          successCount := successCount + 1;
        } else {
          location := location.(latitude := Wrappers.None, longitude := Wrappers.None);
          failedCount := failedCount + 1;
        }
        assert Wrappers.Some(location) == Step(input[i], search);
        StepWritten(locations[..], input, i, search);
        locations[i] := Wrappers.Some(location);
      }
      if (i + 1) % 10 == 0 {
        saves := saves + 1;
      }
      if i < locations.Length - 1 && !Wrappers.NumTruthy(location.latitude) {
        pauses := pauses + 1;
      }
    }
    assert input[..locations.Length] == input;
    assert forall j :: 0 <= j < locations.Length ==> locations[..][j] == locations[j];
  }

  /** The first `i` slots of `a` have had their turn; the others are as in `input`. */
  ghost predicate StepsDone(a: seq<Wrappers.Option<ScriptLocation>>, input: seq<Wrappers.Option<ScriptLocation>>, i: nat, search: Search) {
    |a| == |input| && i <= |a| &&
    (forall j :: 0 <= j < i ==> a[j] == Step(input[j], search)) &&
    (forall j :: i <= j < |a| ==> a[j] == input[j])
  }

  /** A slot its turn leaves as it is. */
  lemma StepKept(a: seq<Wrappers.Option<ScriptLocation>>, input: seq<Wrappers.Option<ScriptLocation>>, i: nat, search: Search)
    requires StepsDone(a, input, i, search) && i < |a| && Step(input[i], search) == input[i]
    ensures StepsDone(a, input, i + 1, search)
  {
  }

  /** A slot its turn writes. */
  lemma StepWritten(a: seq<Wrappers.Option<ScriptLocation>>, input: seq<Wrappers.Option<ScriptLocation>>, i: nat, search: Search)
    requires StepsDone(a, input, i, search) && i < |a|
    ensures StepsDone(a[i := Step(input[i], search)], input, i + 1, search)
  {
  }

  // ---------------------------------------------------------------------------
  // Facts

  lemma TallyTake(s: seq<Wrappers.Option<ScriptLocation>>, i: nat, search: Search)
    requires i < |s|
    ensures TallyOf(s[..i + 1], search) == TallyOf(s[..i], search).(
      success := TallyOf(s[..i], search).success + if s[i].Some? && OutcomeOf(s[i].value, search) == Succeeded then 1 else 0,
      failed := TallyOf(s[..i], search).failed + if s[i].Some? && OutcomeOf(s[i].value, search) == Failed then 1 else 0,
      skipped := TallyOf(s[..i], search).skipped + if s[i].Some? && OutcomeOf(s[i].value, search) == Skipped then 1 else 0)
  {
    assert s[..i + 1][..i] == s[..i];
  }

  lemma CountersStep(s: seq<Wrappers.Option<ScriptLocation>>, i: nat, search: Search)
    requires i < |s|
    ensures Pauses(s, i + 1, search) == Pauses(s, i, search) + if PausesAfter(s, i, search) then 1 else 0
    ensures Saves(s, i + 1) == Saves(s, i) + if s[i].Some? && (i + 1) % 10 == 0 then 1 else 0
  {
  }

  /** The number of entries that are not `null`. */
  function Present(s: seq<Wrappers.Option<ScriptLocation>>): nat {
    if s == [] then 0 else Present(s[..|s| - 1]) + if s[|s| - 1].Some? then 1 else 0
  }

  /** Every entry that is not `null` is counted exactly once. */
  lemma {:induction false} TallyAddsUp(s: seq<Wrappers.Option<ScriptLocation>>, search: Search)
    ensures var t := TallyOf(s, search); t.success + t.failed + t.skipped == Present(s)
  {
    if s != [] {
      TallyAddsUp(s[..|s| - 1], search);
    }
  }

  /** The array's length and order are kept, and each entry keeps its id and every field but the coordinates. */
  lemma OnlyCoordinatesWritten(e: Wrappers.Option<ScriptLocation>, search: Search)
    ensures Step(e, search).Some? <==> e.Some?
    ensures e.Some? ==> Step(e, search).value == e.value.(latitude := Step(e, search).value.latitude, longitude := Step(e, search).value.longitude)
  {
  }

  lemma DivStep(n: nat)
    requires n > 0
    ensures n / 10 == (n - 1) / 10 + if n % 10 == 0 then 1 else 0
  {
    var q, r := (n - 1) / 10, (n - 1) % 10;
    assert n == 10 * q + r + 1;
    if r == 9 {
      assert n == 10 * (q + 1);
    } else {
      assert n == 10 * q + (r + 1) && r + 1 < 10;
    }
  }

  /** Without `null` entries, progress is saved once per ten entries. */
  lemma {:induction false} SavesEveryTen(s: seq<Wrappers.Option<ScriptLocation>>, n: nat)
    requires n <= |s|
    requires forall j :: 0 <= j < |s| ==> s[j].Some?
    ensures Saves(s, n) == n / 10
  {
    if n > 0 {
      SavesEveryTen(s, n - 1);
      DivStep(n);
    }
  }

  /** Neither a skipped nor a successful entry with a non-zero latitude causes a pause. */
  lemma PauseOnlyAfterFalsyLatitude(s: seq<Wrappers.Option<ScriptLocation>>, i: nat, search: Search)
    requires i < |s| && s[i].Some?
    requires OutcomeOf(s[i].value, search) == Skipped ||
             (OutcomeOf(s[i].value, search) == Succeeded &&
              GeocodeRoute.GeocodeAddress(s[i].value.address, s[i].value.cityName, search).value.latitude != 0.0)
    ensures !PausesAfter(s, i, search)
  {
  }

  /** A failed entry that is not the last causes a pause. */
  lemma PauseAfterFailure(s: seq<Wrappers.Option<ScriptLocation>>, i: nat, search: Search)
    requires i < |s| - 1 && s[i].Some? && OutcomeOf(s[i].value, search) == Failed
    ensures PausesAfter(s, i, search)
  {
  }

  /**
   * An entry with a zero coordinate counts as lacking coordinates: it is looked up again
   * rather than skipped.
   */
  lemma ZeroCoordinateLookedUp(l: ScriptLocation, search: Search)
    requires l.latitude == Wrappers.Some(0.0)
    ensures OutcomeOf(l, search) != Skipped
  {
  }
}
