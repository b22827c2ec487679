/**
 * The coordinate import script: it reads geocoded locations, reports statistics, and
 * prints the updates for the successfully geocoded ones as GraphQL mutations, SQL
 * statements or a JSON patch, as the command-line flags select. What it prints is modelled
 * as the list of lines it logs; how JavaScript prints a number is the oracle `show`.
 */
module ImportCoordinates {
  import Wrappers
  import Seqs
  import Strs

  datatype ImportedLocation = ImportedLocation(
    locationId: string, locationName: Wrappers.Option<string>, address: Wrappers.Option<string>,
    cityName: Wrappers.Option<string>, latitude: Wrappers.Option<real>, longitude: Wrappers.Option<real>,
    geocoded: bool)

  /** `loc.latitude && loc.longitude`. */
  predicate HasCoords(loc: ImportedLocation) {
    Wrappers.NumTruthy(loc.latitude) && Wrappers.NumTruthy(loc.longitude)
  }

  /** `loc.geocoded && loc.latitude && loc.longitude`. */
  predicate Importable(loc: ImportedLocation) {
    loc.geocoded && HasCoords(loc)
  }

  /** `successful`: the importable locations, in input order. */
  function Successful(locations: seq<ImportedLocation>): (r: seq<ImportedLocation>)
    ensures forall i :: 0 <= i < |r| ==> Importable(r[i])
    ensures forall loc :: loc in r <==> loc in locations && Importable(loc)
    ensures Seqs.IsSubseq(r, locations)
  {
    Seqs.FilterMembers(Importable, locations);
    Seqs.FilterIsSubseq(Importable, locations);
    Seqs.Filter(Importable, locations)
  }

  // ---------------------------------------------------------------------------
  // GraphQL

  /** The alias of the `index`-th mutation. */
  function Alias(index: nat): string {
    "updateLocation" + Strs.NatToString(index)
  }

  /** One mutation of the block, for an importable location. */
  function Mutation(index: nat, loc: ImportedLocation, show: real -> string): (r: string)
    requires Importable(loc)
    ensures "  " + Alias(index) + ": updateLocation(\n" <= r
    ensures Strs.Contains(r, "id: \"" + loc.locationId + "\"")
    ensures Strs.Contains(r, "latitude: " + show(loc.latitude.value))
    ensures Strs.Contains(r, "longitude: " + show(loc.longitude.value))
  {
    var head := "  " + Alias(index) + ": updateLocation(\n";
    var id := "id: \"" + loc.locationId + "\"";
    var lat := "latitude: " + show(loc.latitude.value);
    var lon := "longitude: " + show(loc.longitude.value);
    Strs.ContainsEvenPieces(head + "    ", id, "\n    data: {\n      ", lat, "\n      ", lon,
                            "\n    }\n  ) {\n    id\n    name\n    latitude\n    longitude\n  }");
    head + "    " + id + "\n    data: {\n      " + lat + "\n      " + lon +
    "\n    }\n  ) {\n    id\n    name\n    latitude\n    longitude\n  }"
  }

  function Mutations(successful: seq<ImportedLocation>, show: real -> string): (r: seq<string>)
    requires forall i :: 0 <= i < |successful| ==> Importable(successful[i])
    ensures |r| == |successful|
    ensures forall i :: 0 <= i < |r| ==> r[i] == Mutation(i, successful[i], show)
  {
    seq(|successful|, i requires 0 <= i < |successful| => Mutation(i, successful[i], show))
  }

  /** What `generateGraphQLMutations` logs. */
  function GraphQLOutput(locations: seq<ImportedLocation>, show: real -> string): (r: seq<string>)
    ensures |r| == |Successful(locations)| + 5
    ensures r[2] == "mutation UpdateLocationCoordinates {" && r[|r| - 2] == "}\n"
    ensures r[|r| - 1] == "\n✅ Generated " + Strs.NatToString(|Successful(locations)|) + " mutations"
    ensures r[3..|r| - 2] == Mutations(Successful(locations), show)
  {
    var successful := Successful(locations);
    var head := ["\n📝 GraphQL Mutations\n", "Copy and paste these into your GraphQL playground or backend:\n",
                 "mutation UpdateLocationCoordinates {"];
    var ms := Mutations(successful, show);
    var tail := ["}\n", "\n✅ Generated " + Strs.NatToString(|successful|) + " mutations"];
    assert (head + ms + tail)[3..|head + ms + tail| - 2] == ms;
    head + ms + tail
  }

  // ---------------------------------------------------------------------------
  // SQL

  /** The update of one importable location. */
  function Statement(loc: ImportedLocation, show: real -> string): (r: string)
    requires Importable(loc)
    ensures "UPDATE locations\nSET\n" <= r
    ensures Strs.Contains(r, "latitude = " + show(loc.latitude.value))
    ensures Strs.Contains(r, "longitude = " + show(loc.longitude.value))
    ensures Strs.Contains(r, "WHERE id = '" + loc.locationId + "'")
  {
    var lat := "latitude = " + show(loc.latitude.value);
    var lon := "longitude = " + show(loc.longitude.value);
    var where := "WHERE id = '" + loc.locationId + "'";
    Strs.ContainsEvenPieces("UPDATE locations\nSET\n  ", lat, ",\n  ", lon, ",\n  updated_at = NOW()\n", where, ";\n");
    "UPDATE locations\nSET\n  " + lat + ",\n  " + lon + ",\n  updated_at = NOW()\n" + where + ";\n"
  }

  /** What `generateSQLStatements` logs. */
  function SqlOutput(locations: seq<ImportedLocation>, show: real -> string): (r: seq<string>)
    ensures |r| == |Successful(locations)| + 5
    ensures r[2] == "BEGIN;\n" && r[|r| - 2] == "COMMIT;\n"
    ensures r[|r| - 1] == "\n✅ Generated " + Strs.NatToString(|Successful(locations)|) + " SQL statements"
    ensures forall k :: 0 <= k < |Successful(locations)| ==> r[k + 3] == Statement(Successful(locations)[k], show)
  {
    var successful := Successful(locations);
    ["\n📝 SQL UPDATE Statements\n", "-- Run these in your database client:\n", "BEGIN;\n"] +
    seq(|successful|, i requires 0 <= i < |successful| => Statement(successful[i], show)) +
    ["COMMIT;\n", "\n✅ Generated " + Strs.NatToString(|successful|) + " SQL statements"]
  }

  // ---------------------------------------------------------------------------
  // JSON

  datatype Update = Update(id: string, latitude: real, longitude: real)

  function UpdateOf(loc: ImportedLocation): Update
    requires Importable(loc)
  {
    Update(loc.locationId, loc.latitude.value, loc.longitude.value)
  }

  /** `updates` of `generateJSONPatch`: one entry per importable location, in order. */
  function JsonPatch(locations: seq<ImportedLocation>): (r: seq<Update>)
    ensures |r| == |Successful(locations)|
    ensures forall i :: 0 <= i < |r| ==>
      var loc := Successful(locations)[i];
      r[i] == Update(loc.locationId, loc.latitude.value, loc.longitude.value)
  {
    var successful := Successful(locations);
    seq(|successful|, i requires 0 <= i < |successful| => UpdateOf(successful[i]))
  }

  // ---------------------------------------------------------------------------
  // Statistics

  datatype Statistics = Statistics(total: nat, successful: nat, failed: nat, withCoords: nat)

  predicate IsGeocoded(loc: ImportedLocation) { loc.geocoded }

  /** `showStatistics`' numbers; the list of failed locations it also prints is not modelled. */
  function StatisticsOf(locations: seq<ImportedLocation>): (r: Statistics)
    ensures r.total == |locations|
    ensures r.successful + r.failed == r.total
    ensures |Successful(locations)| <= r.successful && |Successful(locations)| <= r.withCoords
    ensures r.withCoords <= r.total
  {
    Seqs.FilterComplement(IsGeocoded, locations);
    Seqs.FilterLengthMono(Importable, IsGeocoded, locations);
    Seqs.FilterLengthMono(Importable, HasCoords, locations);
    Statistics(|locations|, Seqs.Count(IsGeocoded, locations),
               Seqs.Count(Seqs.Not(IsGeocoded), locations),
               Seqs.Count(HasCoords, locations))
  }

  // ---------------------------------------------------------------------------
  // Command line

  datatype Format = Sql | Json | GraphQL

  predicate IsFlag(arg: string) { Strs.StartsWith(arg, "--") }

  function Flags(argv: seq<string>): seq<string> { Seqs.Filter(IsFlag, argv) }

  function Positional(argv: seq<string>): seq<string> { Seqs.Filter(Seqs.Not(IsFlag), argv) }

  /** `--sql` wins over `--json`, which wins over the default GraphQL. */
  function FormatOf(flags: seq<string>): (r: Format)
    ensures r == Sql <==> "--sql" in flags
    ensures r == Json <==> "--sql" !in flags && "--json" in flags
    ensures r == GraphQL <==> "--sql" !in flags && "--json" !in flags
  {
    if "--sql" in flags then Sql else if "--json" in flags then Json else GraphQL
  }

  function Output(format: Format, locations: seq<ImportedLocation>, show: real -> string): seq<string> {
    match format
    case Sql => SqlOutput(locations, show)
    case Json =>
      // the `JSON.stringify` of the patch between these lines is carried as `RunResult.patch`
      ["\n📝 JSON Batch Update Format\n", "Use this with your backend API:\n",
       "\n✅ Generated " + Strs.NatToString(|Successful(locations)|) + " updates"]
    case GraphQL => GraphQLOutput(locations, show)
  }

  /** How a run ends: exit code 1 without an input file or when it cannot be read. */
  datatype RunResult =
    | UsageError
    | ReadError
    | Imported(statistics: Statistics, dryRun: bool, format: Format, patch: seq<Update>, output: seq<string>)

  /**
   * `main`: `argv` are the arguments after the script name, and `read` stands for reading
   * and parsing a file (`None` when either fails).
   */
  function Run(argv: seq<string>, read: string -> Wrappers.Option<seq<ImportedLocation>>, show: real -> string): (r: RunResult)
    ensures r.UsageError? <==> Positional(argv) == []
    ensures r.ReadError? <==> Positional(argv) != [] && read(Positional(argv)[0]).None?
    ensures r.Imported? ==>
      read(Positional(argv)[0]).Some? && r.format == FormatOf(Flags(argv)) && r.dryRun == ("--dry-run" in Flags(argv))
  {
    var args, flags := Positional(argv), Flags(argv);
    if |args| < 1 then UsageError
    else match read(args[0])
      case None => ReadError
      case Some(locations) =>
        var format := FormatOf(flags);
        var patch := if format == Json then JsonPatch(locations) else [];
        Imported(StatisticsOf(locations), "--dry-run" in flags, format, patch, Output(format, locations, show))
  }

  function ExitCode(r: RunResult): (code: nat)
    ensures code == 0 <==> r.Imported?
    ensures code <= 1
  {
    if r.Imported? then 0 else 1
  }

  // ---------------------------------------------------------------------------
  // Facts

  /** The `k`-th mutation carries alias `updateLocation<k>` and the `k`-th importable location's id. */
  lemma MutationsInOrder(locations: seq<ImportedLocation>, show: real -> string, k: nat)
    requires k < |Successful(locations)|
    ensures var out := GraphQLOutput(locations, show);
      |out| == |Successful(locations)| + 5 && out[k + 3] == Mutation(k, Successful(locations)[k], show)
  {
  }

  /** Distinct positions get distinct aliases. */
  lemma AliasesDistinct(j: nat, k: nat)
    requires j != k
    ensures Alias(j) != Alias(k)
  {
    if Alias(j) == Alias(k) {
      var p := "updateLocation";
      assert Alias(j)[|p|..] == Strs.NatToString(j);
      assert Alias(k)[|p|..] == Strs.NatToString(k);
      Strs.NatToStringInjective(j, k);
    }
  }

  /** `withCoords` does not look at `geocoded`: a located but not geocoded entry counts there and as failed. */
  lemma WithCoordsIgnoresGeocoded(loc: ImportedLocation)
    requires HasCoords(loc) && !loc.geocoded
    ensures StatisticsOf([loc]) == Statistics(1, 0, 1, 1)
    ensures Successful([loc]) == []
  {
    assert [loc][1..] == [];
  }

  /** `withCoords` reads only the coordinates: lists that agree on them agree on the count. */
  lemma WithCoordsOnlyCoordinates(a: seq<ImportedLocation>, b: seq<ImportedLocation>)
    requires |a| == |b|
    requires forall i :: 0 <= i < |a| ==> a[i].latitude == b[i].latitude && a[i].longitude == b[i].longitude
    ensures StatisticsOf(a).withCoords == StatisticsOf(b).withCoords
  {
    Seqs.FilterLengthAgree(HasCoords, HasCoords, a, b);
  }

  /** One location's statistics: `successful` iff geocoded, `failed` otherwise, `withCoords` iff both coordinates are truthy. */
  lemma StatisticsOfOne(loc: ImportedLocation)
    ensures StatisticsOf([loc]) ==
      Statistics(1, if loc.geocoded then 1 else 0, if loc.geocoded then 0 else 1, if HasCoords(loc) then 1 else 0)
  {
    assert [loc][1..] == [];
  }

  /** The statistics of two lists together are the sums of theirs, so `StatisticsOfOne` determines every list's. */
  lemma StatisticsAppend(a: seq<ImportedLocation>, b: seq<ImportedLocation>)
    ensures StatisticsOf(a + b).successful == StatisticsOf(a).successful + StatisticsOf(b).successful
    ensures StatisticsOf(a + b).failed == StatisticsOf(a).failed + StatisticsOf(b).failed
    ensures StatisticsOf(a + b).withCoords == StatisticsOf(a).withCoords + StatisticsOf(b).withCoords
  {
    Seqs.FilterAppend(IsGeocoded, a, b);
    Seqs.FilterAppend(Seqs.Not(IsGeocoded), a, b);
    Seqs.FilterAppend(HasCoords, a, b);
  }

  /** `successful` and `failed` read only the `geocoded` flags. */
  lemma SuccessfulOnlyGeocoded(a: seq<ImportedLocation>, b: seq<ImportedLocation>)
    requires |a| == |b|
    requires forall i :: 0 <= i < |a| ==> a[i].geocoded == b[i].geocoded
    ensures StatisticsOf(a).successful == StatisticsOf(b).successful
    ensures StatisticsOf(a).failed == StatisticsOf(b).failed
  {
    Seqs.FilterLengthAgree(IsGeocoded, IsGeocoded, a, b);
  }

  /** A geocoded entry at latitude 0 counts as successful but is not imported and has no coordinates. */
  lemma GeocodedAtZeroLatitude(loc: ImportedLocation)
    requires loc.geocoded && loc.latitude == Wrappers.Some(0.0)
    ensures StatisticsOf([loc]) == Statistics(1, 1, 0, 0)
    ensures Successful([loc]) == []
  {
    assert [loc][1..] == [];
  }

  /** Every argument is either a flag or positional. */
  lemma ArgumentsPartitioned(argv: seq<string>)
    ensures |Flags(argv)| + |Positional(argv)| == |argv|
    ensures forall a :: a in argv <==> a in Flags(argv) || a in Positional(argv)
  {
    Seqs.FilterComplement(IsFlag, argv);
    Seqs.FilterMembers(IsFlag, argv);
    Seqs.FilterMembers(Seqs.Not(IsFlag), argv);
  }

  /** Extra arguments that are not flags do not change which file is read. */
  lemma {:induction false} FirstPositionalIsInput(argv: seq<string>, extra: seq<string>)
    requires Positional(argv) != []
    ensures Positional(argv + extra) != [] && Positional(argv + extra)[0] == Positional(argv)[0]
  {
    Seqs.FilterAppend(Seqs.Not(IsFlag), argv, extra);
  }

  /** `--dry-run` only adds a banner: with or without it, a run computes and prints the same. */
  lemma DryRunChangesNothing(argv: seq<string>, read: string -> Wrappers.Option<seq<ImportedLocation>>, show: real -> string)
    ensures var a, b := Run(argv, read, show), Run(argv + ["--dry-run"], read, show);
      (a.Imported? <==> b.Imported?) &&
      (a.Imported? ==> b.dryRun && a.statistics == b.statistics && a.format == b.format &&
                       a.patch == b.patch && a.output == b.output)
  {
    var d := ["--dry-run"];
    Seqs.FilterAppend(Seqs.Not(IsFlag), argv, d);
    Seqs.FilterAppend(IsFlag, argv, d);
    assert IsFlag("--dry-run");
    assert d[1..] == [];
    assert Positional(d) == [];
    assert Flags(d) == d;
    assert Positional(argv + d) == Positional(argv);
    assert Flags(argv + d) == Flags(argv) + d;
    assert "--sql" in Flags(argv + d) <==> "--sql" in Flags(argv);
    assert "--json" in Flags(argv + d) <==> "--json" in Flags(argv);
  }
}
