/**
 * The development collector of locations that have no coordinates: a map from location id
 * to an entry with a use count, its sorted view, a CSV export and statistics.
 */
module MissingLocations {
  import Wrappers
  import Seqs
  import Strs
  import Sorting

  /**
   * `MissingLocation`. `firstSeen` is the time stamp of the first add, as given; name,
   * address and city are `None` for `null`.
   */
  datatype MissingLocation = MissingLocation(
    locationId: string,
    locationName: Wrappers.Option<string>,
    address: Wrappers.Option<string>,
    cityName: Wrappers.Option<string>,
    count: nat,
    firstSeen: string)

  /** The entries of the map, in insertion order: no two share an id. */
  predicate IdsDistinct(entries: seq<MissingLocation>) {
    forall i, j :: 0 <= i < j < |entries| ==> entries[i].locationId != entries[j].locationId
  }

  /** `missing.get(locationId)`: the position of the entry with that id, or -1. */
  function FindLocation(entries: seq<MissingLocation>, locationId: string): (r: int)
    ensures -1 <= r < |entries|
    ensures r == -1 <==> forall i :: 0 <= i < |entries| ==> entries[i].locationId != locationId
    ensures r >= 0 ==> entries[r].locationId == locationId
  {
    if entries == [] then -1
    else if entries[|entries| - 1].locationId == locationId then |entries| - 1
    else FindLocation(entries[..|entries| - 1], locationId)
  }

  /** The entries after `add(locationId, locationName, address, cityName)` at time `now`. */
  function Added(entries: seq<MissingLocation>, enabled: bool, locationId: string,
                 locationName: Wrappers.Option<string>, address: Wrappers.Option<string>,
                 cityName: Wrappers.Option<string>, now: string): seq<MissingLocation>
  {
    if !enabled || locationId == "" then entries
    else
      var i := FindLocation(entries, locationId);
      if i >= 0 then entries[i := entries[i].(count := entries[i].count + 1)]
      else entries + [MissingLocation(locationId, locationName, address, cityName, 1, now)]
  }

  function Uses(e: MissingLocation): nat {
    e.count
  }

  /** The sum of the use counts (`reduce((sum, item) => sum + item.count, 0)`). */
  function SumCounts(entries: seq<MissingLocation>): nat {
    Seqs.Sum(Uses, entries)
  }

  function Count(e: MissingLocation): int {
    e.count
  }

  /** `getAll` on the entries: sorted by non-increasing count, ties in insertion order. */
  function SortedLocations(entries: seq<MissingLocation>): (r: seq<MissingLocation>)
    ensures Sorting.SortedDesc(Count, r)
    ensures multiset(r) == multiset(entries)
    ensures |r| == |entries|
  {
    var r := Sorting.SortDesc(Count, entries);
    assert |r| == |multiset(r)| == |multiset(entries)| == |entries|;
    r
  }

  // ---------------------------------------------------------------------------
  // CSV export

  /** The column titles of the CSV header line. */
  const Headers: seq<string> := ["Location ID", "Location Name", "Address", "City", "Count", "First Seen"]

  /** A cell as written to the CSV: `"${cell}"`, with no escaping. */
  function Quote(cell: string): string {
    "\"" + cell + "\""
  }

  /**
   * The six cells of one row; `null` fields become "", and `localeString` stands for
   * `new Date(firstSeen).toLocaleString()`.
   */
  function Cells(loc: MissingLocation, localeString: string -> string): seq<string> {
    [loc.locationId, Wrappers.OrEmpty(loc.locationName), Wrappers.OrEmpty(loc.address),
     Wrappers.OrEmpty(loc.cityName), Strs.NatToString(loc.count), localeString(loc.firstSeen)]
  }

  /** `row.map((cell) => `"${cell}"`).join(',')`. */
  function Row(cells: seq<string>): string {
    Strs.Join(Seqs.Map(Quote, cells), ",")
  }

  function RowOf(localeString: string -> string, loc: MissingLocation): string {
    Row(Cells(loc, localeString))
  }

  function Rows(locations: seq<MissingLocation>, localeString: string -> string): seq<string> {
    Seqs.Map((loc: MissingLocation) => RowOf(localeString, loc), locations)
  }

  /** `exportAsCSV` on the sorted entries: "" when there are none, else a header line and one line per entry. */
  function Csv(locations: seq<MissingLocation>, localeString: string -> string): (r: string)
    ensures r == "" <==> locations == []
  {
    if |locations| == 0 then ""
    else
      var lines := [HeaderLine()] + Rows(locations, localeString);
      assert lines[0] != "";
      Strs.JoinNonEmpty(lines, "\n");
      Strs.Join(lines, "\n")
  }

  /** The result of `getStats`. */
  datatype Stats = Stats(total: nat, totalOccurrences: nat, topLocations: seq<MissingLocation>)

  function Min(a: nat, b: nat): nat {
    if a <= b then a else b
  }

  function StatsOf(entries: seq<MissingLocation>): Stats {
    var all := SortedLocations(entries);
    Stats(|all|, SumCounts(all), all[..Min(10, |all|)])
  }

  class MissingLocationsCollector {
    var missing: seq<MissingLocation>
    const enabled: bool
    /** The adds accepted since construction or the last `clear`. */
    ghost var accepted: nat

    ghost predicate Valid()
      reads this
    {
      IdsDistinct(missing) && SumCounts(missing) == accepted
    }

    /** `enabled` is `NODE_ENV === 'development'`, passed in. */
    constructor(development: bool)
      ensures enabled == development && missing == [] && Valid()
    {
      enabled := development;
      missing := [];
      accepted := 0;
    }

    method Add(locationId: string, locationName: Wrappers.Option<string>, address: Wrappers.Option<string>,
               cityName: Wrappers.Option<string>, now: string)
      requires Valid()
      modifies this
      ensures Valid()
      ensures missing == Added(old(missing), enabled, locationId, locationName, address, cityName, now)
      ensures accepted == old(accepted) + (if enabled && locationId != "" then 1 else 0)
    {
      if !enabled || locationId == "" {
        return;
      }
      AddedIdsDistinct(missing, enabled, locationId, locationName, address, cityName, now);
      AddedCounts(missing, enabled, locationId, locationName, address, cityName, now);
      var i := FindLocation(missing, locationId);
      if i >= 0 {
        missing := missing[i := missing[i].(count := missing[i].count + 1)];
      } else {
        missing := missing + [MissingLocation(locationId, locationName, address, cityName, 1, now)];
      }
      accepted := accepted + 1;
    }

    function GetAll(): (r: seq<MissingLocation>)
      reads this
      ensures Sorting.SortedDesc(Count, r)
      ensures multiset(r) == multiset(missing)
    {
      SortedLocations(missing)
    }

    /** `exportAsCSV`; see `Csv` and the lemmas about it. */
    function ExportAsCSV(localeString: string -> string): (r: string)
      reads this
      ensures r == "" <==> missing == []
    {
      Csv(GetAll(), localeString)
    }

    method Clear()
      modifies this
      ensures missing == [] && accepted == 0 && Valid()
    {
      missing := [];
      accepted := 0;
    }

    function GetStats(): (r: Stats)
      reads this
      ensures r.total == |missing|
      ensures r.totalOccurrences == SumCounts(missing)
      ensures |r.topLocations| == Min(10, r.total) && r.topLocations <= GetAll()
    {
      StatsSound(missing);
      StatsOf(missing)
    }
  }

  // ---------------------------------------------------------------------------
  // add

  /** A disabled collector or an empty id leaves the entries unchanged. */
  lemma AddIgnored(entries: seq<MissingLocation>, enabled: bool, locationId: string,
                   locationName: Wrappers.Option<string>, address: Wrappers.Option<string>,
                   cityName: Wrappers.Option<string>, now: string)
    requires !enabled || locationId == ""
    ensures Added(entries, enabled, locationId, locationName, address, cityName, now) == entries
  {
  }

  /**
   * A repeated id only increments the count of its entry: the name, address, city and
   * first-seen time of the first add are kept, whatever the new call passes.
   */
  lemma AddRepeated(entries: seq<MissingLocation>, locationId: string,
                    locationName: Wrappers.Option<string>, address: Wrappers.Option<string>,
                    cityName: Wrappers.Option<string>, now: string, i: nat)
    requires locationId != "" && i < |entries| && IdsDistinct(entries)
    requires entries[i].locationId == locationId
    ensures var r := Added(entries, true, locationId, locationName, address, cityName, now);
      |r| == |entries| && r[i] == entries[i].(count := entries[i].count + 1) &&
      forall j :: 0 <= j < |entries| && j != i ==> r[j] == entries[j]
  {
    var f := FindLocation(entries, locationId);
    assert f == i;
  }

  /** A new id is appended with count 1 and the time stamp of the call. */
  lemma AddFresh(entries: seq<MissingLocation>, locationId: string,
                 locationName: Wrappers.Option<string>, address: Wrappers.Option<string>,
                 cityName: Wrappers.Option<string>, now: string)
    requires locationId != ""
    requires forall i :: 0 <= i < |entries| ==> entries[i].locationId != locationId
    ensures Added(entries, true, locationId, locationName, address, cityName, now) ==
      entries + [MissingLocation(locationId, locationName, address, cityName, 1, now)]
  {
  }

  lemma AddedIdsDistinct(entries: seq<MissingLocation>, enabled: bool, locationId: string,
                         locationName: Wrappers.Option<string>, address: Wrappers.Option<string>,
                         cityName: Wrappers.Option<string>, now: string)
    requires IdsDistinct(entries)
    ensures IdsDistinct(Added(entries, enabled, locationId, locationName, address, cityName, now))
  {
  }

  /** Every accepted add adds one occurrence; an ignored one adds none. */
  lemma AddedCounts(entries: seq<MissingLocation>, enabled: bool, locationId: string,
                    locationName: Wrappers.Option<string>, address: Wrappers.Option<string>,
                    cityName: Wrappers.Option<string>, now: string)
    ensures SumCounts(Added(entries, enabled, locationId, locationName, address, cityName, now)) ==
      SumCounts(entries) + (if enabled && locationId != "" then 1 else 0)
  {
    if enabled && locationId != "" {
      var i := FindLocation(entries, locationId);
      if i >= 0 {
        Seqs.SumUpdate(Uses, entries, i, entries[i].(count := entries[i].count + 1));
      } else {
        Seqs.SumSnoc(Uses, entries, MissingLocation(locationId, locationName, address, cityName, 1, now));
      }
    }
  }

  // ---------------------------------------------------------------------------
  // Statistics

  /**
   * `total` counts the distinct ids, the occurrences are the sum of the counts, and the top
   * locations are the first min(10, total) of `getAll`, none used less than any left out.
   */
  lemma StatsSound(entries: seq<MissingLocation>)
    ensures StatsOf(entries).total == |entries|
    ensures StatsOf(entries).totalOccurrences == SumCounts(entries)
    ensures var s := StatsOf(entries); var all := SortedLocations(entries);
      |s.topLocations| == Min(10, |entries|) && s.topLocations <= all &&
      forall i, j :: 0 <= i < |s.topLocations| <= j < |all| ==> s.topLocations[i].count >= all[j].count
  {
    Sorting.SumSorted(Count, Uses, entries);
  }

  // ---------------------------------------------------------------------------
  // CSV

  /** A row of six cells, written out: each cell quoted, with commas between. */
  lemma RowOfSix(cells: seq<string>)
    requires |cells| == 6
    ensures Row(cells) == Quote(cells[0]) + "," + Quote(cells[1]) + "," + Quote(cells[2]) + "," +
                          Quote(cells[3]) + "," + Quote(cells[4]) + "," + Quote(cells[5])
  {
    var q := Seqs.Map(Quote, cells);
    assert q[4..][1..] == q[5..] == [q[5]];
    assert q[3..][1..] == q[4..] && q[2..][1..] == q[3..] && q[1..][1..] == q[2..] && q[1..] == q[1..];
    var j4 := q[4] + "," + q[5];
    assert Strs.Join(q[4..], ",") == j4;
    var j3 := q[3] + "," + j4;
    assert Strs.Join(q[3..], ",") == j3;
    var j2 := q[2] + "," + j3;
    assert Strs.Join(q[2..], ",") == j2;
    var j1 := q[1] + "," + j2;
    assert Strs.Join(q[1..], ",") == j1;
    assert Row(cells) == q[0] + "," + j1;
  }

  /** The cells of a location hold no line break apart from what its fields and time stamp bring. */
  predicate NoLineBreaks(loc: MissingLocation, localeString: string -> string) {
    '\n' !in loc.locationId && '\n' !in Wrappers.OrEmpty(loc.locationName) &&
    '\n' !in Wrappers.OrEmpty(loc.address) && '\n' !in Wrappers.OrEmpty(loc.cityName) &&
    '\n' !in localeString(loc.firstSeen)
  }

  lemma RowNoLineBreak(loc: MissingLocation, localeString: string -> string)
    requires NoLineBreaks(loc, localeString)
    ensures '\n' !in RowOf(localeString, loc)
  {
    var c := Cells(loc, localeString);
    RowOfSix(c);
    assert forall i :: 0 <= i < |c[4]| ==> '0' <= c[4][i] <= '9';
  }

  /**
   * With no line breaks inside cells, the CSV export is exactly its header line followed by
   * one line per location, in the order given.
   */
  lemma CsvLines(locations: seq<MissingLocation>, localeString: string -> string)
    requires locations != []
    requires forall i :: 0 <= i < |locations| ==> NoLineBreaks(locations[i], localeString)
    ensures Strs.Split(Csv(locations, localeString), '\n') == [HeaderLine()] + Rows(locations, localeString)
  {
    var rows := Rows(locations, localeString);
    var lines := [HeaderLine()] + rows;
    forall i | 0 <= i < |lines|
      ensures '\n' !in lines[i]
    {
      if i > 0 {
        assert lines[i] == rows[i - 1] == RowOf(localeString, locations[i - 1]);
        RowNoLineBreak(locations[i - 1], localeString);
      }
    }
    Strs.SplitJoin(lines, '\n');
  }

  /** The header line: the column titles joined by commas. */
  function HeaderLine(): (r: string)
    ensures '\n' !in r
  {
    Strs.JoinAvoids(Headers, ",", '\n');
    Strs.Join(Headers, ",")
  }
}
