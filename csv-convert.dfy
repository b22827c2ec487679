/**
 * The converter from the missing-locations CSV to location records: drop the header line
 * and blank lines, match each remaining line against four quoted, comma-separated fields,
 * and keep the lines that match.
 */
module CsvConvert {
  import Wrappers
  import Seqs
  import Strs
  import MissingLocations

  /** The record written for each matching line. */
  datatype LocationRecord = LocationRecord(locationId: string, locationName: string, address: string, cityName: string)

  predicate QuoteFree(s: string) {
    '"' !in s
  }

  // ---------------------------------------------------------------------------
  // The regular expression /"([^"]*)","([^"]*)","([^"]*)","([^"]*)"/

  /** The text from the first field on in which `fields` are matched: `f1","f2",…"`. */
  function Tail(fields: seq<string>): string
    requires fields != []
  {
    fields[0] + (if |fields| == 1 then "\"" else "\",\"" + Tail(fields[1..]))
  }

  /** The text the regular expression matches when it captures `fields`. */
  function Pattern(fields: seq<string>): string
    requires fields != []
  {
    "\"" + Tail(fields)
  }

  /** The text `t` occurs in `s` from position `i` on, character by character. */
  predicate At(s: string, i: nat, t: string)
    decreases |t|
  {
    t == [] || (i < |s| && s[i] == t[0] && At(s, i + 1, t[1..]))
  }

  /** The regular expression matches `s` at position `k`, capturing `fields`. */
  predicate MatchesAt(s: string, k: nat, fields: seq<string>) {
    |fields| == 4 && (forall i :: 0 <= i < 4 ==> QuoteFree(fields[i])) && At(s, k, Pattern(fields))
  }

  /** The end of the `[^"]*` run from `i`: the next quote, or the end of `s`. */
  function FieldEnd(s: string, i: nat): (j: nat)
    requires i <= |s|
    ensures i <= j <= |s| && (j < |s| ==> s[j] == '"') && QuoteFree(s[i..j])
    decreases |s| - i
  {
    if i == |s| || s[i] == '"' then i
    else
      var j := FieldEnd(s, i + 1);
      assert s[i..j] == [s[i]] + s[i + 1..j];
      j
  }

  /**
   * Matching from just after an opening quote: `n` runs of non-quotes, separated by
   * `","` and closed by `"`. A run cannot stop before a quote, so there is at most one way.
   */
  function FieldsFrom(s: string, i: nat, n: nat): (r: Wrappers.Option<seq<string>>)
    requires i <= |s| && n >= 1
    ensures r.Some? ==> |r.value| == n
    decreases n
  {
    var j := FieldEnd(s, i);
    if j == |s| then Wrappers.None
    else if n == 1 then Wrappers.Some([s[i..j]])
    else if SeparatorAt(s, j) then
      match FieldsFrom(s, j + 3, n - 1)
      case None => Wrappers.None
      case Some(rest) => Wrappers.Some([s[i..j]] + rest)
    else Wrappers.None
  }

  /** The `","` that separates two quoted fields starts at `j`. */
  predicate SeparatorAt(s: string, j: nat) {
    j + 3 <= |s| && s[j..j + 3] == "\",\""
  }

  /** The match that starts at position `k`, if any. */
  function MatchAt(s: string, k: nat): (r: Wrappers.Option<seq<string>>)
    requires k <= |s|
    ensures r.Some? ==> |r.value| == 4
  {
    if k < |s| && s[k] == '"' then FieldsFrom(s, k + 1, 4) else Wrappers.None
  }

  /** `line.match(regex)` searching from `k`: the leftmost match. */
  function FirstMatch(s: string, k: nat): (r: Wrappers.Option<seq<string>>)
    requires k <= |s|
    ensures r.Some? ==> |r.value| == 4
    decreases |s| - k
  {
    if k == |s| then Wrappers.None
    else if MatchAt(s, k).Some? then MatchAt(s, k)
    else FirstMatch(s, k + 1)
  }

  // ---------------------------------------------------------------------------
  // The converter

  /** The mapping step: the record built from the first match, or `null`. */
  function ParseLine(line: string): (r: Wrappers.Option<LocationRecord>)
    ensures r.Some? <==> FirstMatch(line, 0).Some?
  {
    match FirstMatch(line, 0)
    case None => Wrappers.None
    case Some(m) => Wrappers.Some(LocationRecord(m[0], m[1], m[2], m[3]))
  }

  /** `filter(Boolean)` on the mapped lines: the records, without the `null`s. */
  function Present<T>(xs: seq<Wrappers.Option<T>>): seq<T> {
    if xs == [] then []
    else (if xs[0].Some? then [xs[0].value] else []) + Present(xs[1..])
  }

  /** `line.trim()` is truthy. */
  predicate NonBlank(line: string) {
    Strs.Trim(line) != ""
  }

  /** The lines of the file after the header. */
  function BodyLines(csv: string): seq<string> {
    Strs.Split(csv, '\n')[1..]
  }

  /**
   * The converter, from the file's text to the records it writes: in line order, the record of
   * every line after the first that the regular expression matches, and nothing else.
   */
  function Convert(csv: string): (r: seq<LocationRecord>)
    ensures r == Present(Seqs.Map(ParseLine, BodyLines(csv)))
  {
    BlankFilterRedundant(BodyLines(csv));
    Present(Seqs.Map(ParseLine, Seqs.Filter(NonBlank, BodyLines(csv))))
  }

  // ---------------------------------------------------------------------------
  // The matcher agrees with the pattern

  /** `t` occurs at `i` exactly when the slice of `s` there is `t`. */
  lemma {:induction false} AtSlice(s: string, i: nat, t: string)
    requires i <= |s|
    ensures At(s, i, t) <==> i + |t| <= |s| && s[i..i + |t|] == t
    decreases |t|
  {
    if t != [] && i < |s| {
      AtSlice(s, i + 1, t[1..]);
      if i + |t| <= |s| {
        var w := s[i..i + |t|];
        assert w == [s[i]] + s[i + 1..i + 1 + |t[1..]|];
        assert t == [t[0]] + t[1..];
        if At(s, i, t) {
          assert w == t;
        }
        if w == t {
          assert s[i] == w[0] == t[0];
          assert s[i + 1..i + 1 + |t[1..]|] == w[1..] == t[1..];
        }
      }
    }
  }

  /** A concatenation occurs where its first part does and its second part follows. */
  lemma {:induction false} AtConcat(s: string, i: nat, a: string, b: string)
    ensures At(s, i, a + b) <==> At(s, i, a) && At(s, i + |a|, b)
    decreases |a|
  {
    if a == [] {
      assert a + b == b;
    } else {
      assert (a + b)[0] == a[0] && (a + b)[1..] == a[1..] + b;
      AtConcat(s, i + 1, a[1..], b);
    }
  }

  /** A run of non-quotes followed by a quote ends at that quote. */
  lemma {:induction false} FieldEndAt(s: string, i: nat, f: string)
    requires At(s, i, f + "\"") && QuoteFree(f)
    ensures FieldEnd(s, i) == i + |f| < |s|
    decreases |f|
  {
    assert (f + "\"")[0] == if f == [] then '"' else f[0];
    if f != [] {
      assert (f + "\"")[1..] == f[1..] + "\"";
      FieldEndAt(s, i + 1, f[1..]);
    }
  }

  /** One field of the pattern, closed by a quote: where the matcher's run stops, and what follows. */
  lemma FieldStep(s: string, i: nat, f: string, after: string)
    requires i <= |s| && QuoteFree(f) && after != [] && after[0] == '"'
    requires At(s, i, f + after)
    ensures FieldEnd(s, i) == i + |f| < |s| && s[i..i + |f|] == f && At(s, i + |f|, after)
  {
    AtConcat(s, i, f, after);
    AtSlice(s, i, f);
    assert after == "\"" + after[1..];
    AtConcat(s, i + |f|, "\"", after[1..]);
    AtConcat(s, i, f, "\"");
    FieldEndAt(s, i, f);
  }

  /** The separator `","` between two fields. */
  lemma SeparatorStep(s: string, j: nat, t: string)
    requires j <= |s|
    ensures At(s, j, "\",\"" + t) <==> SeparatorAt(s, j) && At(s, j + 3, t)
  {
    AtConcat(s, j, "\",\"", t);
    AtSlice(s, j, "\",\"");
  }

  /** How the matcher goes on after a field and a separator. */
  lemma FieldsFromStep(s: string, i: nat, n: nat, rest: seq<string>)
    requires i <= |s| && n >= 2
    requires FieldEnd(s, i) < |s| && SeparatorAt(s, FieldEnd(s, i))
    requires FieldsFrom(s, FieldEnd(s, i) + 3, n - 1) == Wrappers.Some(rest)
    ensures FieldsFrom(s, i, n) == Wrappers.Some([s[i..FieldEnd(s, i)]] + rest)
  {
  }

  lemma {:induction false} FieldsFromComplete(s: string, i: nat, fields: seq<string>)
    requires i <= |s| && fields != []
    requires forall m :: 0 <= m < |fields| ==> QuoteFree(fields[m])
    requires At(s, i, Tail(fields))
    ensures FieldsFrom(s, i, |fields|) == Wrappers.Some(fields)
    decreases |fields|
  {
    var f := fields[0];
    assert QuoteFree(f);
    if |fields| == 1 {
      assert FieldEnd(s, i) == i + |f| < |s| && s[i..i + |f|] == f by {
        FieldStep(s, i, f, "\"");
      }
      assert fields == [f];
    } else {
      var rest := fields[1..];
      var j := i + |f|;
      assert Tail(fields) == f + ("\",\"" + Tail(rest));
      assert FieldEnd(s, i) == j && s[i..j] == f && SeparatorAt(s, j) && At(s, j + 3, Tail(rest)) by {
        FieldStep(s, i, f, "\",\"" + Tail(rest));
        SeparatorStep(s, j, Tail(rest));
      }
      assert FieldsFrom(s, j + 3, |rest|) == Wrappers.Some(rest) by {
        forall m | 0 <= m < |rest| ensures QuoteFree(rest[m]) {
          assert rest[m] == fields[m + 1];
        }
        FieldsFromComplete(s, j + 3, rest);
      }
      FieldsFromStep(s, i, |fields|, rest);
      assert [f] + rest == fields;
    }
  }

  lemma {:induction false} FieldsFromSound(s: string, i: nat, n: nat)
    requires i <= |s| && n >= 1 && FieldsFrom(s, i, n).Some?
    ensures var fields := FieldsFrom(s, i, n).value;
      (forall m :: 0 <= m < |fields| ==> QuoteFree(fields[m])) && At(s, i, Tail(fields))
    decreases n
  {
    var fields := FieldsFrom(s, i, n).value;
    var j := FieldEnd(s, i);
    var f := s[i..j];
    assert At(s, i, f) by {
      AtSlice(s, i, f);
    }
    if n == 1 {
      assert fields == [f] && Tail(fields) == f + "\"";
      assert At(s, j, "\"") by {
        AtSlice(s, j, "\"");
      }
      assert At(s, i, f + "\"") by {
        assert i + |f| == j;
        AtConcat(s, i, f, "\"");
      }
    } else {
      var rest := FieldsFrom(s, j + 3, n - 1).value;
      assert fields == [f] + rest;
      assert (forall m :: 0 <= m < |rest| ==> QuoteFree(rest[m])) && At(s, j + 3, Tail(rest)) by {
        FieldsFromSound(s, j + 3, n - 1);
      }
      assert Tail(fields) == f + ("\",\"" + Tail(rest)) by {
        assert fields[1..] == rest;
      }
      assert At(s, j, "\",\"" + Tail(rest)) by {
        SeparatorStep(s, j, Tail(rest));
      }
      assert At(s, i, f + ("\",\"" + Tail(rest))) by {
        assert i + |f| == j;
        AtConcat(s, i, f, "\",\"" + Tail(rest));
      }
      forall m | 0 <= m < |fields| ensures QuoteFree(fields[m]) {
        if m > 0 {
          assert fields[m] == rest[m - 1];
        }
      }
    }
  }

  /** The matcher at one position finds exactly the captures of the pattern there. */
  lemma MatchAtIff(s: string, k: nat, fields: seq<string>)
    requires k <= |s|
    ensures MatchAt(s, k) == Wrappers.Some(fields) <==> MatchesAt(s, k, fields)
  {
    if MatchAt(s, k) == Wrappers.Some(fields) {
      FieldsFromSound(s, k + 1, 4);
      AtConcat(s, k, "\"", Tail(fields));
    }
    if MatchesAt(s, k, fields) {
      AtConcat(s, k, "\"", Tail(fields));
      FieldsFromComplete(s, k + 1, fields);
    }
  }

  /** `match` returns the leftmost match: none before it, and none at all when it fails. */
  lemma FirstMatchLeftmost(s: string, k: nat)
    requires k <= |s|
    ensures FirstMatch(s, k).None? <==> forall p :: k <= p <= |s| ==> MatchAt(s, p).None?
    ensures FirstMatch(s, k).Some? ==>
      exists p :: k <= p < |s| && FirstMatch(s, k) == MatchAt(s, p) && forall q :: k <= q < p ==> MatchAt(s, q).None?
  {
    FirstMatchNone(s, k);
    if FirstMatch(s, k).Some? {
      FirstMatchFirst(s, k);
    }
  }

  lemma {:induction false} FirstMatchNone(s: string, k: nat)
    requires k <= |s|
    ensures FirstMatch(s, k).None? <==> forall p :: k <= p <= |s| ==> MatchAt(s, p).None?
    decreases |s| - k
  {
    if k < |s| && MatchAt(s, k).None? {
      FirstMatchNone(s, k + 1);
    }
  }

  lemma {:induction false} FirstMatchFirst(s: string, k: nat)
    requires k <= |s| && FirstMatch(s, k).Some?
    ensures exists p :: k <= p < |s| && FirstMatch(s, k) == MatchAt(s, p) && forall q :: k <= q < p ==> MatchAt(s, q).None?
    decreases |s| - k
  {
    assert k < |s|;
    var here := MatchAt(s, k);
    if here.None? {
      assert FirstMatch(s, k) == FirstMatch(s, k + 1);
      FirstMatchFirst(s, k + 1);
      var p :| k + 1 <= p < |s| && FirstMatch(s, k + 1) == MatchAt(s, p) &&
        forall q :: k + 1 <= q < p ==> MatchAt(s, q).None?;
      assert forall q :: k <= q < p ==> MatchAt(s, q).None? by {
        forall q | k <= q < p ensures MatchAt(s, q).None? {
          if q == k {
            assert MatchAt(s, q) == here;
          }
        }
      }
      assert k <= p < |s| && FirstMatch(s, k) == MatchAt(s, p);
    } else {
      assert FirstMatch(s, k) == here;
      assert k <= k < |s| && FirstMatch(s, k) == MatchAt(s, k);
    }
  }

  /** A line that starts with the pattern yields the record of its captures. */
  lemma ParseAtStart(line: string, fields: seq<string>)
    requires MatchesAt(line, 0, fields)
    ensures ParseLine(line) == Wrappers.Some(LocationRecord(fields[0], fields[1], fields[2], fields[3]))
  {
    MatchAtIff(line, 0, fields);
  }

  // ---------------------------------------------------------------------------
  // The converter's pipeline

  /** A blank line has no quote, so the regular expression never matches it. */
  lemma BlankLineDoesNotMatch(line: string)
    requires !NonBlank(line)
    ensures ParseLine(line).None?
  {
    forall p | 0 <= p < |line|
      ensures line[p] != '"'
    {
      if line[p] == '"' {
        Strs.TrimKeepsNonSpace(line, p);
      }
    }
    FirstMatchLeftmost(line, 0);
  }

  /** Dropping lines that map to nothing does not change what is kept. */
  lemma {:induction false} PresentFilterRedundant<T, U>(f: T -> Wrappers.Option<U>, p: T -> bool, xs: seq<T>)
    requires forall x :: !p(x) ==> f(x).None?
    ensures Present(Seqs.Map(f, Seqs.Filter(p, xs))) == Present(Seqs.Map(f, xs))
  {
    if xs != [] {
      PresentFilterRedundant(f, p, xs[1..]);
      assert Seqs.Map(f, xs)[1..] == Seqs.Map(f, xs[1..]);
      var kept := Seqs.Filter(p, xs);
      if p(xs[0]) {
        assert kept == [xs[0]] + Seqs.Filter(p, xs[1..]);
        assert Seqs.Map(f, kept)[1..] == Seqs.Map(f, Seqs.Filter(p, xs[1..]));
      } else {
        assert kept == Seqs.Filter(p, xs[1..]);
        assert Seqs.Map(f, xs)[0].None?;
      }
    }
  }

  /** What survives a map and a `filter(Boolean)`: the values of the elements that map to some. */
  lemma PresentMapMembers<T, U>(f: T -> Wrappers.Option<U>, xs: seq<T>, y: U)
    ensures y in Present(Seqs.Map(f, xs)) <==> exists i :: 0 <= i < |xs| && f(xs[i]) == Wrappers.Some(y)
  {
    PresentMembers(Seqs.Map(f, xs), y);
    if exists i :: 0 <= i < |xs| && f(xs[i]) == Wrappers.Some(y) {
      var i :| 0 <= i < |xs| && f(xs[i]) == Wrappers.Some(y);
      assert Seqs.Map(f, xs)[i] == Wrappers.Some(y);
    }
  }

  /** The records of the lines that match, in line order. */
  lemma BlankFilterRedundant(lines: seq<string>)
    ensures Present(Seqs.Map(ParseLine, Seqs.Filter(NonBlank, lines))) == Present(Seqs.Map(ParseLine, lines))
  {
    forall line | !NonBlank(line)
      ensures ParseLine(line).None?
    {
      BlankLineDoesNotMatch(line);
    }
    PresentFilterRedundant(ParseLine, NonBlank, lines);
  }

  /** A record is written exactly when some line after the first yields it. */
  lemma ConvertMembers(csv: string, r: LocationRecord)
    ensures r in Convert(csv) <==> exists i :: 1 <= i < |Strs.Split(csv, '\n')| && ParseLine(Strs.Split(csv, '\n')[i]) == Wrappers.Some(r)
  {
    PresentMapMembers(ParseLine, BodyLines(csv), r);
    PastFirstMembers(ParseLine, Strs.Split(csv, '\n'), r);
  }

  /** Some element after the first yields `y` exactly when some element of the tail does. */
  lemma PastFirstMembers<T, U>(f: T -> Wrappers.Option<U>, xs: seq<T>, y: U)
    requires xs != []
    ensures (exists j :: 0 <= j < |xs[1..]| && f(xs[1..][j]) == Wrappers.Some(y)) <==>
            (exists i :: 1 <= i < |xs| && f(xs[i]) == Wrappers.Some(y))
  {
    if exists j :: 0 <= j < |xs[1..]| && f(xs[1..][j]) == Wrappers.Some(y) {
      var j :| 0 <= j < |xs[1..]| && f(xs[1..][j]) == Wrappers.Some(y);
      assert xs[j + 1] == xs[1..][j];
    }
    if exists i :: 1 <= i < |xs| && f(xs[i]) == Wrappers.Some(y) {
      var i :| 1 <= i < |xs| && f(xs[i]) == Wrappers.Some(y);
      assert xs[1..][i - 1] == xs[i];
    }
  }

  /** The first line is the header: whatever it says, it changes nothing. */
  lemma HeaderIgnored(header1: string, header2: string, body: string)
    requires '\n' !in header1 && '\n' !in header2
    ensures Convert(header1 + "\n" + body) == Convert(header2 + "\n" + body)
  {
    Strs.SplitAfterFirst(header1, '\n', body);
    Strs.SplitAfterFirst(header2, '\n', body);
    assert BodyLines(header1 + "\n" + body) == Strs.Split(body, '\n') == BodyLines(header2 + "\n" + body);
  }

  lemma {:induction false} PresentMembers<T>(xs: seq<Wrappers.Option<T>>, x: T)
    ensures x in Present(xs) <==> exists i :: 0 <= i < |xs| && xs[i] == Wrappers.Some(x)
  {
    if xs != [] {
      PresentMembers(xs[1..], x);
      if exists i :: 1 <= i < |xs| && xs[i] == Wrappers.Some(x) {
        var i :| 1 <= i < |xs| && xs[i] == Wrappers.Some(x);
        assert xs[1..][i - 1] == xs[i];
      }
      if exists i :: 0 <= i < |xs[1..]| && xs[1..][i] == Wrappers.Some(x) {
        var i :| 0 <= i < |xs[1..]| && xs[1..][i] == Wrappers.Some(x);
        assert xs[i + 1] == xs[1..][i];
      }
    }
  }

  lemma {:induction false} PresentAll<T>(xs: seq<Wrappers.Option<T>>, ys: seq<T>)
    requires |xs| == |ys| && forall i :: 0 <= i < |xs| ==> xs[i] == Wrappers.Some(ys[i])
    ensures Present(xs) == ys
  {
    if xs != [] {
      PresentAll(xs[1..], ys[1..]);
      assert ys == [ys[0]] + ys[1..];
    }
  }

  // ---------------------------------------------------------------------------
  // Round trip with the collector's CSV export

  /** The record the converter should give back for an exported location. */
  function RecordOf(loc: MissingLocations.MissingLocation): LocationRecord {
    LocationRecord(loc.locationId, Wrappers.OrEmpty(loc.locationName), Wrappers.OrEmpty(loc.address), Wrappers.OrEmpty(loc.cityName))
  }

  /** The four text cells hold no quote, and no cell holds a line break. */
  predicate Clean(loc: MissingLocations.MissingLocation, localeString: string -> string) {
    MissingLocations.NoLineBreaks(loc, localeString) &&
    QuoteFree(loc.locationId) && QuoteFree(Wrappers.OrEmpty(loc.locationName)) &&
    QuoteFree(Wrappers.OrEmpty(loc.address)) && QuoteFree(Wrappers.OrEmpty(loc.cityName))
  }

  lemma RowCons(cells: seq<string>)
    requires |cells| >= 2
    ensures MissingLocations.Row(cells) == MissingLocations.Quote(cells[0]) + "," + MissingLocations.Row(cells[1..])
  {
    assert Seqs.Map(MissingLocations.Quote, cells)[1..] == Seqs.Map(MissingLocations.Quote, cells[1..]);
  }

  /** Where a row is written, the pattern of its first `n` cells is written. */
  lemma {:induction false} PatternInRow(s: string, i: nat, cells: seq<string>, n: nat)
    requires 1 <= n <= |cells| && At(s, i, MissingLocations.Row(cells))
    ensures At(s, i, Pattern(cells[..n]))
    decreases n
  {
    var q := MissingLocations.Quote(cells[0]);
    var rest := if |cells| == 1 then "" else "," + MissingLocations.Row(cells[1..]);
    assert MissingLocations.Row(cells) == q + rest by {
      if |cells| >= 2 {
        RowCons(cells);
      }
    }
    AtConcat(s, i, q, rest);
    if n == 1 {
      assert Pattern(cells[..1]) == "\"" + (cells[0] + "\"") == q;
    } else {
      RowCons(cells);
      AtConcat(s, i + |q|, ",", MissingLocations.Row(cells[1..]));
      PatternInRow(s, i + |q| + 1, cells[1..], n - 1);
      assert cells[..n][1..] == cells[1..][..n - 1];
      assert Pattern(cells[..n]) == q + ("," + Pattern(cells[1..][..n - 1]));
      AtConcat(s, i + |q|, ",", Pattern(cells[1..][..n - 1]));
      AtConcat(s, i, q, "," + Pattern(cells[1..][..n - 1]));
    }
  }

  /** The line exported for a clean location parses back to its record. */
  lemma RowParses(loc: MissingLocations.MissingLocation, localeString: string -> string)
    requires Clean(loc, localeString)
    ensures NonBlank(MissingLocations.RowOf(localeString, loc))
    ensures ParseLine(MissingLocations.RowOf(localeString, loc)) == Wrappers.Some(RecordOf(loc))
  {
    var cells := MissingLocations.Cells(loc, localeString);
    var row := MissingLocations.Row(cells);
    AtSlice(row, 0, row);
    assert row[0..|row|] == row;
    PatternInRow(row, 0, cells, 4);
    var fields := cells[..4];
    assert forall m :: 0 <= m < 4 ==> QuoteFree(fields[m]) by {
      assert fields == [cells[0], cells[1], cells[2], cells[3]];
    }
    ParseAtStart(row, fields);
    assert row[0] == '"';
    Strs.TrimKeepsNonSpace(row, 0);
  }

  /**
   * Converting the CSV export of clean locations gives back their id, name, address and
   * city, in export order, with a missing field as "".
   */
  lemma RoundTrip(locations: seq<MissingLocations.MissingLocation>, localeString: string -> string)
    requires forall i :: 0 <= i < |locations| ==> Clean(locations[i], localeString)
    ensures Convert(MissingLocations.Csv(locations, localeString)) == Seqs.Map(RecordOf, locations)
  {
    var csv := MissingLocations.Csv(locations, localeString);
    if locations == [] {
      assert csv == "";
    } else {
      MissingLocations.CsvLines(locations, localeString);
      var rows := MissingLocations.Rows(locations, localeString);
      assert BodyLines(csv) == rows;
      forall i | 0 <= i < |rows|
        ensures NonBlank(rows[i]) && Seqs.Map(ParseLine, rows)[i] == Wrappers.Some(Seqs.Map(RecordOf, locations)[i])
      {
        RowParses(locations[i], localeString);
      }
      Seqs.FilterAll(NonBlank, rows);
      PresentAll(Seqs.Map(ParseLine, rows), Seqs.Map(RecordOf, locations));
    }
  }
}
