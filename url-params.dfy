/**
 * The filter record and the page's query string: a serialiser, its parser, and the
 * URL built from them. A `URLSearchParams` object is an ordered list of key/value
 * pairs; percent-encoding is not modelled.
 */
module UrlParams {
  import opened Wrappers
  import opened Types
  import Strs
  import Seqs

  type SearchParams = seq<(string, string)>

  /** `params.get(key)`: the value of the first pair with that key. */
  function Get(params: SearchParams, key: string): (r: Option<string>)
    ensures r.None? <==> forall i :: 0 <= i < |params| ==> params[i].0 != key
  {
    if params == [] then None
    else if params[0].0 == key then Some(params[0].1)
    else
      var r := Get(params[1..], key);
      assert forall i :: 1 <= i < |params| ==> params[i] == params[1..][i - 1];
      r
  }

  /** The pairs whose key is not `key`, in order. */
  function Without(params: SearchParams, key: string): (r: SearchParams)
    ensures forall i :: 0 <= i < |r| ==> r[i].0 != key
  {
    if params == [] then []
    else (if params[0].0 == key then [] else [params[0]]) + Without(params[1..], key)
  }

  /** `params.set(key, value)`: the first pair with the key takes the value and the others go; with none, the pair is appended. */
  function SetParam(params: SearchParams, key: string, value: string): (r: SearchParams)
    ensures Get(r, key) == Some(value)
    ensures (forall i :: 0 <= i < |params| ==> params[i].0 != key) ==> r == params + [(key, value)]
  {
    if params == [] then [(key, value)]
    else if params[0].0 == key then [(key, value)] + Without(params[1..], key)
    else
      assert forall i :: 1 <= i < |params| ==> params[i] == params[1..][i - 1];
      [params[0]] + SetParam(params[1..], key, value)
  }

  /** The keys `filtersToSearchParams` writes, in the order it writes them. */
  const Keys: seq<string> := ["cities", "dates", "topic", "targets", "formats", "year", "languages", "price"]

  /** `addArrayParam`: a present, non-empty array is written joined with commas. */
  function ArrayParam(values: Option<seq<string>>): (r: Option<string>)
    ensures r.Some? <==> values.Some? && |values.value| > 0
  {
    if values.Some? && |values.value| > 0 then Some(Strs.Join(values.value, ",")) else None
  }

  /** The price is written only when it is set and not "all". */
  function PriceParam(p: Option<PriceFilter>): (r: Option<string>)
    ensures r.Some? <==> p == Some(Free) || p == Some(Paid)
  {
    if p.Some? && p.value != All then Some(PriceFilterName(p.value)) else None
  }

  /** What each key of `Keys` is set to, if anything. */
  function ParamValues(f: Filters): (r: seq<Option<string>>)
    ensures |r| == |Keys|
  {
    [ArrayParam(f.cities), ArrayParam(f.dates), ArrayParam(f.topic), ArrayParam(f.targets),
     ArrayParam(f.formats), ArrayParam(f.year), ArrayParam(f.languages), PriceParam(f.priceFilter)]
  }

  /** The first `n` keys set in order, each one that has a value appended as a pair. */
  function Build(vals: seq<Option<string>>, n: nat): (r: SearchParams)
    requires n <= |Keys| && |vals| == |Keys|
    ensures forall i :: 0 <= i < |r| ==> r[i].0 in Keys[..n]
  {
    if n == 0 then []
    else
      var prev := Build(vals, n - 1);
      if vals[n - 1].Some? then prev + [(Keys[n - 1], vals[n - 1].value)] else prev
  }

  /** The parameters `filtersToSearchParams(f)` produces. */
  function ParamsOf(f: Filters): SearchParams {
    Build(ParamValues(f), |Keys|)
  }

  /** `addArrayParam(key, values)`: sets the key to the joined values when there are any. */
  function AddArrayParam(params: SearchParams, key: string, values: Option<seq<string>>): SearchParams {
    if values.Some? && |values.value| > 0 then SetParam(params, key, Strs.Join(values.value, ",")) else params
  }

  /** `filtersToSearchParams`, setting the parameters one after the other. */
  method FiltersToSearchParams(f: Filters) returns (params: SearchParams)
    ensures params == ParamsOf(f)
  {
    ghost var vals := ParamValues(f);
    params := [];
    params := AddArrayParam(params, "cities", f.cities);
    assert params == Build(vals, 1) by { AddStep(vals, 1, "cities", f.cities); }
    params := AddArrayParam(params, "dates", f.dates);
    assert params == Build(vals, 2) by { AddStep(vals, 2, "dates", f.dates); }
    params := AddArrayParam(params, "topic", f.topic);
    assert params == Build(vals, 3) by { AddStep(vals, 3, "topic", f.topic); }
    params := AddArrayParam(params, "targets", f.targets);
    assert params == Build(vals, 4) by { AddStep(vals, 4, "targets", f.targets); }
    params := AddArrayParam(params, "formats", f.formats);
    assert params == Build(vals, 5) by { AddStep(vals, 5, "formats", f.formats); }
    params := AddArrayParam(params, "year", f.year);
    assert params == Build(vals, 6) by { AddStep(vals, 6, "year", f.year); }
    params := AddArrayParam(params, "languages", f.languages);
    assert params == Build(vals, 7) by { AddStep(vals, 7, "languages", f.languages); }
    if f.priceFilter.Some? && f.priceFilter.value != All {
      params := SetParam(params, "price", PriceFilterName(f.priceFilter.value));
    }
    assert params == Build(vals, 8) by { PriceStep(vals, f.priceFilter); }
    assert |Keys| == 8;
  }

  /** Setting the price, when it is set and not "all", after the seven arrays is the last step. */
  lemma PriceStep(vals: seq<Option<string>>, p: Option<PriceFilter>)
    requires |vals| == |Keys| && vals[7] == PriceParam(p)
    ensures (if p.Some? && p.value != All then SetParam(Build(vals, 7), "price", PriceFilterName(p.value))
             else Build(vals, 7)) == Build(vals, 8)
  {
    KeyAbsent(vals, 7);
  }

  /** No key from position `n` on has been written by the first `n` steps. */
  lemma KeyAbsent(vals: seq<Option<string>>, n: nat)
    requires n < |Keys| && |vals| == |Keys|
    ensures forall i :: 0 <= i < |Build(vals, n)| ==> Build(vals, n)[i].0 != Keys[n]
  {
    KeysDistinct();
    forall i | 0 <= i < |Build(vals, n)| ensures Build(vals, n)[i].0 != Keys[n] {
      var k :| 0 <= k < n && Keys[k] == Build(vals, n)[i].0;
    }
  }

  /** Adding the `n`-th array to what the first `n - 1` steps wrote is the `n`-th step. */
  lemma AddStep(vals: seq<Option<string>>, n: nat, key: string, values: Option<seq<string>>)
    requires 1 <= n < |Keys| && |vals| == |Keys| && key == Keys[n - 1] && vals[n - 1] == ArrayParam(values)
    ensures AddArrayParam(Build(vals, n - 1), key, values) == Build(vals, n)
  {
    KeyAbsent(vals, n - 1);
  }

  /** `parseArrayParam`: missing or "" is absent; otherwise the comma pieces, trimmed, empty ones dropped. */
  function ParseArrayParam(params: SearchParams, key: string): (r: Option<seq<string>>)
    ensures r.None? <==> Get(params, key) in {None, Some("")}
    ensures r.Some? ==> forall i :: 0 <= i < |r.value| ==> r.value[i] != "" && Strs.IsTrimmed(r.value[i])
  {
    var value := Get(params, key);
    if value.None? || value.value == "" then None
    else
      var xs := Seqs.Filter(Strs.NonEmptyString, Seqs.Map(Strs.Trim, Strs.Split(value.value, ',')));
      CleanPieces(Strs.Split(value.value, ','), xs);
      Some(xs)
  }

  /** Trimming the pieces and dropping the empty ones leaves non-empty, trimmed pieces. */
  lemma CleanPieces(pieces: seq<string>, xs: seq<string>)
    requires xs == Seqs.Filter(Strs.NonEmptyString, Seqs.Map(Strs.Trim, pieces))
    ensures forall i :: 0 <= i < |xs| ==> xs[i] != "" && Strs.IsTrimmed(xs[i])
  {
    var trimmed := Seqs.Map(Strs.Trim, pieces);
    forall i | 0 <= i < |xs| ensures xs[i] != "" && Strs.IsTrimmed(xs[i]) {
      assert xs[i] in trimmed && xs[i] != "" by {
        Seqs.FilterMembers(Strs.NonEmptyString, trimmed);
      }
      var j :| 0 <= j < |trimmed| && trimmed[j] == xs[i];
    }
  }

  /** Only "free" and "paid" are accepted as a price filter. */
  function ParsePrice(params: SearchParams): (r: Option<PriceFilter>)
    ensures r.Some? <==> Get(params, "price") in {Some("free"), Some("paid")}
    ensures r != Some(All)
  {
    var p := Get(params, "price");
    if p == Some("free") then Some(Free) else if p == Some("paid") then Some(Paid) else None
  }

  /** `searchParamsToFilters`, assigning the fields one after the other. An array result is always truthy. */
  method SearchParamsToFilters(params: SearchParams) returns (f: Filters)
    ensures f.cities == ParseArrayParam(params, "cities")
    ensures f.dates == ParseArrayParam(params, "dates")
    ensures f.topic == ParseArrayParam(params, "topic")
    ensures f.targets == ParseArrayParam(params, "targets")
    ensures f.formats == ParseArrayParam(params, "formats")
    ensures f.year == ParseArrayParam(params, "year")
    ensures f.languages == ParseArrayParam(params, "languages")
    ensures f.priceFilter == ParsePrice(params)
  {
    f := NoFilters;
    var cities := ParseArrayParam(params, "cities");
    if cities.Some? { f := f.(cities := cities); }
    assert f == Filters(cities, None, None, None, None, None, None, None);
    var dates := ParseArrayParam(params, "dates");
    if dates.Some? { f := f.(dates := dates); }
    assert f == Filters(cities, dates, None, None, None, None, None, None);
    var topic := ParseArrayParam(params, "topic");
    if topic.Some? { f := f.(topic := topic); }
    assert f == Filters(cities, dates, topic, None, None, None, None, None);
    var targets := ParseArrayParam(params, "targets");
    if targets.Some? { f := f.(targets := targets); }
    assert f == Filters(cities, dates, topic, targets, None, None, None, None);
    var formats := ParseArrayParam(params, "formats");
    if formats.Some? { f := f.(formats := formats); }
    assert f == Filters(cities, dates, topic, targets, formats, None, None, None);
    var year := ParseArrayParam(params, "year");
    if year.Some? { f := f.(year := year); }
    assert f == Filters(cities, dates, topic, targets, formats, year, None, None);
    var languages := ParseArrayParam(params, "languages");
    if languages.Some? { f := f.(languages := languages); }
    assert f == Filters(cities, dates, topic, targets, formats, year, languages, None);
    var price := Get(params, "price");
    if price == Some("free") || price == Some("paid") {
      f := f.(priceFilter := if price == Some("free") then Some(Free) else Some(Paid));
    }
  }

  /** The filters `searchParamsToFilters(params)` produces. */
  function FiltersOf(params: SearchParams): Filters {
    Filters(ParseArrayParam(params, "cities"), ParseArrayParam(params, "dates"),
            ParseArrayParam(params, "topic"), ParseArrayParam(params, "targets"),
            ParseArrayParam(params, "formats"), ParseArrayParam(params, "year"),
            ParseArrayParam(params, "languages"), ParsePrice(params))
  }

  /** `params.toString()` without percent-encoding: `key=value` pairs joined by "&". */
  function QueryString(params: SearchParams): string {
    Strs.Join(Seqs.Map((kv: (string, string)) => kv.0 + "=" + kv.1, params), "&")
  }

  /** `createUrlWithFilters(pathname, f)`. */
  function CreateUrlWithFilters(pathname: string, f: Filters): (r: string)
    ensures r == pathname <==> ParamsOf(f) == []
    ensures ParamsOf(f) != [] ==> r == pathname + "?" + QueryString(ParamsOf(f))
  {
    var search := QueryString(ParamsOf(f));
    QueryStringEmpty(ParamsOf(f));
    assert |pathname + "?" + search| > |pathname|;
    if search != "" then pathname + "?" + search else pathname
  }

  // ---------------------------------------------------------------------------
  // Properties

  lemma {:induction false} GetAppend(a: SearchParams, b: SearchParams, key: string)
    ensures Get(a + b, key) == if Get(a, key).Some? then Get(a, key) else Get(b, key)
  {
    if a != [] {
      assert (a + b)[1..] == a[1..] + b;
      GetAppend(a[1..], b, key);
    } else {
      assert a + b == b;
    }
  }

  lemma KeysDistinct()
    ensures forall i, j :: 0 <= i < j < |Keys| ==> Keys[i] != Keys[j]
  {
    assert Keys[0][0] == 'c' && Keys[1][0] == 'd' && Keys[4][0] == 'f' && Keys[5][0] == 'y';
    assert Keys[6][0] == 'l' && Keys[7][0] == 'p';
    assert Keys[2][..2] == "to" && Keys[3][..2] == "ta";
  }

  lemma {:induction false} GetBuild(vals: seq<Option<string>>, n: nat, j: nat)
    requires n <= |Keys| && |vals| == |Keys| && j < |Keys|
    requires forall i, j :: 0 <= i < j < |Keys| ==> Keys[i] != Keys[j]
    ensures Get(Build(vals, n), Keys[j]) == if j < n then vals[j] else None
  {
    if n > 0 {
      GetBuild(vals, n - 1, j);
      var prev := Build(vals, n - 1);
      if vals[n - 1].Some? {
        var last: SearchParams := [(Keys[n - 1], vals[n - 1].value)];
        assert Get(last, Keys[j]) == if j == n - 1 then vals[n - 1] else None by {
          assert j != n - 1 ==> Keys[n - 1] != Keys[j];
          assert last[1..] == [];
        }
        GetAppend(prev, last, Keys[j]);
      }
    }
  }

  /**
   * What the serialiser writes: each array key only for a present, non-empty array,
   * with the elements joined by commas; `price` only for "free" or "paid"; nothing else.
   */
  lemma ParamsOfGet(f: Filters)
    ensures Get(ParamsOf(f), "cities") == ArrayParam(f.cities)
    ensures Get(ParamsOf(f), "dates") == ArrayParam(f.dates)
    ensures Get(ParamsOf(f), "topic") == ArrayParam(f.topic)
    ensures Get(ParamsOf(f), "targets") == ArrayParam(f.targets)
    ensures Get(ParamsOf(f), "formats") == ArrayParam(f.formats)
    ensures Get(ParamsOf(f), "year") == ArrayParam(f.year)
    ensures Get(ParamsOf(f), "languages") == ArrayParam(f.languages)
    ensures Get(ParamsOf(f), "price") == PriceParam(f.priceFilter)
    ensures forall i :: 0 <= i < |ParamsOf(f)| ==> ParamsOf(f)[i].0 in Keys
  {
    var vals := ParamValues(f);
    KeysDistinct();
    GetBuild(vals, 8, 0);
    GetBuild(vals, 8, 1);
    GetBuild(vals, 8, 2);
    GetBuild(vals, 8, 3);
    GetBuild(vals, 8, 4);
    GetBuild(vals, 8, 5);
    GetBuild(vals, 8, 6);
    GetBuild(vals, 8, 7);
  }

  /** A value present but made only of commas and white space parses to a present, empty array. */
  lemma OnlyCommasParseEmpty(params: SearchParams, key: string)
    requires Get(params, key) == Some(",")
    ensures ParseArrayParam(params, key) == Some([])
  {
    assert Strs.Split(",", ',') == ["", ""] by {
      assert ","[1..] == "";
    }
    assert Seqs.Map(Strs.Trim, ["", ""]) == ["", ""];
    assert Seqs.Filter(Strs.NonEmptyString, ["", ""]) == [] by {
      assert ["", ""][1..] == [""];
    }
  }

  /** An array that survives the round trip: present and non-empty, with clean elements. */
  predicate RoundTrips(values: Option<seq<string>>) {
    values.None? ||
    (|values.value| > 0 &&
     forall i :: 0 <= i < |values.value| ==>
       values.value[i] != "" && ',' !in values.value[i] && Strs.IsTrimmed(values.value[i]))
  }

  lemma ArrayRoundTrip(params: SearchParams, key: string, values: Option<seq<string>>)
    requires RoundTrips(values)
    requires Get(params, key) == ArrayParam(values)
    ensures ParseArrayParam(params, key) == values
  {
    if values.Some? {
      var xs := values.value;
      var joined := Strs.Join(xs, ",");
      assert Get(params, key) == Some(joined);
      assert joined != "" by {
        Strs.JoinNonEmpty(xs, ",");
      }
      assert Strs.Split(joined, ',') == xs by {
        Strs.SplitJoin(xs, ',');
      }
      assert Seqs.Map(Strs.Trim, xs) == xs by {
        forall i | 0 <= i < |xs| ensures Strs.Trim(xs[i]) == xs[i] {
          Strs.TrimTrimmed(xs[i]);
        }
      }
      assert Seqs.Filter(Strs.NonEmptyString, xs) == xs by {
        Seqs.FilterAll(Strs.NonEmptyString, xs);
      }
    }
  }

  /** Parsing what the serialiser wrote gives the filters back, when they are clean and the price is not "all". */
  lemma RoundTrip(f: Filters)
    requires RoundTrips(f.cities) && RoundTrips(f.dates) && RoundTrips(f.topic)
    requires RoundTrips(f.targets) && RoundTrips(f.formats) && RoundTrips(f.year)
    requires RoundTrips(f.languages)
    requires f.priceFilter != Some(All)
    ensures FiltersOf(ParamsOf(f)) == f
  {
    var p := ParamsOf(f);
    ParamsOfGet(f);
    ArrayRoundTrip(p, "cities", f.cities);
    ArrayRoundTrip(p, "dates", f.dates);
    ArrayRoundTrip(p, "topic", f.topic);
    ArrayRoundTrip(p, "targets", f.targets);
    ArrayRoundTrip(p, "formats", f.formats);
    ArrayRoundTrip(p, "year", f.year);
    ArrayRoundTrip(p, "languages", f.languages);
  }

  /** "all" does not survive: it is not written, and the parser then leaves the price unset. */
  lemma PriceAllIsDropped(f: Filters)
    requires f.priceFilter == Some(All)
    ensures FiltersOf(ParamsOf(f)).priceFilter == None
  {
    ParamsOfGet(f);
  }

  lemma QueryStringEmpty(params: SearchParams)
    ensures QueryString(params) == "" <==> params == []
  {
    var parts := Seqs.Map((kv: (string, string)) => kv.0 + "=" + kv.1, params);
    if params != [] {
      assert parts[0] != "" by {
        assert parts[0] == params[0].0 + "=" + params[0].1;
        assert |parts[0]| >= 1;
      }
      Strs.JoinNonEmpty(parts, "&");
    }
  }
}
