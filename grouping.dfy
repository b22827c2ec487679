/**
 * Grouping of strings by a key function into an insertion-ordered map of string lists, as
 * a JavaScript `Map<string, string[]>` filled by `has`/`set`/`get`/`push` ends up.
 */
module Grouping {
  import Seqs

  /** The inputs that `f` maps to `name`. */
  function MapsTo(f: string -> string, name: string): string -> bool {
    (x: string) => f(x) == name
  }

  /** The distinct images of `s` under `f`, in order of first appearance. */
  function Names(f: string -> string, s: seq<string>): seq<string> {
    Seqs.Dedup(Seqs.Map(f, s))
  }

  /** The distinct inputs of `s` with image `name`, in order of first appearance. */
  function Group(f: string -> string, name: string, s: seq<string>): seq<string> {
    Seqs.Dedup(Seqs.Filter(MapsTo(f, name), s))
  }

  /**
   * `m`, as its entries in insertion order, groups `s` by `f`: one key per distinct image, in
   * order of first appearance, holding the distinct inputs with that image in order of first
   * appearance. `getUniqueLanguages` builds this grouping for `translateLanguage`.
   */
  ghost predicate GroupedBy(m: seq<(string, seq<string>)>, s: seq<string>, f: string -> string) {
    |m| == |Names(f, s)| &&
    forall i :: 0 <= i < |m| ==> m[i] == (Names(f, s)[i], Group(f, Names(f, s)[i], s))
  }

  /** The position of `key` among the entries of `m`, or -1. */
  function IndexOfKey<V>(m: seq<(string, V)>, key: string): (r: int)
    ensures -1 <= r < |m|
    ensures r == -1 <==> forall i :: 0 <= i < |m| ==> m[i].0 != key
    ensures r >= 0 ==> m[r].0 == key
  {
    if m == [] then -1
    else if m[|m| - 1].0 == key then |m| - 1
    else IndexOfKey(m[..|m| - 1], key)
  }

  /**
   * Groups `s` by `f` the way `getUniqueLanguages` fills its `Map`: for each input, a new key
   * gets an empty list, and the input is pushed onto its key's list unless already there.
   */
  method GroupBy(s: seq<string>, f: string -> string) returns (m: seq<(string, seq<string>)>)
    ensures GroupedBy(m, s, f)
  {
    m := [];
    for k := 0 to |s|
      invariant GroupedBy(m, s[..k], f)
    {
      var x := s[k];
      var name := f(x);
      ghost var m0 := m;
      ghost var isNew := IndexOfKey(m, name) == -1;
      if IndexOfKey(m, name) == -1 {
        m := m + [(name, [])];
      }
      var j := IndexOfKey(m, name);
      var group := m[j].1;
      if x !in group {
        m := m[j := (name, group + [x])];
      }
      if isNew {
        assert j == |m0| && group == [];
        ReplaceAppended(m0, (name, []), (name, group + [x]));
        assert group + [x] == [x];
        GroupedByNewName(m0, s, k, f);
      } else {
        GroupedByKnownName(m0, s, k, j, f);
      }
    }
    assert s[..|s|] == s;
  }

  /** Replacing the entry just appended is appending the replacement. */
  lemma ReplaceAppended<T>(m: seq<T>, e: T, v: T)
    ensures (m + [e])[|m| := v] == m + [v]
  {
  }

  // ---------------------------------------------------------------------------
  // Names and groups, one input at a time

  lemma NamesSnoc(f: string -> string, p: seq<string>, x: string)
    ensures Names(f, p + [x]) == if f(x) in Names(f, p) then Names(f, p) else Names(f, p) + [f(x)]
  {
    Seqs.MapSnoc(f, p, x);
    Seqs.DedupSnoc(Seqs.Map(f, p), f(x));
  }

  lemma GroupSnoc(f: string -> string, name: string, p: seq<string>, x: string)
    ensures Group(f, name, p + [x]) ==
      if f(x) != name || x in Group(f, name, p) then Group(f, name, p) else Group(f, name, p) + [x]
  {
    Seqs.FilterSnoc(MapsTo(f, name), p, x);
    if f(x) == name {
      Seqs.DedupSnoc(Seqs.Filter(MapsTo(f, name), p), x);
    }
  }

  /** Every input's image is among the names. */
  lemma NameListed(f: string -> string, s: seq<string>, k: nat)
    requires k < |s|
    ensures f(s[k]) in Names(f, s)
  {
    assert Seqs.Map(f, s)[k] == f(s[k]);
    Seqs.DedupMembers(Seqs.Map(f, s));
  }

  /** A group holds exactly the inputs with its image. */
  lemma GroupMembers(f: string -> string, name: string, s: seq<string>)
    ensures forall v :: v in Group(f, name, s) <==> v in s && f(v) == name
  {
    Seqs.FilterMembers(MapsTo(f, name), s);
    Seqs.DedupMembers(Seqs.Filter(MapsTo(f, name), s));
  }

  /** A name that no input maps to has an empty group. */
  lemma UnlistedGroupEmpty(f: string -> string, name: string, s: seq<string>)
    requires name !in Names(f, s)
    ensures Group(f, name, s) == []
  {
    GroupMembers(f, name, s);
    if Group(f, name, s) != [] {
      var v := Group(f, name, s)[0];
      assert v in Group(f, name, s);
      var k :| 0 <= k < |s| && s[k] == v;
      NameListed(f, s, k);
    }
  }

  // ---------------------------------------------------------------------------
  // The two steps of the fold, and what a grouping guarantees

  /** A fold step for an input whose image is not yet a key. */
  lemma GroupedByNewName(m: seq<(string, seq<string>)>, s: seq<string>, k: nat, f: string -> string)
    requires k < |s| && GroupedBy(m, s[..k], f)
    requires IndexOfKey(m, f(s[k])) == -1
    ensures GroupedBy(m + [(f(s[k]), [s[k]])], s[..k + 1], f)
  {
    var p, x := s[..k], s[k];
    var e := f(x);
    Seqs.TakeSnoc(s, k);
    NamesSnoc(f, p, x);
    assert e !in Names(f, p);
    UnlistedGroupEmpty(f, e, p);
    var m' := m + [(e, [x])];
    var names := Names(f, p + [x]);
    assert names == Names(f, p) + [e];
    forall i | 0 <= i < |m'|
      ensures m'[i] == (names[i], Group(f, names[i], p + [x]))
    {
      GroupSnoc(f, names[i], p, x);
      if i < |m| {
        assert names[i] == Names(f, p)[i] != e;
        assert m'[i] == m[i];
      } else {
        assert names[i] == e;
        assert Group(f, e, p + [x]) == [x];
      }
    }
  }

  /** A fold step for an input whose image is already the key at `j`. */
  lemma GroupedByKnownName(m: seq<(string, seq<string>)>, s: seq<string>, k: nat, j: int, f: string -> string)
    requires k < |s| && GroupedBy(m, s[..k], f)
    requires 0 <= j < |m| && m[j].0 == f(s[k])
    ensures GroupedBy(if s[k] in m[j].1 then m else m[j := (m[j].0, m[j].1 + [s[k]])], s[..k + 1], f)
  {
    var p, x := s[..k], s[k];
    Seqs.TakeSnoc(s, k);
    NamesSnoc(f, p, x);
    var m' := if x in m[j].1 then m else m[j := (m[j].0, m[j].1 + [x])];
    assert Names(f, p + [x]) == Names(f, p);
    forall i | 0 <= i < |m'|
      ensures m'[i] == (Names(f, p)[i], Group(f, Names(f, p)[i], p + [x]))
    {
      GroupSnoc(f, Names(f, p)[i], p, x);
      if i != j {
        assert Names(f, p)[i] != f(x);
        assert m'[i] == m[i];
      }
    }
  }

  /** In a grouping no two groups share a key and no group repeats an input. */
  lemma GroupedByKeys(m: seq<(string, seq<string>)>, s: seq<string>, f: string -> string)
    requires GroupedBy(m, s, f)
    ensures forall i, j :: 0 <= i < j < |m| ==> m[i].0 != m[j].0
    ensures forall j :: 0 <= j < |m| ==> Seqs.Distinct(m[j].1)
  {
  }

  lemma InputPlaced(m: seq<(string, seq<string>)>, s: seq<string>, f: string -> string, k: nat)
    requires GroupedBy(m, s, f) && k < |s|
    ensures exists j :: 0 <= j < |m| && m[j].0 == f(s[k]) && s[k] in m[j].1
  {
    NameListed(f, s, k);
    var j :| 0 <= j < |Names(f, s)| && Names(f, s)[j] == f(s[k]);
    GroupMembers(f, f(s[k]), s);
    assert m[j].0 == f(s[k]) && s[k] in m[j].1;
  }

  /** In a grouping every input sits in the group of its image, and a group holds only inputs with its image. */
  lemma GroupedByPlacement(m: seq<(string, seq<string>)>, s: seq<string>, f: string -> string)
    requires GroupedBy(m, s, f)
    ensures forall k :: 0 <= k < |s| ==> exists j :: 0 <= j < |m| && m[j].0 == f(s[k]) && s[k] in m[j].1
    ensures forall j, v :: 0 <= j < |m| && v in m[j].1 ==> v in s && f(v) == m[j].0
  {
    forall k | 0 <= k < |s|
      ensures exists j :: 0 <= j < |m| && m[j].0 == f(s[k]) && s[k] in m[j].1
    {
      InputPlaced(m, s, f, k);
    }
    forall j | 0 <= j < |m|
      ensures forall v :: v in m[j].1 ==> v in s && f(v) == m[j].0
    {
      GroupMembers(f, Names(f, s)[j], s);
    }
  }
}
