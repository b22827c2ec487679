/**
 * `Array.prototype.sort` with a numeric comparator `(a, b) => key(b) - key(a)`: a stable
 * sort into non-increasing key order. An ascending sort is the same with the key negated.
 */
module Sorting {
  import Seqs

  /** Keys never increase from left to right. */
  predicate SortedDesc<T>(key: T -> int, s: seq<T>) {
    forall i, j :: 0 <= i < j < |s| ==> key(s[i]) >= key(s[j])
  }

  /** Inserts `x` in front of the first element whose key is not larger than its own. */
  function Insert<T>(key: T -> int, x: T, t: seq<T>): (r: seq<T>)
    requires SortedDesc(key, t)
    ensures SortedDesc(key, r)
    ensures multiset(r) == multiset(t) + multiset{x}
    ensures |r| == |t| + 1
    ensures r[0] == x || (t != [] && r[0] == t[0])
  {
    if t == [] || key(x) >= key(t[0]) then
      ConsSorted(key, x, t);
      [x] + t
    else
      TailSorted(key, t);
      var rest := Insert(key, x, t[1..]);
      assert multiset([t[0]] + rest) == multiset(t) + multiset{x} by {
        assert t == [t[0]] + t[1..];
      }
      assert SortedDesc(key, [t[0]] + rest) by {
        assert key(t[0]) >= key(rest[0]) by {
          if rest[0] != x {
            assert rest[0] == t[1];
          }
        }
        ConsSorted(key, t[0], rest);
      }
      [t[0]] + rest
  }

  /** The tail of a sorted sequence is sorted. */
  lemma TailSorted<T>(key: T -> int, s: seq<T>)
    requires s != [] && SortedDesc(key, s)
    ensures SortedDesc(key, s[1..])
  {
    forall i, j | 0 <= i < j < |s| - 1 ensures key(s[1..][i]) >= key(s[1..][j]) {
      assert s[1..][i] == s[i + 1] && s[1..][j] == s[j + 1];
    }
  }

  /** An element no smaller than the head of a sorted sequence can go in front of it. */
  lemma ConsSorted<T>(key: T -> int, y: T, s: seq<T>)
    requires SortedDesc(key, s) && (s != [] ==> key(y) >= key(s[0]))
    ensures SortedDesc(key, [y] + s)
  {
    var r := [y] + s;
    forall i, j | 0 <= i < j < |r| ensures key(r[i]) >= key(r[j]) {
      assert r[j] == s[j - 1];
      if i == 0 {
        assert key(s[0]) >= key(s[j - 1]);
      } else {
        assert r[i] == s[i - 1];
      }
    }
  }

  /** The stable sort: later elements are inserted first, earlier ones go in front of equal keys. */
  function SortDesc<T>(key: T -> int, s: seq<T>): (r: seq<T>)
    ensures SortedDesc(key, r)
    ensures multiset(r) == multiset(s)
    ensures |r| == |s|
  {
    if s == [] then []
    else
      assert s == [s[0]] + s[1..];
      Insert(key, s[0], SortDesc(key, s[1..]))
  }

  /** The elements with key `v`. */
  function WithKey<T>(key: T -> int, v: int, s: seq<T>): seq<T> {
    Seqs.Filter((y: T) => key(y) == v, s)
  }

  /** Inserting `x` puts it ahead of every element with its own key and keeps the others' order. */
  lemma {:induction false} InsertWithKey<T>(key: T -> int, x: T, t: seq<T>, v: int)
    requires SortedDesc(key, t)
    ensures WithKey(key, v, Insert(key, x, t)) == (if key(x) == v then [x] else []) + WithKey(key, v, t)
  {
    if t == [] || key(x) >= key(t[0]) {
      assert Insert(key, x, t) == [x] + t;
      assert ([x] + t)[1..] == t;
    } else {
      TailSorted(key, t);
      InsertWithKey(key, x, t[1..], v);
      var rest := Insert(key, x, t[1..]);
      assert Insert(key, x, t) == [t[0]] + rest;
      assert ([t[0]] + rest)[1..] == rest;
      assert t == [t[0]] + t[1..];
    }
  }

  /** The sort is stable: the elements of any one key keep their input order. */
  lemma {:induction false} SortDescStable<T>(key: T -> int, s: seq<T>, v: int)
    ensures WithKey(key, v, SortDesc(key, s)) == WithKey(key, v, s)
  {
    if s != [] {
      SortDescStable(key, s[1..], v);
      InsertWithKey(key, s[0], SortDesc(key, s[1..]), v);
    }
  }

  /** Sorting a sequence that is already in order gives it back unchanged. */
  lemma {:induction false} SortDescSorted<T>(key: T -> int, s: seq<T>)
    requires SortedDesc(key, s)
    ensures SortDesc(key, s) == s
  {
    if s != [] {
      assert SortedDesc(key, s[1..]);
      SortDescSorted(key, s[1..]);
    }
  }

  /** A prefix of a sorted sequence holds its largest keys: nothing left behind beats a kept element. */
  lemma PrefixLargest<T>(key: T -> int, s: seq<T>, n: nat)
    requires SortedDesc(key, s) && n <= |s|
    ensures multiset(s[..n]) <= multiset(s)
    ensures forall e, x :: e in multiset(s) - multiset(s[..n]) && x in s[..n] ==> key(x) >= key(e)
  {
    var rest := s[n..];
    assert s == s[..n] + rest;
    assert multiset(s) - multiset(s[..n]) == multiset(rest);
    forall e, x | e in multiset(s) - multiset(s[..n]) && x in s[..n] ensures key(x) >= key(e) {
      assert e in rest;
      var j :| 0 <= j < |rest| && rest[j] == e;
      var i :| 0 <= i < n && s[..n][i] == x;
      assert s[i] == x && s[n + j] == e;
    }
  }

  lemma {:induction false} SumInsert<T>(key: T -> int, f: T -> nat, x: T, t: seq<T>)
    requires SortedDesc(key, t)
    ensures Seqs.Sum(f, Insert(key, x, t)) == f(x) + Seqs.Sum(f, t)
  {
    if t != [] && key(x) < key(t[0]) {
      assert SortedDesc(key, t[1..]);
      SumInsert(key, f, x, t[1..]);
    }
  }

  /** Sorting does not change a sum over the elements. */
  lemma {:induction false} SumSorted<T>(key: T -> int, f: T -> nat, s: seq<T>)
    ensures Seqs.Sum(f, SortDesc(key, s)) == Seqs.Sum(f, s)
  {
    if s != [] {
      SumSorted(key, f, s[1..]);
      SumInsert(key, f, s[0], SortDesc(key, s[1..]));
    }
  }
}
