/**
 * The development collector of terms the dictionaries do not know: a map from
 * "type:term" to an entry with a use count, its sorted and grouped views, a copy-paste
 * export and statistics.
 */
module MissingCollector {
  import Seqs
  import Strs
  import Sorting

  /** The `type` of a missing term. */
  datatype Kind = Language | Target | Format | Category | City | General | Unknown

  /** The groups of `getAllGroupedByType`, in the order the object literal lists them. */
  const Kinds: seq<Kind> := [Language, Target, Format, Category, City, General, Unknown]

  function KindName(k: Kind): (r: string)
    ensures r != [] && ':' !in r
  {
    match k
    case Language => "language"
    case Target => "target"
    case Format => "format"
    case Category => "category"
    case City => "city"
    case General => "general"
    case Unknown => "unknown"
  }

  /** `MissingTranslation`; `firstSeen` is the time stamp of the first add, as given. */
  datatype MissingTranslation = MissingTranslation(term: string, kind: Kind, count: nat, firstSeen: string)

  /** The map key `${type}:${term}`. */
  function Key(kind: Kind, term: string): string {
    KindName(kind) + ":" + term
  }

  /** The entries of the map, in insertion order: no two share a type and a term (by `KeyInjective`, a key). */
  predicate KeysDistinct(entries: seq<MissingTranslation>) {
    forall i, j :: 0 <= i < j < |entries| ==> (entries[i].kind, entries[i].term) != (entries[j].kind, entries[j].term)
  }

  /**
   * `missing.get(key)` for the key of `kind` and `term`: the position of that entry, or -1.
   * Entries are compared by type and term, which by `KeyInjective` is comparing their keys.
   */
  function FindEntry(entries: seq<MissingTranslation>, kind: Kind, term: string): (r: int)
    ensures -1 <= r < |entries|
    ensures r == -1 <==> forall i :: 0 <= i < |entries| ==> (entries[i].kind, entries[i].term) != (kind, term)
    ensures r >= 0 ==> entries[r].kind == kind && entries[r].term == term
  {
    if entries == [] then -1
    else if entries[|entries| - 1].kind == kind && entries[|entries| - 1].term == term then |entries| - 1
    else FindEntry(entries[..|entries| - 1], kind, term)
  }

  /** The entries after `add(term, type)` at time `now`. */
  function Added(entries: seq<MissingTranslation>, enabled: bool, term: string, kind: Kind, now: string): seq<MissingTranslation> {
    if !enabled || term == "" then entries
    else
      var i := FindEntry(entries, kind, term);
      if i >= 0 then entries[i := entries[i].(count := entries[i].count + 1)]
      else entries + [MissingTranslation(term, kind, 1, now)]
  }

  function Uses(e: MissingTranslation): nat {
    e.count
  }

  /** The sum of the use counts (`reduce((sum, item) => sum + item.count, 0)`). */
  function SumCounts(entries: seq<MissingTranslation>): nat {
    Seqs.Sum(Uses, entries)
  }

  function Count(e: MissingTranslation): int {
    e.count
  }

  /** `getAll` on the entries: sorted by non-increasing count, ties in insertion order. */
  function SortedEntries(entries: seq<MissingTranslation>): (r: seq<MissingTranslation>)
    ensures Sorting.SortedDesc(Count, r)
    ensures multiset(r) == multiset(entries)
  {
    Sorting.SortDesc(Count, entries)
  }

  /** The entries of one type, in order. */
  function OfKind(all: seq<MissingTranslation>, k: Kind): seq<MissingTranslation> {
    Seqs.Filter((e: MissingTranslation) => e.kind == k, all)
  }

  /** `getAllGroupedByType` on the sorted entries: one group per type, in `Kinds` order. */
  function Grouped(all: seq<MissingTranslation>): (r: seq<(Kind, seq<MissingTranslation>)>)
    ensures |r| == |Kinds|
    ensures forall i :: 0 <= i < |r| ==> r[i] == (Kinds[i], OfKind(all, Kinds[i]))
  {
    Seqs.Map((k: Kind) => (k, OfKind(all, k)), Kinds)
  }

  /** The header of a non-empty group in the copy-paste export. */
  function Header(k: Kind, n: nat): string {
    "\n// " + Strs.Capitalize(KindName(k)) + "s (" + Strs.NatToString(n) + " items)\n"
  }

  /** The copy-paste line of one entry. */
  function Line(e: MissingTranslation): string {
    "'" + e.term + "': '', // used " + Strs.NatToString(e.count) + "x\n"
  }

  function Lines(items: seq<MissingTranslation>): string {
    if items == [] then "" else Lines(items[..|items| - 1]) + Line(items[|items| - 1])
  }

  /** What one group contributes: nothing when empty, otherwise its header and its lines. */
  function Block(group: (Kind, seq<MissingTranslation>)): string {
    if |group.1| == 0 then "" else Header(group.0, |group.1|) + Lines(group.1)
  }

  function CopyPaste(groups: seq<(Kind, seq<MissingTranslation>)>): string {
    if groups == [] then "" else CopyPaste(groups[..|groups| - 1]) + Block(groups[|groups| - 1])
  }

  /** The result of `getStats`. */
  datatype Stats = Stats(total: nat, byType: seq<(string, nat)>, totalOccurrences: nat)

  function StatsOf(entries: seq<MissingTranslation>): Stats {
    var all := SortedEntries(entries);
    Stats(|all|, Seqs.Map((g: (Kind, seq<MissingTranslation>)) => (KindName(g.0), |g.1|), Grouped(all)), SumCounts(all))
  }

  function SumSizes(byType: seq<(string, nat)>): nat {
    if byType == [] then 0 else byType[0].1 + SumSizes(byType[1..])
  }

  /** The loops of `exportAsCopyPaste`: for each non-empty group, its header and then one line per entry. */
  method CopyPasteExport(grouped: seq<(Kind, seq<MissingTranslation>)>) returns (output: string)
    ensures output == CopyPaste(grouped)
  {
    output := "";
    for g := 0 to |grouped|
      invariant output == CopyPaste(grouped[..g])
    {
      var kind, items := grouped[g].0, grouped[g].1;
      Seqs.TakeSnoc(grouped, g);
      assert CopyPaste(grouped[..g + 1]) == CopyPaste(grouped[..g]) + Block(grouped[g]);
      if |items| == 0 {
        continue;
      }
      output := output + Header(kind, |items|);
      ghost var start := output;
      for j := 0 to |items|
        invariant output == start + Lines(items[..j])
      {
        Seqs.TakeSnoc(items, j);
        assert Lines(items[..j + 1]) == Lines(items[..j]) + Line(items[j]);
        Seqs.AppendAssoc(start, Lines(items[..j]), Line(items[j]));
        output := output + Line(items[j]);
      }
      assert items[..|items|] == items;
      Seqs.AppendAssoc(CopyPaste(grouped[..g]), Header(kind, |items|), Lines(items));
    }
    assert grouped[..|grouped|] == grouped;
  }

  class MissingTranslationsCollector {
    var missing: seq<MissingTranslation>
    const enabled: bool
    /** The adds accepted since construction or the last `clear`. */
    ghost var accepted: nat

    ghost predicate Valid()
      reads this
    {
      KeysDistinct(missing) && SumCounts(missing) == accepted
    }

    /** `enabled` is `NODE_ENV === 'development'`, passed in. */
    constructor(development: bool)
      ensures enabled == development && missing == [] && Valid()
    {
      enabled := development;
      missing := [];
      accepted := 0;
    }

    method Add(term: string, kind: Kind, now: string)
      requires Valid()
      modifies this
      ensures Valid()
      ensures missing == Added(old(missing), enabled, term, kind, now)
      ensures accepted == old(accepted) + (if enabled && term != "" then 1 else 0)
    {
      if !enabled || term == "" {
        return;
      }
      AddedKeysDistinct(missing, enabled, term, kind, now);
      AddedCounts(missing, enabled, term, kind, now);
      var i := FindEntry(missing, kind, term);
      if i >= 0 {
        missing := missing[i := missing[i].(count := missing[i].count + 1)];
      } else {
        missing := missing + [MissingTranslation(term, kind, 1, now)];
      }
      accepted := accepted + 1;
    }

    function GetAll(): (r: seq<MissingTranslation>)
      reads this
      ensures Sorting.SortedDesc(Count, r)
      ensures multiset(r) == multiset(missing)
    {
      SortedEntries(missing)
    }

    /** `getAllGroupedByType`: one group per type, in the literal's order, holding that type's entries. */
    function GetAllGroupedByType(): (r: seq<(Kind, seq<MissingTranslation>)>)
      reads this
      ensures |r| == |Kinds|
      ensures forall i :: 0 <= i < |r| ==> r[i].0 == Kinds[i]
      ensures forall i, e :: 0 <= i < |r| ==> (e in r[i].1 <==> e in missing && e.kind == Kinds[i])
    {
      var all := GetAll();
      assert forall e :: e in all <==> e in multiset(missing);
      assert forall i :: 0 <= i < |Kinds| ==> Grouped(all)[i].1 == OfKind(all, Kinds[i]);
      OfKindsMembers(all);
      Grouped(all)
    }

    /** `exportAsCopyPaste`. */
    method ExportAsCopyPaste() returns (output: string)
      ensures output == CopyPaste(GetAllGroupedByType())
    {
      output := CopyPasteExport(GetAllGroupedByType());
    }

    method Clear()
      modifies this
      ensures missing == [] && accepted == 0 && Valid()
    {
      missing := [];
      accepted := 0;
    }

    function GetStats(): (r: Stats)
      reads this
      ensures r.total == |missing|
      ensures r.totalOccurrences == SumCounts(missing)
      ensures |r.byType| == |Kinds| && SumSizes(r.byType) == r.total
      ensures forall i :: 0 <= i < |Kinds| ==> r.byType[i] == (KindName(Kinds[i]), |OfKind(missing, Kinds[i])|)
    {
      StatsSound(missing);
      StatsOf(missing)
    }
  }

  // ---------------------------------------------------------------------------
  // Keys

  /** A kind name ends where the key's first ':' is. */
  lemma KeyColon(k: Kind, term: string)
    ensures Key(k, term)[|KindName(k)|] == ':'
    ensures forall i :: 0 <= i < |KindName(k)| ==> Key(k, term)[i] != ':'
  {
  }

  /** The key `${type}:${term}` tells type and term apart: the same term under two types gives two entries. */
  lemma KeyInjective(k1: Kind, t1: string, k2: Kind, t2: string)
    ensures Key(k1, t1) == Key(k2, t2) <==> k1 == k2 && t1 == t2
  {
    if Key(k1, t1) == Key(k2, t2) {
      var n1, n2 := |KindName(k1)|, |KindName(k2)|;
      KeyColon(k1, t1);
      KeyColon(k2, t2);
      assert KindName(k1) == Key(k1, t1)[..n1] == Key(k2, t2)[..n2] == KindName(k2);
      assert t1 == Key(k1, t1)[n1 + 1..] == Key(k2, t2)[n2 + 1..] == t2;
    }
  }

  // ---------------------------------------------------------------------------
  // add

  /** A disabled collector or an empty term leaves the entries unchanged. */
  lemma AddIgnored(entries: seq<MissingTranslation>, enabled: bool, term: string, kind: Kind, now: string)
    requires !enabled || term == ""
    ensures Added(entries, enabled, term, kind, now) == entries
  {
  }

  /** A repeated (type, term) only increments the count of its entry. */
  lemma AddRepeated(entries: seq<MissingTranslation>, term: string, kind: Kind, now: string, i: nat)
    requires term != "" && i < |entries| && KeysDistinct(entries)
    requires entries[i].kind == kind && entries[i].term == term
    ensures var r := Added(entries, true, term, kind, now);
      |r| == |entries| && r[i] == entries[i].(count := entries[i].count + 1) &&
      forall j :: 0 <= j < |entries| && j != i ==> r[j] == entries[j]
  {
    var f := FindEntry(entries, kind, term);
    assert f == i;
  }

  /** A new (type, term) is appended with count 1 and the time stamp of the call. */
  lemma AddFresh(entries: seq<MissingTranslation>, term: string, kind: Kind, now: string)
    requires term != ""
    requires forall i :: 0 <= i < |entries| ==> !(entries[i].kind == kind && entries[i].term == term)
    ensures Added(entries, true, term, kind, now) == entries + [MissingTranslation(term, kind, 1, now)]
  {
  }

  lemma AddedKeysDistinct(entries: seq<MissingTranslation>, enabled: bool, term: string, kind: Kind, now: string)
    requires KeysDistinct(entries)
    ensures KeysDistinct(Added(entries, enabled, term, kind, now))
  {
  }

  /** Every accepted add adds one occurrence; an ignored one adds none. */
  lemma AddedCounts(entries: seq<MissingTranslation>, enabled: bool, term: string, kind: Kind, now: string)
    ensures SumCounts(Added(entries, enabled, term, kind, now)) ==
      SumCounts(entries) + (if enabled && term != "" then 1 else 0)
  {
    if enabled && term != "" {
      var i := FindEntry(entries, kind, term);
      if i >= 0 {
        Seqs.SumUpdate(Uses, entries, i, entries[i].(count := entries[i].count + 1));
      } else {
        Seqs.SumSnoc(Uses, entries, MissingTranslation(term, kind, 1, now));
      }
    }
  }

  // ---------------------------------------------------------------------------
  // Views and statistics

  /** Each entry has exactly one of the seven types. */
  lemma {:induction false} KindCounts(all: seq<MissingTranslation>)
    ensures |OfKind(all, Language)| + |OfKind(all, Target)| + |OfKind(all, Format)| + |OfKind(all, Category)| +
            |OfKind(all, City)| + |OfKind(all, General)| + |OfKind(all, Unknown)| == |all|
  {
    if all != [] {
      KindCounts(all[1..]);
    }
  }

  /** The type counts of `getStats` add up to the number of entries. */
  lemma GroupSizes(all: seq<MissingTranslation>)
    ensures SumSizes(Seqs.Map((g: (Kind, seq<MissingTranslation>)) => (KindName(g.0), |g.1|), Grouped(all))) == |all|
  {
    var sizes := Seqs.Map((g: (Kind, seq<MissingTranslation>)) => (KindName(g.0), |g.1|), Grouped(all));
    KindCounts(all);
    SumSizesSeven(sizes);
    assert sizes[0].1 == |OfKind(all, Language)| && sizes[1].1 == |OfKind(all, Target)|;
    assert sizes[2].1 == |OfKind(all, Format)| && sizes[3].1 == |OfKind(all, Category)|;
    assert sizes[4].1 == |OfKind(all, City)| && sizes[5].1 == |OfKind(all, General)|;
    assert sizes[6].1 == |OfKind(all, Unknown)|;
  }

  lemma SumSizesSeven(xs: seq<(string, nat)>)
    requires |xs| == 7
    ensures SumSizes(xs) == xs[0].1 + xs[1].1 + xs[2].1 + xs[3].1 + xs[4].1 + xs[5].1 + xs[6].1
  {
    assert xs[0..] == xs;
    SumSizesStep(xs, 0);
    SumSizesStep(xs, 1);
    SumSizesStep(xs, 2);
    SumSizesStep(xs, 3);
    SumSizesStep(xs, 4);
    SumSizesStep(xs, 5);
    SumSizesStep(xs, 6);
  }

  lemma SumSizesStep(xs: seq<(string, nat)>, k: nat)
    requires k < |xs|
    ensures SumSizes(xs[k..]) == xs[k].1 + SumSizes(xs[k + 1..])
  {
    assert xs[k..][1..] == xs[k + 1..];
  }

  /** `total` counts the distinct entries, the type counts add up to it, and the occurrences are the sum of the counts. */
  lemma StatsSound(entries: seq<MissingTranslation>)
    ensures StatsOf(entries).total == |entries|
    ensures StatsOf(entries).totalOccurrences == SumCounts(entries)
    ensures |StatsOf(entries).byType| == |Kinds| && SumSizes(StatsOf(entries).byType) == StatsOf(entries).total
    ensures forall i :: 0 <= i < |Kinds| ==>
      StatsOf(entries).byType[i] == (KindName(Kinds[i]), |OfKind(entries, Kinds[i])|)
  {
    var all := SortedEntries(entries);
    forall i | 0 <= i < |Kinds|
      ensures |OfKind(all, Kinds[i])| == |OfKind(entries, Kinds[i])|
    {
      Seqs.FilterPermuted((e: MissingTranslation) => e.kind == Kinds[i], all, entries);
    }
    assert |all| == |multiset(all)| == |multiset(entries)| == |entries|;
    Sorting.SumSorted(Count, Uses, entries);
    GroupSizes(all);
  }

  lemma OfKindMembers(all: seq<MissingTranslation>, k: Kind)
    ensures forall e :: e in OfKind(all, k) <==> e in all && e.kind == k
  {
    Seqs.FilterMembers((e: MissingTranslation) => e.kind == k, all);
  }

  /** The membership of every type's group at once. */
  lemma OfKindsMembers(all: seq<MissingTranslation>)
    ensures forall i, e :: 0 <= i < |Kinds| ==> (e in OfKind(all, Kinds[i]) <==> e in all && e.kind == Kinds[i])
  {
    forall i | 0 <= i < |Kinds| {
      OfKindMembers(all, Kinds[i]);
    }
  }

  /** Every entry sits in the group of its type, every group holds only its type, and no group is missing. */
  lemma GroupedPlacement(all: seq<MissingTranslation>)
    ensures forall i :: 0 <= i < |Kinds| ==> Grouped(all)[i].0 == Kinds[i]
    ensures forall i, e :: 0 <= i < |Kinds| && e in Grouped(all)[i].1 ==> e in all && e.kind == Kinds[i]
    ensures forall e :: e in all ==> exists i :: 0 <= i < |Kinds| && Kinds[i] == e.kind && e in Grouped(all)[i].1
  {
    forall i | 0 <= i < |Kinds| {
      OfKindMembers(all, Kinds[i]);
    }
    forall e | e in all
      ensures exists i :: 0 <= i < |Kinds| && Kinds[i] == e.kind && e in Grouped(all)[i].1
    {
      var i := match e.kind
        case Language => 0 case Target => 1 case Format => 2 case Category => 3
        case City => 4 case General => 5 case Unknown => 6;
      assert Kinds[i] == e.kind;
      OfKindMembers(all, Kinds[i]);
    }
  }

  lemma {:induction false} LinesNonEmpty(items: seq<MissingTranslation>)
    requires items != []
    ensures Lines(items) != ""
  {
    assert |Line(items[|items| - 1])| > 0;
  }

  /** The copy-paste export is empty exactly when every group is: empty groups are skipped. */
  lemma {:induction false} CopyPasteEmpty(groups: seq<(Kind, seq<MissingTranslation>)>)
    ensures CopyPaste(groups) == "" <==> forall i :: 0 <= i < |groups| ==> groups[i].1 == []
  {
    if groups != [] {
      var n := |groups| - 1;
      CopyPasteEmpty(groups[..n]);
      BlockEmpty(groups[n]);
      if groups[n].1 == [] {
        assert CopyPaste(groups) == CopyPaste(groups[..n]);
        assert forall i :: 0 <= i < n ==> groups[..n][i] == groups[i];
      } else {
        assert |CopyPaste(groups)| >= |Block(groups[n])| > 0;
      }
    }
  }

  /** A group contributes nothing exactly when it is empty. */
  lemma BlockEmpty(group: (Kind, seq<MissingTranslation>))
    ensures Block(group) == "" <==> group.1 == []
  {
    if group.1 != [] {
      assert |Header(group.0, |group.1|)| > 0;
    }
  }

  /** With no entries the export is empty; with any, it is not. */
  lemma ExportEmptyIffNoEntries(entries: seq<MissingTranslation>)
    ensures CopyPaste(Grouped(SortedEntries(entries))) == "" <==> entries == []
  {
    var all := SortedEntries(entries);
    assert |all| == |multiset(all)| == |multiset(entries)| == |entries|;
    CopyPasteEmpty(Grouped(all));
    GroupedPlacement(all);
    if entries != [] {
      assert all[0] in all;
    }
  }
}
