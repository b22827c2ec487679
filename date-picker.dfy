/**
 * The date-range picker of the sidebar: a selected range becomes the list of day strings
 * the dates filter holds. Days are day numbers; `dayString` stands for
 * `toISOString().split("T")[0]` of a day. The picker's own display state is not modelled.
 */
module DatePicker {
  import opened Wrappers
  import Seqs
  import Strs
  import EventFilters

  /** A `DateRange` of the day picker: either end may be missing. */
  datatype DateRange = DateRange(from: Option<int>, to: Option<int>)

  /** The days `lo`, `lo + 1`, ..., up to but not including `hi`. */
  function DayRange(lo: int, hi: int): (r: seq<int>)
    ensures |r| == if hi > lo then hi - lo else 0
    ensures forall i :: 0 <= i < |r| ==> r[i] == lo + i
  {
    if hi <= lo then [] else seq(hi - lo, i => lo + i)
  }

  /** The day strings of the days `[lo, hi)`, skipping any that are empty. */
  function DayStrings(dayString: int -> string, lo: int, hi: int): seq<string> {
    Seqs.Filter(Strs.NonEmptyString, Seqs.Map(dayString, DayRange(lo, hi)))
  }

  /** The value `handleSelect` gives the dates filter for `range`. */
  method HandleSelect(range: Option<DateRange>, dayString: int -> string) returns (dates: Option<seq<string>>)
    ensures (range.None? || range.value.from.None?) ==> dates.None?
    ensures range.Some? && range.value.from.Some? ==>
      var from := range.value.from.value;
      dates == EventFilters.NonEmptyOrUndefined(DayStrings(dayString, from, range.value.to.GetOr(from) + 1))
  {
    if range.Some? && range.value.from.Some? {
      var list: seq<string> := [];
      var current := range.value.from.value;
      var end := range.value.to.GetOr(range.value.from.value);
      end := end + 1;
      while current < end
        invariant range.value.from.value <= current
        invariant current <= end || current == range.value.from.value
        invariant list == DayStrings(dayString, range.value.from.value, current)
        decreases end - current
      {
        var dateString := dayString(current);
        DayStringsSnoc(dayString, range.value.from.value, current);
        if dateString != "" {
          list := list + [dateString];
        }
        current := current + 1;
      }
      assert list == DayStrings(dayString, range.value.from.value, end) by {
        if end <= range.value.from.value {
          assert DayRange(range.value.from.value, current) == [] == DayRange(range.value.from.value, end);
        }
      }
      dates := EventFilters.NonEmptyOrUndefined(list);
    } else {
      dates := None;
    }
  }

  // ---------------------------------------------------------------------------
  // Facts

  lemma DayStringsSnoc(dayString: int -> string, lo: int, hi: int)
    requires lo <= hi
    ensures DayStrings(dayString, lo, hi + 1) ==
      DayStrings(dayString, lo, hi) + if dayString(hi) != "" then [dayString(hi)] else []
  {
    assert DayRange(lo, hi + 1) == DayRange(lo, hi) + [hi];
    Seqs.MapSnoc(dayString, DayRange(lo, hi), hi);
    Seqs.FilterSnoc(Strs.NonEmptyString, Seqs.Map(dayString, DayRange(lo, hi)), dayString(hi));
  }

  /**
   * When no day string is empty, the filter gets every day from `from` to `to`, both
   * included, in ascending order: position `i` holds the day `from + i`.
   */
  lemma {:induction false} RangeIsEveryDay(dayString: int -> string, from: int, to: int)
    requires from <= to
    requires forall d :: from <= d <= to ==> dayString(d) != ""
    ensures DayStrings(dayString, from, to + 1) == Seqs.Map(dayString, DayRange(from, to + 1))
    ensures |DayStrings(dayString, from, to + 1)| == to - from + 1
  {
    var m := Seqs.Map(dayString, DayRange(from, to + 1));
    Seqs.FilterAll(Strs.NonEmptyString, m);
  }

  /** Only `from`: the single day `from`. */
  lemma OnlyFromIsOneDay(dayString: int -> string, from: int)
    requires dayString(from) != ""
    ensures DayStrings(dayString, from, from + 1) == [dayString(from)]
  {
    DayStringsSnoc(dayString, from, from);
  }

  /** An end before the start gives no day, so the dates filter is cleared. */
  lemma BackwardsRangeClears(dayString: int -> string, from: int, to: int)
    requires to < from
    ensures EventFilters.NonEmptyOrUndefined(DayStrings(dayString, from, to + 1)).None?
  {
    assert DayRange(from, to + 1) == [];
  }
}
