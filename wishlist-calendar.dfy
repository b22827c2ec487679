/**
 * The wishlist calendar: the saved events of a day, the six-week grid of a month whose
 * weeks start on Monday, and the events listed beside it. Calendar dates are day numbers
 * (days since 1970-01-01, a Thursday); `dayString` stands for
 * `toISOString().split("T")[0]` of a day and `time` for `new Date(term).getTime()`.
 */
module WishlistCalendar {
  import opened Wrappers
  import Seqs
  import Strs
  import Sorting
  import Types

  /** The date part of a term: what precedes its first "T". */
  function TermDate(term: string): string {
    Strs.Split(term, 'T')[0]
  }

  /** Whether an event is a saved event of the day `dateString`. */
  function OnDate(dateString: string): Types.Event -> bool {
    (e: Types.Event) => Truthy(e.term) && TermDate(e.term.value) == dateString
  }

  /** `getEventsForDate`: the saved events whose term falls on `dateString`, in saved order. */
  function EventsForDate(saved: seq<Types.Event>, dateString: string): seq<Types.Event> {
    Seqs.Filter(OnDate(dateString), saved)
  }

  /** The events of a day are the saved events dated that day, kept in saved order. */
  lemma EventsForDateExact(saved: seq<Types.Event>, dateString: string)
    ensures Seqs.IsSubseq(EventsForDate(saved, dateString), saved)
    ensures forall e :: e in EventsForDate(saved, dateString) <==>
      e in saved && Truthy(e.term) && TermDate(e.term.value) == dateString
  {
    Seqs.FilterMembers(OnDate(dateString), saved);
    Seqs.FilterIsSubseq(OnDate(dateString), saved);
  }

  // ---------------------------------------------------------------------------
  // The month grid

  /** `getDay()` of a day number: 0 is Sunday. */
  function Weekday(day: int): (r: nat)
    ensures r < 7
  {
    (day + 4) % 7
  }

  /** The number of cells before the 1st, for weeks that start on Monday. */
  function MondayOffset(weekday: nat): (r: nat)
    requires weekday < 7
    ensures r < 7
    ensures weekday == 0 ==> r == 6
    ensures weekday != 0 ==> r == weekday - 1
  {
    if weekday == 0 then 6 else weekday - 1
  }

  predicate LeapYear(year: int) {
    (year % 4 == 0 && year % 100 != 0) || year % 400 == 0
  }

  /** `new Date(year, month + 1, 0).getDate()` for a `getMonth()` value. */
  function DaysInMonth(year: int, month: nat): (r: nat)
    requires month < 12
    ensures 28 <= r <= 31
  {
    if month == 1 then (if LeapYear(year) then 29 else 28)
    else if month == 3 || month == 5 || month == 8 || month == 10 then 30
    else 31
  }

  datatype DayData = DayData(
    date: string, isCurrentMonth: bool, isToday: bool, isSelected: bool, events: seq<Types.Event>)

  /** The inputs of a cell: what the day strings, today's string, the selection and the saved events are. */
  datatype View = View(
    dayString: int -> string, todayString: string, selectedDate: Option<string>, saved: seq<Types.Event>)

  /** The cell of the day `day`. */
  function Cell(v: View, day: int, isCurrentMonth: bool): DayData {
    var dateString := v.dayString(day);
    DayData(dateString, isCurrentMonth, dateString == v.todayString, Some(dateString) == v.selectedDate,
            EventsForDate(v.saved, dateString))
  }

  /** The cell at position `k` of a grid that starts on day `start` and shows the month in `[lo, hi)`. */
  predicate CellAt(v: View, days: seq<DayData>, k: nat, start: int, lo: nat, hi: nat)
    requires k < |days|
  {
    days[k] == Cell(v, start + k, lo <= k < hi)
  }

  lemma CellsSnoc(v: View, days: seq<DayData>, c: DayData, start: int, lo: nat, hi: nat)
    requires forall k :: 0 <= k < |days| ==> CellAt(v, days, k, start, lo, hi)
    requires c == Cell(v, start + |days|, lo <= |days| < hi)
    ensures forall k :: 0 <= k < |days| + 1 ==> CellAt(v, days + [c], k, start, lo, hi)
  {
    forall k | 0 <= k < |days| + 1 ensures CellAt(v, days + [c], k, start, lo, hi) {
      if k < |days| {
        assert CellAt(v, days, k, start, lo, hi);
      }
    }
  }

  /**
   * The `days` grid of the month `month` of `year` whose 1st is the day number `first`:
   * the end of the previous month, the month itself and the start of the next one.
   */
  method Days(v: View, year: int, month: nat, first: int) returns (daysArray: seq<DayData>)
    requires month < 12
    ensures |daysArray| == 42
    ensures forall k :: 0 <= k < 42 ==>
      daysArray[k] == Cell(v, first - MondayOffset(Weekday(first)) + k,
                           MondayOffset(Weekday(first)) <= k < MondayOffset(Weekday(first)) + DaysInMonth(year, month))
  {
    var startDayOfWeek := Weekday(first);
    startDayOfWeek := if startDayOfWeek == 0 then 6 else startDayOfWeek - 1;
    assert startDayOfWeek == MondayOffset(Weekday(first));
    var lastDay := DaysInMonth(year, month);
    ghost var start := first - startDayOfWeek;
    ghost var hi := startDayOfWeek + lastDay;
    daysArray := [];
    for i := startDayOfWeek downto 0
      invariant |daysArray| == startDayOfWeek - i
      invariant forall k :: 0 <= k < |daysArray| ==> CellAt(v, daysArray, k, start, startDayOfWeek, hi)
    {
      CellsSnoc(v, daysArray, Cell(v, first - 1 - i, false), start, startDayOfWeek, hi);
      daysArray := daysArray + [Cell(v, first - 1 - i, false)];
    }
    for day := 1 to lastDay + 1
      invariant |daysArray| == startDayOfWeek + day - 1
      invariant forall k :: 0 <= k < |daysArray| ==> CellAt(v, daysArray, k, start, startDayOfWeek, hi)
    {
      CellsSnoc(v, daysArray, Cell(v, first + day - 1, true), start, startDayOfWeek, hi);
      daysArray := daysArray + [Cell(v, first + day - 1, true)];
    }
    var remainingDays := 42 - |daysArray|;
    for day := 1 to remainingDays + 1
      invariant |daysArray| == hi + day - 1
      invariant forall k :: 0 <= k < |daysArray| ==> CellAt(v, daysArray, k, start, startDayOfWeek, hi)
    {
      CellsSnoc(v, daysArray, Cell(v, first + lastDay + day - 1, false), start, startDayOfWeek, hi);
      daysArray := daysArray + [Cell(v, first + lastDay + day - 1, false)];
    }
    forall k | 0 <= k < 42
      ensures daysArray[k] == Cell(v, start + k, startDayOfWeek <= k < hi)
    {
      assert CellAt(v, daysArray, k, start, startDayOfWeek, hi);
    }
  }

  // ---------------------------------------------------------------------------
  // The list beside the grid

  predicate Dated(e: Types.Event) {
    Truthy(e.term)
  }

  /** The time of an event's term. */
  function TimeOf(time: string -> int, e: Types.Event): int {
    if e.term.Some? then time(e.term.value) else 0
  }

  /** The sort key that puts earlier terms first. */
  function Earliness(time: string -> int): Types.Event -> int {
    (e: Types.Event) => -TimeOf(time, e)
  }

  /** Ascending by time. */
  predicate Chronological(time: string -> int, s: seq<Types.Event>) {
    forall i, j :: 0 <= i < j < |s| ==> TimeOf(time, s[i]) <= TimeOf(time, s[j])
  }

  /**
   * `selectedDayEvents`: the events of the selected day, or, without a selection, the first
   * three dated events in time order.
   */
  function SelectedDayEvents(v: View, time: string -> int): (r: seq<Types.Event>)
    ensures Truthy(v.selectedDate) ==> r == EventsForDate(v.saved, v.selectedDate.value)
    ensures !Truthy(v.selectedDate) ==> |r| <= 3 && (forall i :: 0 <= i < |r| ==> Dated(r[i]))
  {
    if Truthy(v.selectedDate) then EventsForDate(v.saved, v.selectedDate.value)
    else
      var sorted := Sorting.SortDesc(Earliness(time), Seqs.Filter(Dated, v.saved));
      SortedDated(time, v.saved);
      if |sorted| <= 3 then sorted else sorted[..3]
  }

  // ---------------------------------------------------------------------------
  // Facts

  /** What the sort returns is the dated events, each as often as saved, in time order. */
  lemma SortedDated(time: string -> int, saved: seq<Types.Event>)
    ensures var sorted := Sorting.SortDesc(Earliness(time), Seqs.Filter(Dated, saved));
      (forall i :: 0 <= i < |sorted| ==> Dated(sorted[i])) &&
      multiset(sorted) == multiset(Seqs.Filter(Dated, saved))
  {
    var dated := Seqs.Filter(Dated, saved);
    var sorted := Sorting.SortDesc(Earliness(time), dated);
    forall i | 0 <= i < |sorted| ensures Dated(sorted[i]) {
      assert sorted[i] in multiset(dated);
      var j :| 0 <= j < |dated| && dated[j] == sorted[i];
    }
  }

  /** Without a selection, up to three dated events are listed, in time order. */
  lemma UnselectedInTimeOrder(v: View, time: string -> int)
    requires !Truthy(v.selectedDate)
    ensures var r := SelectedDayEvents(v, time);
      Chronological(time, r) && |r| == if Seqs.Count(Dated, v.saved) < 3 then Seqs.Count(Dated, v.saved) else 3
  {
    var sorted := Sorting.SortDesc(Earliness(time), Seqs.Filter(Dated, v.saved));
    SortedDated(time, v.saved);
    var r := SelectedDayEvents(v, time);
    forall i, j | 0 <= i < j < |r| ensures TimeOf(time, r[i]) <= TimeOf(time, r[j]) {
      assert Earliness(time)(sorted[i]) >= Earliness(time)(sorted[j]);
    }
  }

  /**
   * Without a selection, the listed events are taken from the dated saved events (each at
   * most as often as saved), and no dated event left off the list is earlier than a listed one.
   */
  lemma UnselectedEarliest(v: View, time: string -> int)
    requires !Truthy(v.selectedDate)
    ensures var r, dated := SelectedDayEvents(v, time), Seqs.Filter(Dated, v.saved);
      multiset(r) <= multiset(dated) &&
      forall e, x :: e in multiset(dated) - multiset(r) && x in r ==> TimeOf(time, x) <= TimeOf(time, e)
  {
    var dated := Seqs.Filter(Dated, v.saved);
    var sorted := Sorting.SortDesc(Earliness(time), dated);
    var r := SelectedDayEvents(v, time);
    assert r == sorted[..|r|];
    Sorting.PrefixLargest(Earliness(time), sorted, |r|);
    forall e, x | e in multiset(dated) - multiset(r) && x in r
      ensures TimeOf(time, x) <= TimeOf(time, e)
    {
      assert Earliness(time)(x) >= Earliness(time)(e);
    }
  }

  /** An event stands on the day its term names, whatever time of day follows the "T". */
  lemma EventOnItsDay(saved: seq<Types.Event>, e: Types.Event, day: string, rest: string)
    requires e in saved && 'T' !in day && e.term == Some(day + "T" + rest)
    ensures e in EventsForDate(saved, day)
  {
    EventsForDateExact(saved, day);
    Strs.SplitAfterFirst(day, 'T', rest);
  }

  /** An undated event is on no day. */
  lemma UndatedOnNoDay(saved: seq<Types.Event>, e: Types.Event, day: string)
    requires !Truthy(e.term)
    ensures e !in EventsForDate(saved, day)
  {
    EventsForDateExact(saved, day);
  }

  /** Every row of the grid starts on a Monday. */
  lemma RowsStartOnMonday(first: int, row: nat)
    ensures Weekday(first - MondayOffset(Weekday(first)) + 7 * row) == 1
  {
    var w := Weekday(first);
    assert (first + 4) % 7 == w;
    assert (first - MondayOffset(w) + 7 * row + 4) % 7 == (first - MondayOffset(w) + 4) % 7;
    if w == 0 {
      assert first + 4 - 6 == (first + 4) - 6;
    } else {
      assert first - (w - 1) + 4 == (first + 4) - w + 1;
    }
  }
}
