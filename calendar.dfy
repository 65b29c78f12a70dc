/**
 * The calendar page: the six-week month grid, the tasks of one day with
 * their three-line preview, the seven-day week view and month navigation.
 * Months are numbered 1..12 here where JavaScript counts 0..11.
 */
module Calendar {
  import opened Dates
  import opened Seqs
  import opened TaskTypes

  /** `getDaysInMonth`: day 0 of the following month is the last day of this one. */
  function GetDaysInMonth(year: int, month: int): (n: int)
    requires 1 <= month <= 12
    ensures n == DaysInMonth(year, month)
  {
    var r := Normalize(year, month + 1, 0);
    LastDayRollsBack(year, month);
    r.day
  }

  lemma LastDayRollsBack(year: int, month: int)
    requires 1 <= month <= 12
    ensures Normalize(year, month + 1, 0) == Date(year, month, DaysInMonth(year, month))
  {
    var n := NextMonth(year, month);
    assert RollMonths(year, month + 1) == n;
    assert PrevMonth(n.0, n.1) == (year, month);
  }

  /** `getFirstDayOfMonth`: the weekday (0 = Sunday) of the first of the month. */
  function GetFirstDayOfMonth(year: int, month: int): (w: int)
    requires 1 <= month <= 12
    ensures 0 <= w <= 6
  {
    Weekday(DayNumber(Date(year, month, 1)))
  }

  /** A month starts the weekday after its predecessor's last day. */
  lemma FirstDayOfNextMonth(year: int, month: int)
    requires 1 <= month <= 12
    ensures var n := NextMonth(year, month);
            GetFirstDayOfMonth(n.0, n.1) == (GetFirstDayOfMonth(year, month) + DaysInMonth(year, month)) % 7
  {
    MonthStep(year, month);
    WeekdayShift(DayNumber(Date(year, month, 1)), DaysInMonth(year, month));
  }

  /** Moving `k` days on moves the weekday `k` places on, modulo seven. */
  lemma WeekdayShift(n: int, k: int)
    ensures Weekday(n + k) == (Weekday(n) + k) % 7
  {
    var q := n + 4;
    assert q == 7 * (q / 7) + q % 7;
    ModSevenShift(q / 7, q % 7 + k);
  }

  lemma ModSevenShift(a: int, b: int)
    ensures (7 * a + b) % 7 == b % 7
  {
  }

  /** One square of the month grid. */
  datatype Cell = Cell(date: Date, isCurrentMonth: bool, isToday: bool)

  /**
   * Square `k` of the grid: the tail of the previous month up to the first
   * weekday, the month's own days, then the head of the following month.
   */
  function CellAt(year: int, month: int, today: Date, k: int): Cell
    requires 1 <= month <= 12 && 0 <= k < 42
  {
    var p := PrevMonth(year, month);
    GridCell(year, month, today, GetFirstDayOfMonth(year, month), GetDaysInMonth(year, month),
             GetDaysInMonth(p.0, p.1), k)
  }

  /** Square `k` given the first weekday and the lengths of the month and of the one before. */
  function GridCell(year: int, month: int, today: Date, first: int, dim: int, prevDim: int, k: int): Cell
    requires 1 <= month <= 12
  {
    if k < first then
      var p := PrevMonth(year, month);
      Cell(Date(p.0, p.1, prevDim - first + 1 + k), false, false)
    else if k < first + dim then
      var d := Date(year, month, k - first + 1);
      Cell(d, true, d == today)
    else
      var n := NextMonth(year, month);
      Cell(Date(n.0, n.1, k - first - dim + 1), false, false)
  }

  /**
   * `generateCalendarDays`: three loops push the previous month's tail, the
   * month and the following month's head, up to 42 squares.
   */
  method GenerateCalendarDays(year: int, month: int, today: Date) returns (days: seq<Cell>)
    requires 1 <= month <= 12
    ensures |days| == 42
    ensures forall k :: 0 <= k < 42 ==> days[k] == CellAt(year, month, today, k)
  {
    var daysInMonth := GetDaysInMonth(year, month);
    var firstDay := GetFirstDayOfMonth(year, month);
    var prev := PrevMonth(year, month);
    var daysInPrevMonth := GetDaysInMonth(prev.0, prev.1);
    days := FillGrid(year, month, today, firstDay, daysInMonth, daysInPrevMonth);
  }

  /** The three loops, given the first weekday and the lengths of the month and of the one before. */
  method FillGrid(year: int, month: int, today: Date, firstDay: int, daysInMonth: int, daysInPrevMonth: int)
    returns (days: seq<Cell>)
    requires 1 <= month <= 12 && 0 <= firstDay <= 6 && 28 <= daysInMonth <= 31
    ensures |days| == 42
    ensures forall k :: 0 <= k < 42 ==> days[k] == GridCell(year, month, today, firstDay, daysInMonth, daysInPrevMonth, k)
  {
    days := [];
    var prev := PrevMonth(year, month);
    var i := firstDay - 1;
    while i >= 0
      invariant -1 <= i <= firstDay - 1
      invariant |days| == firstDay - 1 - i
      invariant forall k :: 0 <= k < |days| ==>
                  days[k] == GridCell(year, month, today, firstDay, daysInMonth, daysInPrevMonth, k)
    {
      days := days + [Cell(Date(prev.0, prev.1, daysInPrevMonth - i), false, false)];
      i := i - 1;
    }
    var j := 1;
    while j <= daysInMonth
      invariant 1 <= j <= daysInMonth + 1
      invariant |days| == firstDay + j - 1
      invariant forall k :: 0 <= k < |days| ==>
                  days[k] == GridCell(year, month, today, firstDay, daysInMonth, daysInPrevMonth, k)
    {
      var date := Date(year, month, j);
      var isToday := date.day == today.day && date.month == today.month && date.year == today.year;
      days := days + [Cell(date, true, isToday)];
      j := j + 1;
    }
    var next := NextMonth(year, month);
    var remainingDays := 42 - |days|;
    var l := 1;
    while l <= remainingDays
      invariant 1 <= l <= remainingDays + 1
      invariant |days| == firstDay + daysInMonth + l - 1
      invariant forall k :: 0 <= k < |days| ==>
                  days[k] == GridCell(year, month, today, firstDay, daysInMonth, daysInPrevMonth, k)
    {
      days := days + [Cell(Date(next.0, next.1, l), false, false)];
      l := l + 1;
    }
  }

  /** A square in terms of the month's first weekday and month lengths. */
  lemma CellAtGrid(year: int, month: int, today: Date, k: int)
    requires 1 <= month <= 12 && 0 <= k < 42
    ensures var p := PrevMonth(year, month);
            CellAt(year, month, today, k)
            == GridCell(year, month, today, GetFirstDayOfMonth(year, month), DaysInMonth(year, month),
                        DaysInMonth(p.0, p.1), k)
  {
  }

  /**
   * The grid is 42 consecutive real dates: square `k` lies `k` days after
   * the Sunday on or before the first of the month.
   */
  lemma GridIsConsecutive(year: int, month: int, today: Date, k: int)
    requires 1 <= month <= 12 && 0 <= k < 42
    ensures var c := CellAt(year, month, today, k);
            && ValidDate(c.date)
            && DayNumber(c.date) == DayNumber(Date(year, month, 1)) - GetFirstDayOfMonth(year, month) + k
  {
    var p := PrevMonth(year, month);
    CellAtGrid(year, month, today, k);
    MonthStep(p.0, p.1);
    MonthStep(year, month);
  }

  /** Column `k % 7` of the grid is the weekday of its date, Sunday first. */
  lemma GridColumnsAreWeekdays(year: int, month: int, today: Date, k: int)
    requires 1 <= month <= 12 && 0 <= k < 42
    ensures Weekday(DayNumber(CellAt(year, month, today, k).date)) == k % 7
  {
    GridIsConsecutive(year, month, today, k);
    var n := DayNumber(Date(year, month, 1));
    assert GetFirstDayOfMonth(year, month) == Weekday(n);
    WeekdayFromSunday(n, k, DayNumber(CellAt(year, month, today, k).date));
  }

  /** The month's own days fill the squares from its first weekday on, in order, and no other square. */
  lemma GridHoldsTheMonth(year: int, month: int, today: Date, k: int)
    requires 1 <= month <= 12 && 0 <= k < 42
    ensures var first := GetFirstDayOfMonth(year, month);
            var c := CellAt(year, month, today, k);
            && (c.isCurrentMonth <==> first <= k < first + DaysInMonth(year, month))
            && (c.isCurrentMonth <==> c.date.year == year && c.date.month == month)
  {
    var p := PrevMonth(year, month);
    var n := NextMonth(year, month);
    assert p != (year, month) && n != (year, month);
  }

  /** Only a square of the month itself can be today, and at most one is. */
  lemma AtMostOneToday(year: int, month: int, today: Date, j: int, k: int)
    requires 1 <= month <= 12 && 0 <= j < 42 && 0 <= k < 42
    requires CellAt(year, month, today, j).isToday && CellAt(year, month, today, k).isToday
    ensures CellAt(year, month, today, j).isCurrentMonth
    ensures j == k
  {
    CellAtGrid(year, month, today, j);
    CellAtGrid(year, month, today, k);
  }

  /** When today falls in the month shown, its square is marked. */
  lemma TodayIsMarked(year: int, month: int, today: Date)
    requires 1 <= month <= 12
    requires today.year == year && today.month == month && 1 <= today.day <= DaysInMonth(year, month)
    ensures var k := GetFirstDayOfMonth(year, month) + today.day - 1;
            0 <= k < 42 && CellAt(year, month, today, k).isToday
  {
  }

  /** `getTasksForDate`: the tasks due on the date, in list order. */
  function TasksForDate(tasks: seq<Task>, date: Date): (r: seq<Task>)
    ensures IsSubsequence(r, tasks)
    ensures forall t :: t in r <==> t in tasks && t.dueDate == date
    ensures forall t :: multiset(r)[t] == if t.dueDate == date then multiset(tasks)[t] else 0
  {
    var dueOn := (t: Task) => t.dueDate == date;
    FilterMembers(tasks, dueOn);
    Filter(tasks, dueOn)
  }

  /** A day's square: the first three tasks, and `+n more` when `n` are left over. */
  function DayPreview(tasks: seq<Task>): (r: (seq<Task>, nat))
    ensures |r.0| <= 3 && |r.0| <= |tasks| && r.0 == tasks[..|r.0|]
    ensures r.1 > 0 <==> |tasks| > 3
    ensures r.1 > 0 ==> |r.0| == 3 && r.1 == |tasks| - 3
    ensures r.1 == 0 ==> r.0 == tasks
  {
    Truncate(tasks, 3)
  }

  /** The Sunday on or before a date: stepped back by its own weekday. */
  function WeekStart(current: Date): Date
    requires 1 <= current.month <= 12
  {
    AddDays(current, -Weekday(DayNumber(current)))
  }

  /**
   * The week view's days: back to the Sunday of the current date's week,
   * then seven days on.
   */
  method WeekDays(current: Date) returns (week: seq<Date>)
    requires 1 <= current.month <= 12
    ensures |week| == 7
    ensures forall i :: 0 <= i < 7 ==> week[i] == AddDays(WeekStart(current), i)
  {
    var day := Weekday(DayNumber(current));
    var startOfWeek := AddDays(current, -day);
    assert startOfWeek == WeekStart(current);
    week := [];
    var i := 0;
    while i < 7
      invariant 0 <= i <= 7 && |week| == i
      invariant forall k :: 0 <= k < i ==> week[k] == AddDays(startOfWeek, k)
    {
      week := week + [AddDays(startOfWeek, i)];
      i := i + 1;
    }
  }

  /**
   * The week view runs Sunday to Saturday: day `i` is a real date `i` days
   * after the Sunday of the current date's week and falls on weekday `i`,
   * so the current date itself sits at its own weekday.
   */
  lemma WeekIsSundayToSaturday(current: Date, i: int)
    requires ValidDate(current) && 0 <= i < 7
    ensures var d, n := AddDays(WeekStart(current), i), DayNumber(current);
            && ValidDate(d)
            && DayNumber(d) == n - Weekday(n) + i
            && Weekday(DayNumber(d)) == i
  {
    var n := DayNumber(current);
    var start := WeekStart(current);
    var dn := DayNumber(AddDays(start, i));
    assert dn == DayNumber(start) + i == n - Weekday(n) + i;
    WeekdayFromSunday(n, i, dn);
  }

  /** `k` days after the Sunday on or before day `n` is weekday `k % 7`. */
  lemma WeekdayFromSunday(n: int, k: int, d: int)
    requires 0 <= k < 42 && d == n - Weekday(n) + k
    ensures Weekday(d) == k % 7
    ensures k < 7 ==> Weekday(d) == k
  {
    SundayStart(n);
    WeekdayStep(n - Weekday(n), k);
  }

  /** Stepping back by its own weekday lands on a Sunday. */
  lemma SundayStart(n: int)
    ensures Weekday(n - Weekday(n)) == 0
  {
    WeekdayShift(n, -Weekday(n));
  }

  lemma WeekdayStep(n: int, k: int)
    requires Weekday(n) == 0 && 0 <= k < 42
    ensures Weekday(n + k) == k % 7
  {
    WeekdayShift(n, k);
  }

  /** The month index of a date: twelve per year. */
  function MonthIndex(d: Date): int {
    d.year * 12 + d.month - 1
  }

  /**
   * `setMonth(getMonth() + k)` as the navigation buttons call it: the day
   * overflows into the month after when the target month is shorter.
   */
  function ShiftMonthAsWritten(d: Date, k: int): (r: Date)
    requires 1 <= d.month <= 12
    ensures ValidDate(r)
  {
    AddMonths(d, k)
  }

  /**
   * In any year, from January 31 the next-month button skips February, and
   * from March 31 the previous-month button stays in March: both land on
   * March 3, or March 2 in a leap year.
   */
  lemma MonthButtonsSkipOrStay(y: int)
    ensures ShiftMonthAsWritten(Date(y, 1, 31), 1) == Date(y, 3, 31 - DaysInMonth(y, 2))
    ensures ShiftMonthAsWritten(Date(y, 3, 31), -1) == Date(y, 3, 31 - DaysInMonth(y, 2))
  {
    assert ShiftMonthAsWritten(Date(y, 1, 31), 1) == Normalize(y, 2, 31);
    assert ShiftMonthAsWritten(Date(y, 3, 31), -1) == Normalize(y, 2, 31);
    FebruaryThirtyFirst(y);
  }

  /** February 31 rolls over into March. */
  lemma FebruaryThirtyFirst(y: int)
    ensures Normalize(y, 2, 31) == Date(y, 3, 31 - DaysInMonth(y, 2))
  {
    assert RollMonths(y, 2) == (y, 2);
    assert RollDays(y, 2, 31) == RollDays(y, 3, 31 - DaysInMonth(y, 2));
  }

  /** Month navigation as intended: the same day-of-month, clamped to the target month's length. */
  function ShiftMonth(d: Date, k: int): (r: Date)
    requires 1 <= d.month <= 12
    ensures ValidDate(r)
    ensures MonthIndex(r) == MonthIndex(d) + k
    ensures ValidDate(d) ==> r.day == if d.day <= DaysInMonth(r.year, r.month) then d.day else DaysInMonth(r.year, r.month)
  {
    var ym := RollMonths(d.year, d.month + k);
    var last := DaysInMonth(ym.0, ym.1);
    Date(ym.0, ym.1, if 1 <= d.day <= last then d.day else if d.day < 1 then 1 else last)
  }

  /** Going back a month and forward again returns to the same month. */
  lemma ShiftMonthBackAndForth(d: Date)
    requires ValidDate(d)
    ensures MonthIndex(ShiftMonth(ShiftMonth(d, -1), 1)) == MonthIndex(d)
    ensures d.day <= 28 ==> ShiftMonth(ShiftMonth(d, -1), 1) == d
  {
  }

  datatype View = MonthView | WeekView

  /** The page's state: the date whose month (or week) is shown, and the view. */
  class CalendarPage {
    var currentDate: Date
    var view: View

    predicate Valid()
      reads this
    {
      ValidDate(currentDate)
    }

    constructor (today: Date)
      requires ValidDate(today)
      ensures Valid() && currentDate == today && view == MonthView
    {
      currentDate := today;
      view := MonthView;
    }

    /** `handlePrevMonth`, with the day clamped (the month always moves back by one). */
    method ShowPreviousMonth()
      requires Valid()
      modifies this
      ensures Valid()
      ensures currentDate == ShiftMonth(old(currentDate), -1) && view == old(view)
    {
      currentDate := ShiftMonth(currentDate, -1);
    }

    /** `handleNextMonth`, with the day clamped (the month always moves on by one). */
    method ShowNextMonth()
      requires Valid()
      modifies this
      ensures Valid()
      ensures currentDate == ShiftMonth(old(currentDate), 1) && view == old(view)
    {
      currentDate := ShiftMonth(currentDate, 1);
    }

    method SetView(v: View)
      requires Valid()
      modifies this
      ensures Valid() && view == v && currentDate == old(currentDate)
    {
      view := v;
    }
  }
}
