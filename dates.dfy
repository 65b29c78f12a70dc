/**
 * Calendar arithmetic in place of JavaScript `Date`. A date is the
 * `YYYY-MM-DD` a task stores, months counted 1..12; `DayNumber` counts days
 * from 1970-01-01 (a Thursday) in the proleptic Gregorian calendar, and
 * instants are milliseconds on the same axis (UTC).
 */
module Dates {
  import opened Options
  import opened Strings

  datatype Date = Date(year: int, month: int, day: int)

  const DAY_MS: int := 86_400_000
  const HOUR_MS: int := 3_600_000
  const MINUTE_MS: int := 60_000

  predicate IsLeapYear(y: int) {
    (y % 4 == 0 && y % 100 != 0) || y % 400 == 0
  }

  /** Gregorian month lengths, February having 29 days in leap years. */
  function DaysInMonth(y: int, m: int): (n: int)
    requires 1 <= m <= 12
    ensures 28 <= n <= 31
  {
    if m == 2 then (if IsLeapYear(y) then 29 else 28)
    else if m == 4 || m == 6 || m == 9 || m == 11 then 30
    else 31
  }

  predicate ValidDate(d: Date) {
    1 <= d.month <= 12 && 1 <= d.day <= DaysInMonth(d.year, d.month)
  }

  function DaysInYear(y: int): int {
    if IsLeapYear(y) then 366 else 365
  }

  /** Day number of January 1 of year `y`. */
  function YearStart(y: int): int
    decreases if y < 1970 then 1970 - y else y - 1970
  {
    if y == 1970 then 0
    else if y > 1970 then YearStart(y - 1) + DaysInYear(y - 1)
    else YearStart(y + 1) - DaysInYear(y)
  }

  /** Days of year `y` before the first of month `m` (`m == 13` gives the whole year). */
  function DaysBeforeMonth(y: int, m: int): int
    requires 1 <= m <= 13
  {
    var common :=
      if m == 1 then 0 else if m == 2 then 31 else if m == 3 then 59
      else if m == 4 then 90 else if m == 5 then 120 else if m == 6 then 151
      else if m == 7 then 181 else if m == 8 then 212 else if m == 9 then 243
      else if m == 10 then 273 else if m == 11 then 304 else if m == 12 then 334
      else 365;
    common + (if m > 2 && IsLeapYear(y) then 1 else 0)
  }

  /** Days since 1970-01-01; the day field may lie outside the month. */
  function DayNumber(d: Date): int
    requires 1 <= d.month <= 12
  {
    YearStart(d.year) + DaysBeforeMonth(d.year, d.month) + d.day - 1
  }

  /** `getDay()`: 0 is Sunday, 6 is Saturday. 1970-01-01 was a Thursday. */
  function Weekday(dayNumber: int): (w: int)
    ensures 0 <= w <= 6
  {
    (dayNumber + 4) % 7
  }

  function NextMonth(y: int, m: int): (r: (int, int))
    requires 1 <= m <= 12
    ensures 1 <= r.1 <= 12
  {
    if m == 12 then (y + 1, 1) else (y, m + 1)
  }

  function PrevMonth(y: int, m: int): (r: (int, int))
    requires 1 <= m <= 12
    ensures 1 <= r.1 <= 12
  {
    if m == 1 then (y - 1, 12) else (y, m - 1)
  }

  lemma YearStep(y: int)
    ensures YearStart(y + 1) == YearStart(y) + DaysInYear(y)
  {
  }

  /** The first of the following month lies one month length later. */
  lemma MonthStep(y: int, m: int)
    requires 1 <= m <= 12
    ensures DayNumber(Date(NextMonth(y, m).0, NextMonth(y, m).1, 1))
         == DayNumber(Date(y, m, 1)) + DaysInMonth(y, m)
  {
    if m == 12 {
      YearStep(y);
    }
  }

  /**
   * Rolling an out-of-range day into neighbouring months, as `new Date(y, m, d)`
   * and `setDate` do: day 0 is the last day of the previous month, day 32 of a
   * 31-day month is the first of the next.
   */
  function RollDays(y: int, m: int, d: int): (r: Date)
    requires 1 <= m <= 12
    ensures ValidDate(r)
    ensures DayNumber(r) == DayNumber(Date(y, m, 1)) + d - 1
    decreases (if d < 1 then 1 - d else 0), (if d >= 1 then d else 0)
  {
    if d < 1 then
      var p := PrevMonth(y, m);
      MonthStep(p.0, p.1);
      RollDays(p.0, p.1, d + DaysInMonth(p.0, p.1))
    else if d > DaysInMonth(y, m) then
      var n := NextMonth(y, m);
      MonthStep(y, m);
      RollDays(n.0, n.1, d - DaysInMonth(y, m))
    else
      Date(y, m, d)
  }

  /** A day that fits its month does not roll. */
  lemma RollDaysInRange(y: int, m: int, d: int)
    requires 1 <= m <= 12 && 1 <= d <= DaysInMonth(y, m)
    ensures RollDays(y, m, d) == Date(y, m, d)
  {
  }

  /** A month count outside 1..12 carried into the year: the same month, counted from year 0. */
  function RollMonths(y: int, m: int): (r: (int, int))
    ensures 1 <= r.1 <= 12
    ensures 12 * r.0 + r.1 == 12 * y + m
  {
    (y + (m - 1) / 12, (m - 1) % 12 + 1)
  }

  /** `new Date(y, m - 1, d)` with any month and day: months roll into years, then days into months. */
  function Normalize(y: int, m: int, d: int): (r: Date)
    ensures ValidDate(r)
    ensures var ym := RollMonths(y, m); DayNumber(r) == DayNumber(Date(ym.0, ym.1, 1)) + d - 1
  {
    var ym := RollMonths(y, m);
    RollDays(ym.0, ym.1, d)
  }

  /** A date already in range is its own normal form. */
  lemma NormalizeValid(d: Date)
    requires ValidDate(d)
    ensures Normalize(d.year, d.month, d.day) == d
  {
    assert RollMonths(d.year, d.month) == (d.year, d.month);
    RollDaysInRange(d.year, d.month, d.day);
  }

  /** `setDate(getDate() + k)`: exactly `k` days later. */
  function AddDays(d: Date, k: int): (r: Date)
    requires 1 <= d.month <= 12
    ensures ValidDate(r)
    ensures DayNumber(r) == DayNumber(d) + k
  {
    Normalize(d.year, d.month, d.day + k)
  }

  /**
   * `setMonth(getMonth() + k)`: the same day-of-month `k` months later, an
   * overflowing day rolling into the month after (January 31 plus one month
   * is March 2 or 3).
   */
  function AddMonths(d: Date, k: int): (r: Date)
    requires 1 <= d.month <= 12
    ensures ValidDate(r)
    ensures var ym := RollMonths(d.year, d.month + k);
            DayNumber(r) == DayNumber(Date(ym.0, ym.1, 1)) + d.day - 1
  {
    Normalize(d.year, d.month + k, d.day)
  }

  /** When the day fits the target month, one month later keeps the day-of-month. */
  lemma AddMonthsKeepsDay(d: Date, k: int)
    requires ValidDate(d)
    requires var ym := RollMonths(d.year, d.month + k); d.day <= DaysInMonth(ym.0, ym.1)
    ensures var ym := RollMonths(d.year, d.month + k);
            AddMonths(d, k) == Date(ym.0, ym.1, d.day)
  {
    var ym := RollMonths(d.year, d.month + k);
    RollDaysInRange(ym.0, ym.1, d.day);
  }

  /** Midnight (UTC) at the start of a date, in milliseconds. */
  function StartOfDay(d: Date): int
    requires 1 <= d.month <= 12
  {
    DayNumber(d) * DAY_MS
  }

  /**
   * The instant named by a time input's `HH:MM` text, as an offset from
   * midnight in milliseconds (`24:00` is the end of the day). `None` for any
   * other text, which makes the ISO date-time invalid.
   */
  function ParseClock(s: string): (r: Option<int>)
    ensures r.Some? ==> 0 <= r.value <= DAY_MS
    ensures r.Some? ==> |s| == 5 && s[2] == ':'
  {
    if |s| == 5 && IsDigit(s[0]) && IsDigit(s[1]) && s[2] == ':' && IsDigit(s[3]) && IsDigit(s[4]) then
      var h := DigitValue(s[0]) * 10 + DigitValue(s[1]);
      var m := DigitValue(s[3]) * 10 + DigitValue(s[4]);
      if (h < 24 && m < 60) || (h == 24 && m == 0) then Some(h * HOUR_MS + m * MINUTE_MS) else None
    else None
  }

  /** The `HH:MM` text a time input gives for hour `h` and minute `m`: two digits, a colon, two digits. */
  function ClockText(h: nat, m: nat): string
    requires h < 24 && m < 60
  {
    [DigitChar(h / 10), DigitChar(h % 10), ':', DigitChar(m / 10), DigitChar(m % 10)]
  }

  /** Reading a formatted time gives back the hour and minute. */
  lemma ParseClockText(h: nat, m: nat)
    requires h < 24 && m < 60
    ensures ParseClock(ClockText(h, m)) == Some(h * HOUR_MS + m * MINUTE_MS)
  {
    var s := ClockText(h, m);
    assert DigitValue(s[0]) * 10 + DigitValue(s[1]) == h;
    assert DigitValue(s[3]) * 10 + DigitValue(s[4]) == m;
  }

  /** `new Date(`${date}T${time}`)` in milliseconds; `None` is an invalid date. */
  function DateTimeInstant(date: Date, time: string): (r: Option<int>)
    ensures r.Some? <==> ValidDate(date) && ParseClock(time).Some?
    ensures r.Some? ==> r.value == StartOfDay(date) + ParseClock(time).value
  {
    if !ValidDate(date) then None
    else
      var c := ParseClock(time);
      if c.None? then None else Some(StartOfDay(date) + c.value)
  }
}
