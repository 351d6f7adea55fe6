/**
 * Local calendar arithmetic behind the dashboard's date windows: JavaScript
 * `Date` values built from (year, month, day, time of day) in the server's
 * local time, with months numbered 0..11 as `getMonth()` returns them.
 * An instant is a count of milliseconds on a local-time axis whose day 0 is
 * 1 January of year 0 (proleptic Gregorian calendar).
 */
module Calendar {

  const MsPerDay: int := 86_400_000
  /** 23:59:59.999 as milliseconds after midnight. */
  const LastMsOfDay: int := MsPerDay - 1

  predicate IsLeapYear(y: int) {
    y % 4 == 0 && (y % 100 != 0 || y % 400 == 0)
  }

  /** Month lengths in a common year, January first. */
  const CommonMonthDays: seq<int> := [31, 28, 31, 30, 31, 30, 31, 31, 30, 31, 30, 31]

  /** Days of a common year before the first of each month; the last entry is the year's length. */
  const CommonDaysBefore: seq<int> := [0, 31, 59, 90, 120, 151, 181, 212, 243, 273, 304, 334, 365]

  function DaysInMonth(y: int, m: int): (n: int)
    requires 0 <= m < 12
    ensures 28 <= n <= 31
    ensures m == 1 ==> (n == 29 <==> IsLeapYear(y))
  {
    if m == 1 && IsLeapYear(y) then 29 else CommonMonthDays[m]
  }

  /** Days of year `y` before the first of month `m` (`m == 12` gives the length of the year). */
  function DaysBeforeMonth(y: int, m: int): int
    requires 0 <= m <= 12
  {
    CommonDaysBefore[m] + (if m >= 2 && IsLeapYear(y) then 1 else 0)
  }

  lemma DaysBeforeNextMonth(y: int, m: int)
    requires 0 <= m < 12
    ensures DaysBeforeMonth(y, m + 1) == DaysBeforeMonth(y, m) + DaysInMonth(y, m)
  {
  }

  /** Days from 1 January of year 0 to 1 January of year `y`, for any integer `y`. */
  function DaysBeforeYear(y: int): int {
    365 * y + (y + 3) / 4 - (y + 99) / 100 + (y + 399) / 400
  }

  /** Floor division by a positive constant steps up by one exactly when the year is a multiple. */
  lemma DivStep4(y: int)
    ensures (y + 4) / 4 - (y + 3) / 4 == if y % 4 == 0 then 1 else 0
  {
  }

  lemma DivStep100(y: int)
    ensures (y + 100) / 100 - (y + 99) / 100 == if y % 100 == 0 then 1 else 0
  {
  }

  lemma DivStep400(y: int)
    ensures (y + 400) / 400 - (y + 399) / 400 == if y % 400 == 0 then 1 else 0
  {
  }

  lemma MultipleOf400(y: int)
    requires y % 400 == 0
    ensures y % 100 == 0
  {
    var q := y / 400;
    assert y == 100 * (4 * q);
  }

  lemma MultipleOf100(y: int)
    requires y % 100 == 0
    ensures y % 4 == 0
  {
    var q := y / 100;
    assert y == 4 * (25 * q);
  }

  /** The closed form counts 366 days in a leap year and 365 otherwise. */
  lemma YearLength(y: int)
    ensures DaysBeforeYear(y + 1) == DaysBeforeYear(y) + DaysBeforeMonth(y, 12)
  {
    DivStep4(y);
    DivStep100(y);
    DivStep400(y);
    if y % 400 == 0 { MultipleOf400(y); }
    if y % 100 == 0 { MultipleOf100(y); }
    assert DaysBeforeMonth(y, 12) == 365 + (if IsLeapYear(y) then 1 else 0);
    assert DaysBeforeYear(y + 1) == 365 * y + 365 + (y + 4) / 4 - (y + 100) / 100 + (y + 400) / 400;
  }

  /** A calendar date; `month` is 0..11 as `Date.prototype.getMonth()` gives it. */
  datatype Date = Date(year: int, month: int, day: int)

  predicate ValidDate(d: Date) {
    0 <= d.month < 12 && 1 <= d.day <= DaysInMonth(d.year, d.month)
  }

  /** Days since 1 January of year 0. */
  function DayNumber(d: Date): int
    requires 0 <= d.month < 12
  {
    DaysBeforeYear(d.year) + DaysBeforeMonth(d.year, d.month) + d.day - 1
  }

  /** `new Date(y, m, d, h, min, s, ms).getTime()`, with the time of day in milliseconds. */
  function Instant(d: Date, msOfDay: int): int
    requires 0 <= d.month < 12
  {
    DayNumber(d) * 86_400_000 + msOfDay
  }

  /** "Now": today's date and the milliseconds since local midnight. */
  datatype LocalTime = LocalTime(date: Date, msOfDay: int)

  predicate ValidLocalTime(t: LocalTime) {
    ValidDate(t.date) && 0 <= t.msOfDay < MsPerDay
  }

  function InstantOf(t: LocalTime): int
    requires ValidLocalTime(t)
  {
    Instant(t.date, t.msOfDay)
  }

  /** An inclusive range of instants, as a query with `gte` and `lte` selects. */
  datatype Window = Window(start: int, end: int)

  predicate InWindow(t: int, w: Window) {
    w.start <= t <= w.end
  }

  /** A calendar month. */
  datatype YearMonth = YearMonth(year: int, month: int)

  function MonthIndex(ym: YearMonth): int {
    12 * ym.year + ym.month
  }

  function FromMonthIndex(idx: int): (ym: YearMonth)
    ensures 0 <= ym.month < 12 && MonthIndex(ym) == idx
  {
    YearMonth(idx / 12, idx % 12)
  }

  /** A month is the month of its own index. */
  lemma MonthIndexRoundTrip(ym: YearMonth)
    requires 0 <= ym.month < 12
    ensures FromMonthIndex(MonthIndex(ym)) == ym
  {
    var idx := MonthIndex(ym);
    assert idx == 12 * ym.year + ym.month;
    assert idx / 12 == ym.year && idx % 12 == ym.month;
  }

  /**
   * The month `new Date(y, m + k, 1)` falls in: JavaScript carries month
   * overflow and borrows month underflow into the year.
   */
  function AddMonths(ym: YearMonth, k: int): (r: YearMonth)
    requires 0 <= ym.month < 12
    ensures 0 <= r.month < 12 && MonthIndex(r) == MonthIndex(ym) + k
  {
    FromMonthIndex(MonthIndex(ym) + k)
  }

  /** Month overflow carries into the year and underflow borrows from it, as `Date` does. */
  lemma AddMonthsCarry(ym: YearMonth, k: int)
    requires 0 <= ym.month < 12
    ensures var r := AddMonths(ym, k);
      r.year == ym.year + (ym.month + k) / 12 && r.month == (ym.month + k) % 12
  {
    var r := AddMonths(ym, k);
    assert 12 * r.year + r.month == 12 * ym.year + ym.month + k;
  }

  /** `getStartOfMonth`: the first day of the month at 00:00:00.000. */
  function StartOfMonth(ym: YearMonth): int
    requires 0 <= ym.month < 12
  {
    Instant(Date(ym.year, ym.month, 1), 0)
  }

  /**
   * `getEndOfMonth`: `new Date(y, m + 1, 0, 23, 59, 59, 999)`, day 0 of the
   * next month being the last day of this one.
   */
  function EndOfMonth(ym: YearMonth): int
    requires 0 <= ym.month < 12
  {
    Instant(Date(ym.year, ym.month, DaysInMonth(ym.year, ym.month)), LastMsOfDay)
  }

  function MonthWindow(ym: YearMonth): Window
    requires 0 <= ym.month < 12
  {
    Window(StartOfMonth(ym), EndOfMonth(ym))
  }

  /** `getStartOfDay` and `getEndOfDay`. */
  function DayWindow(d: Date): Window
    requires 0 <= d.month < 12
  {
    Window(Instant(d, 0), Instant(d, LastMsOfDay))
  }

  /** `yesterday.setDate(yesterday.getDate() - 1)`: the calendar day before, across months and years. */
  function PrevDay(d: Date): (p: Date)
    requires ValidDate(d)
    ensures ValidDate(p)
  {
    if d.day > 1 then Date(d.year, d.month, d.day - 1)
    else if d.month > 0 then Date(d.year, d.month - 1, DaysInMonth(d.year, d.month - 1))
    else Date(d.year - 1, 11, 31)
  }

  /** The first day of the month with index `idx`. */
  function MonthStartDay(idx: int): int {
    var ym := FromMonthIndex(idx);
    DayNumber(Date(ym.year, ym.month, 1))
  }

  function MonthLength(idx: int): (n: int)
    ensures 28 <= n <= 31
  {
    var ym := FromMonthIndex(idx);
    DaysInMonth(ym.year, ym.month)
  }

  /** Consecutive months are consecutive runs of days. */
  lemma MonthStartStep(idx: int)
    ensures MonthStartDay(idx + 1) == MonthStartDay(idx) + MonthLength(idx)
  {
    var ym := FromMonthIndex(idx);
    var nx := FromMonthIndex(idx + 1);
    DaysBeforeNextMonth(ym.year, ym.month);
    if ym.month < 11 {
      assert nx == YearMonth(ym.year, ym.month + 1);
    } else {
      assert nx == YearMonth(ym.year + 1, 0);
      YearLength(ym.year);
    }
  }

  /** Back-to-back runs of non-negative length: an earlier run ends before a later one starts. */
  lemma {:induction false} RunsInOrder(start: int -> int, len: int -> int, a: int, b: int)
    requires a < b
    requires forall i | a <= i < b :: start(i + 1) == start(i) + len(i) && len(i) >= 0
    ensures start(a) + len(a) <= start(b)
    decreases b - a
  {
    if a + 1 < b {
      RunsInOrder(start, len, a + 1, b);
    }
  }

  /** An earlier month ends before a later one starts. */
  lemma MonthStartMonotone(a: int, b: int)
    requires a < b
    ensures MonthStartDay(a) + MonthLength(a) <= MonthStartDay(b)
  {
    forall i | a <= i < b
      ensures MonthStartDay(i + 1) == MonthStartDay(i) + MonthLength(i) && MonthLength(i) >= 0
    {
      MonthStartStep(i);
    }
    RunsInOrder(MonthStartDay, MonthLength, a, b);
  }

  lemma DayNumberInMonth(d: Date)
    requires ValidDate(d)
    ensures var idx := MonthIndex(YearMonth(d.year, d.month));
      MonthStartDay(idx) <= DayNumber(d) < MonthStartDay(idx) + MonthLength(idx)
  {
    var idx := MonthIndex(YearMonth(d.year, d.month));
    assert FromMonthIndex(idx) == YearMonth(d.year, d.month);
  }

  /** A day lies in the run of days of month `idx` exactly when it is a day of that month. */
  lemma DayInMonthIff(d: Date, ym: YearMonth)
    requires ValidDate(d) && 0 <= ym.month < 12
    ensures var b := MonthIndex(ym);
      (MonthStartDay(b) <= DayNumber(d) < MonthStartDay(b) + MonthLength(b))
      <==> (d.year == ym.year && d.month == ym.month)
  {
    var a := MonthIndex(YearMonth(d.year, d.month));
    var b := MonthIndex(ym);
    DayNumberInMonth(d);
    if a < b {
      MonthStartMonotone(a, b);
    } else if b < a {
      MonthStartMonotone(b, a);
    } else {
      assert d.year == ym.year && d.month == ym.month;
    }
  }

  /**
   * The month window holds exactly the instants of that calendar month: its
   * last millisecond (23:59:59.999 on the last day) is in, the first instant
   * of the next month is out.
   */
  lemma InMonthWindowIff(d: Date, msOfDay: int, ym: YearMonth)
    requires ValidDate(d) && 0 <= msOfDay < MsPerDay && 0 <= ym.month < 12
    ensures InWindow(Instant(d, msOfDay), MonthWindow(ym)) <==> (d.year == ym.year && d.month == ym.month)
  {
    DayInMonthIff(d, ym);
    MonthWindowDays(ym);
    var b := MonthIndex(ym);
    ScaleDays(MonthStartDay(b), MonthStartDay(b) + MonthLength(b) - 1, DayNumber(d), msOfDay);
  }

  /** The month window in whole days. */
  lemma MonthWindowDays(ym: YearMonth)
    requires 0 <= ym.month < 12
    ensures var b := MonthIndex(ym);
      StartOfMonth(ym) == MonthStartDay(b) * 86_400_000
      && EndOfMonth(ym) == (MonthStartDay(b) + MonthLength(b) - 1) * 86_400_000 + 86_399_999
  {
    MonthIndexRoundTrip(ym);
  }

  /** Whole days compare as their millisecond ranges do. */
  lemma ScaleDays(first: int, last: int, day: int, ms: int)
    requires 0 <= ms < 86_400_000
    ensures first <= day <= last <==> first * 86_400_000 <= day * 86_400_000 + ms <= last * 86_400_000 + 86_399_999
  {
  }

  /** The month windows tile the time axis: each ends one millisecond before the next starts. */
  lemma MonthWindowsAdjacent(ym: YearMonth)
    requires 0 <= ym.month < 12
    ensures EndOfMonth(ym) + 1 == StartOfMonth(AddMonths(ym, 1))
  {
    var nx := AddMonths(ym, 1);
    var b := MonthIndex(ym);
    assert MonthIndex(nx) == b + 1;
    EndOfMonthDays(ym);
    StartOfMonthDays(nx);
    MonthStartStep(MonthIndex(ym));
  }

  lemma EndOfMonthDays(ym: YearMonth)
    requires 0 <= ym.month < 12
    ensures EndOfMonth(ym) + 1 == (MonthStartDay(MonthIndex(ym)) + MonthLength(MonthIndex(ym))) * 86_400_000
  {
    MonthWindowDays(ym);
  }

  lemma StartOfMonthDays(ym: YearMonth)
    requires 0 <= ym.month < 12
    ensures StartOfMonth(ym) == MonthStartDay(MonthIndex(ym)) * 86_400_000
  {
    MonthWindowDays(ym);
  }

  /** The day before is one day number earlier, also across a month or year boundary. */
  lemma PrevDayNumber(d: Date)
    requires ValidDate(d)
    ensures DayNumber(PrevDay(d)) + 1 == DayNumber(d)
  {
    if d.day == 1 {
      if d.month > 0 {
        DaysBeforeNextMonth(d.year, d.month - 1);
      } else {
        YearLength(d.year - 1);
      }
    }
  }

  /** Yesterday's window ends one millisecond before today starts. */
  lemma YesterdayAdjacent(d: Date)
    requires ValidDate(d)
    ensures DayWindow(PrevDay(d)).end + 1 == DayWindow(d).start
  {
    PrevDayNumber(d);
  }

  /**
   * Yesterday lies inside the current month's window unless today is the
   * first of the month, in which case the two windows are disjoint.
   */
  lemma YesterdayVersusMonth(d: Date)
    requires ValidDate(d)
    ensures var y := DayWindow(PrevDay(d));
      var m := MonthWindow(YearMonth(d.year, d.month));
      if d.day > 1 then m.start <= y.start && y.end <= m.end else y.end < m.start
  {
    var p := PrevDay(d);
    PrevDayNumber(d);
    InMonthWindowIff(p, 0, YearMonth(d.year, d.month));
    InMonthWindowIff(p, LastMsOfDay, YearMonth(d.year, d.month));
  }
}
