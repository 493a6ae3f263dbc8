/**
 * Proleptic Gregorian calendar dates, as the calendar and list views use them
 * (`YYYY-MM-DD` day keys, `new Date(y, m, d)`, `getDay()`), and the millisecond
 * timestamps of `Date.now()`.
 */
module Dates {

  type Month = m: int | 1 <= m <= 12 witness 1

  /**
   * A calendar date; `month` runs 1..12 (JavaScript's `getMonth()` is `month - 1`).
   * A day outside the month stands for the date it rolls over to, as in `new Date(y, m, d)`.
   */
  datatype Date = Date(year: int, month: Month, day: int)

  const MillisPerMinute: int := 60000
  const MillisPerHour: int := 3600000
  const MillisPerDay: int := 86400000

  predicate IsLeapYear(y: int) {
    y % 4 == 0 && (y % 100 != 0 || y % 400 == 0)
  }

  function MonthLength(y: int, m: int): (n: int)
    requires 1 <= m <= 12
    ensures 28 <= n <= 31
    ensures n == 29 <==> m == 2 && IsLeapYear(y)
  {
    if m == 2 then (if IsLeapYear(y) then 29 else 28)
    else if m == 4 || m == 6 || m == 9 || m == 11 then 30
    else 31
  }

  predicate Valid(d: Date) {
    1 <= d.day <= MonthLength(d.year, d.month)
  }

  function YearLength(y: int): int {
    if IsLeapYear(y) then 366 else 365
  }

  /** Number of leap years before `y`, counted from a fixed origin (floor division). */
  function LeapsBefore(y: int): int {
    (y - 1) / 4 - (y - 1) / 100 + (y - 1) / 400
  }

  /** Days from 1970-01-01 to January 1st of `y` (negative before 1970). */
  function DaysBeforeYear(y: int): int {
    365 * (y - 1970) + LeapsBefore(y) - LeapsBefore(1970)
  }

  /** Days from January 1st to the first of month `m` (m = 13 is the next January 1st). */
  function DaysBeforeMonth(y: int, m: int): (n: int)
    requires 1 <= m <= 13
    ensures 28 * (m - 1) <= n <= 31 * (m - 1)
  {
    if m == 1 then 0 else DaysBeforeMonth(y, m - 1) + MonthLength(y, m - 1)
  }

  /** Days since 1970-01-01 (the epoch day number). */
  function DayNumber(d: Date): int {
    DaysBeforeYear(d.year) + DaysBeforeMonth(d.year, d.month) + d.day - 1
  }

  /** `getDay()`: 0 = Sunday .. 6 = Saturday; 1970-01-01 was a Thursday. */
  function Weekday(d: Date): (w: int)
    ensures 0 <= w < 7
  {
    (DayNumber(d) + 4) % 7
  }

  /** Midnight (UTC) of the date, in milliseconds since the epoch. */
  function Millis(d: Date): int {
    DayNumber(d) * MillisPerDay
  }

  /** Chronological order written out on the fields. */
  predicate Before(a: Date, b: Date) {
    a.year < b.year || (a.year == b.year && (a.month < b.month || (a.month == b.month && a.day < b.day)))
  }

  // ---------------------------------------------------------------------
  // Day numbers are faithful to the calendar

  lemma FloorStep4(y: int)
    ensures y / 4 - (y - 1) / 4 == if y % 4 == 0 then 1 else 0
  {
  }

  lemma FloorStep100(y: int)
    ensures y / 100 - (y - 1) / 100 == if y % 100 == 0 then 1 else 0
  {
  }

  lemma FloorStep400(y: int)
    ensures y / 400 - (y - 1) / 400 == if y % 400 == 0 then 1 else 0
  {
  }

  /** Consecutive New Years are one year length apart. */
  lemma NextYear(y: int)
    ensures DaysBeforeYear(y + 1) == DaysBeforeYear(y) + YearLength(y)
  {
    FloorStep4(y);
    FloorStep100(y);
    FloorStep400(y);
  }

  lemma {:induction false} DaysBeforeYearGrows(y1: int, y2: int)
    requires y1 < y2
    ensures DaysBeforeYear(y1) + YearLength(y1) <= DaysBeforeYear(y2)
    decreases y2 - y1
  {
    NextYear(y1);
    if y1 + 1 < y2 {
      DaysBeforeYearGrows(y1 + 1, y2);
    }
  }

  lemma {:induction false} DaysBeforeMonthGrows(y: int, m1: int, m2: int)
    requires 1 <= m1 < m2 <= 13
    ensures DaysBeforeMonth(y, m1) + MonthLength(y, m1) <= DaysBeforeMonth(y, m2)
    decreases m2 - m1
  {
    if m1 + 1 < m2 {
      DaysBeforeMonthGrows(y, m1 + 1, m2);
    }
  }

  lemma {:induction false} WholeYear(y: int)
    ensures DaysBeforeMonth(y, 13) == YearLength(y)
  {
    var extra := MonthLength(y, 2) - 28;
    assert DaysBeforeMonth(y, 3) == 59 + extra;
    assert DaysBeforeMonth(y, 5) == 120 + extra;
    assert DaysBeforeMonth(y, 7) == 181 + extra;
    assert DaysBeforeMonth(y, 9) == 243 + extra;
    assert DaysBeforeMonth(y, 11) == 304 + extra;
  }

  /** The day of a valid date lies within its year. */
  lemma WithinYear(d: Date)
    requires Valid(d)
    ensures DaysBeforeYear(d.year) <= DayNumber(d) < DaysBeforeYear(d.year) + YearLength(d.year)
  {
    if d.month < 12 {
      DaysBeforeMonthGrows(d.year, d.month, 13);
    }
    WholeYear(d.year);
  }

  /** Day numbers order valid dates chronologically. */
  lemma BeforeMeansSmallerDay(a: Date, b: Date)
    requires Valid(a) && Valid(b) && Before(a, b)
    ensures DayNumber(a) < DayNumber(b)
  {
    WithinYear(a);
    WithinYear(b);
    if a.year < b.year {
      DaysBeforeYearGrows(a.year, b.year);
    } else if a.month < b.month {
      DaysBeforeMonthGrows(a.year, a.month, b.month);
    }
  }

  /** Comparing day numbers is comparing dates, in both directions; distinct valid dates never share a day number. */
  lemma DayNumberOrder(a: Date, b: Date)
    requires Valid(a) && Valid(b)
    ensures DayNumber(a) < DayNumber(b) <==> Before(a, b)
    ensures DayNumber(a) == DayNumber(b) <==> a == b
  {
    if Before(a, b) {
      BeforeMeansSmallerDay(a, b);
    } else if Before(b, a) {
      BeforeMeansSmallerDay(b, a);
    }
  }

  // ---------------------------------------------------------------------
  // Month arithmetic (`setMonth(getMonth() + delta)`)

  /** Months since January of year 0. */
  function MonthIndex(d: Date): int {
    d.year * 12 + d.month - 1
  }

  /**
   * `d.setMonth(d.getMonth() + delta)`: the month moves by `delta` with the year carried;
   * the day is kept, and a day past the end of the target month rolls over into the next one.
   */
  function AddMonths(d: Date, delta: int): (r: Date)
    requires Valid(d)
    ensures Valid(r)
    ensures d.day <= 28 ==> r.day == d.day && MonthIndex(r) == MonthIndex(d) + delta
    ensures DayNumber(r) == DayNumber(Date((MonthIndex(d) + delta) / 12, (MonthIndex(d) + delta) % 12 + 1, d.day))
  {
    var idx := MonthIndex(d) + delta;
    var y, m := idx / 12, idx % 12 + 1;
    var len := MonthLength(y, m);
    if d.day <= len then
      Date(y, m, d.day)
    else
      // December has 31 days, so only a month before it can overflow.
      assert m < 12;
      Date(y, m + 1, d.day - len)
  }

  /** Stepping onto a date and back returns to it when the day exists in every month. */
  lemma AddMonthsInverse(d: Date, delta: int)
    requires Valid(d) && d.day <= 28
    ensures AddMonths(AddMonths(d, delta), -delta) == d
  {
    var there := AddMonths(d, delta);
    var back := AddMonths(there, -delta);
    MonthIndexInjective(back, d);
  }

  lemma MonthIndexInjective(a: Date, b: Date)
    requires MonthIndex(a) == MonthIndex(b)
    ensures a.year == b.year && a.month == b.month
  {
  }

  /** March 31st minus one month is March 3rd in 2025: February has no 31st, so the day rolls over. */
  lemma MonthOverflowExample()
    ensures AddMonths(Date(2025, 3, 31), -1) == Date(2025, 3, 3)
  {
    var idx := MonthIndex(Date(2025, 3, 31)) - 1;
    assert idx == 24301;
    assert idx / 12 == 2025 && idx % 12 == 1;
    assert MonthLength(2025, 2) == 28;
  }
}
