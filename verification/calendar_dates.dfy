/**
 * Calendar arithmetic for the date game: the Gregorian leap rule, month
 * lengths, the random date of a round, and a day-of-week function that
 * stands in for `new Date(y, m - 1, d).getDay()`.
 */
module CalendarDates {
  import opened Options
  import opened Draws

  datatype Date = Date(year: int, month: int, day: int)

  /**
   * The Gregorian rule. JavaScript's `%` truncates toward zero and Dafny's
   * is Euclidean, but the two agree on whether the remainder is 0.
   */
  predicate IsLeap(y: int)
  {
    y % 4 == 0 && (y % 100 != 0 || y % 400 == 0)
  }

  function DaysInMonth(y: int, m: int): (n: int)
    requires 1 <= m <= 12
    ensures 28 <= n <= 31
    ensures m == 2 ==> (n == 29 <==> IsLeap(y))
    ensures m != 2 ==> (n == 30 <==> m in {4, 6, 9, 11})
  {
    if m == 2 then (if IsLeap(y) then 29 else 28)
    else if m in {4, 6, 9, 11} then 30
    else 31
  }

  ghost predicate ValidDate(d: Date)
  {
    1 <= d.month <= 12 && 1 <= d.day <= DaysInMonth(d.year, d.month)
  }

  /** `randomDate`: a year 2000..2024, a month, a day 1..28, then the month-length clamps. */
  function RandomDate(ry: Unit, rm: Unit, rd: Unit): (d: Date)
    ensures 2000 <= d.year <= 2024 && 1 <= d.month <= 12 && 1 <= d.day <= 28
    ensures d == Date(2000 + Pick(ry, 25), 1 + Pick(rm, 12), 1 + Pick(rd, 28))
    ensures ValidDate(d)
  {
    var year := 2000 + Pick(ry, 25);
    var month := 1 + Pick(rm, 12);
    var day0 := 1 + Pick(rd, 28);
    var day1 := if month in {4, 6, 9, 11} then Min(day0, 30) else day0;
    var day :=
      if month == 2 then Min(day1, if IsLeap(year) then 29 else 28)
      else if month in {1, 3, 5, 7, 8, 10, 12} then Min(day1, 31)
      else day1;
    Date(year, month, day)
  }

  /** Every year 2000..2024, every month and every day 1..28 is drawn by some draw. */
  lemma RandomDateReaches(y: int, m: int, dd: int)
    requires 2000 <= y <= 2024 && 1 <= m <= 12 && 1 <= dd <= 28
    ensures RandomDate(DrawFor(y - 2000, 25), DrawFor(m - 1, 12), DrawFor(dd - 1, 28)) == Date(y, m, dd)
  {
  }

  /** So the dates of a round are exactly these: the 29th, 30th and 31st never come up. */
  lemma RandomDateRange(d: Date)
    ensures (exists ry: Unit, rm: Unit, rd: Unit :: RandomDate(ry, rm, rd) == d) <==>
      (2000 <= d.year <= 2024 && 1 <= d.month <= 12 && 1 <= d.day <= 28)
  {
    if 2000 <= d.year <= 2024 && 1 <= d.month <= 12 && 1 <= d.day <= 28 {
      RandomDateReaches(d.year, d.month, d.day);
      var ry, rm, rd := DrawFor(d.year - 2000, 25), DrawFor(d.month - 1, 12), DrawFor(d.day - 1, 28);
      assert RandomDate(ry, rm, rd) == d;
    }
  }

  /** The year `new Date(y, ...)` means: 0..99 are read as 1900..1999. */
  function JsFullYear(y: int): (r: int)
    ensures 0 <= y <= 99 ==> r == 1900 + y
    ensures !(0 <= y <= 99) ==> r == y
  {
    if 0 <= y <= 99 then 1900 + y else y
  }

  /** Days from 0001-01-01 to the first of January of `y` in the proleptic Gregorian calendar. */
  function DaysBeforeYear(y: int): int
  {
    var p := y - 1;
    365 * p + p / 4 - p / 100 + p / 400
  }

  /** Days from the first of January of `y` to the first of month `m`. */
  function DaysBeforeMonth(y: int, m: int): int
    requires 1 <= m <= 12
  {
    if m == 1 then 0 else DaysBeforeMonth(y, m - 1) + DaysInMonth(y, m - 1)
  }

  /** Days from 0001-01-01 to `d`. */
  function DayNumber(d: Date): int
    requires 1 <= d.month <= 12
  {
    DaysBeforeYear(d.year) + DaysBeforeMonth(d.year, d.month) + d.day - 1
  }

  /** `getDay()` of a date: 0 is Sunday; 0001-01-01 was a Monday. */
  function Weekday(d: Date): (w: int)
    requires 1 <= d.month <= 12
    ensures 0 <= w < 7
  {
    (DayNumber(d.(year := JsFullYear(d.year))) + 1) % 7
  }

  /** `new Date(year, month - 1, 1).getDay()`. */
  function FirstDay(y: int, m: int): (w: int)
    requires 1 <= m <= 12
    ensures 0 <= w < 7
  {
    Weekday(Date(y, m, 1))
  }

  /** `new Date(y, m, 0).getDate()`: the length of month `m` in the year `new Date` reads `y` as. */
  function LastDate(y: int, m: int): (n: int)
    requires 1 <= m <= 12
    ensures 28 <= n <= 31
    ensures 0 <= y <= 99 ==> n == DaysInMonth(1900 + y, m)
    ensures !(0 <= y <= 99) ==> n == DaysInMonth(y, m)
  {
    DaysInMonth(JsFullYear(y), m)
  }

  /** A year holds 366 days exactly when it is a leap year. */
  lemma YearLength(y: int)
    ensures DaysBeforeYear(y + 1) - DaysBeforeYear(y) == if IsLeap(y) then 366 else 365
  {
    var p := y - 1;
    assert DaysBeforeYear(y) == 365 * p + p / 4 - p / 100 + p / 400;
    assert DaysBeforeYear(y + 1) == 365 * (p + 1) + (p + 1) / 4 - (p + 1) / 100 + (p + 1) / 400;
    assert 365 * (p + 1) == 365 * p + 365;
    DivStep4(p);
    DivStep100(p);
    DivStep400(p);
  }

  /** Moving `p` up by one moves `p / k` up by one exactly when `p + 1` is a multiple of `k`. */
  lemma DivStep4(p: int)
    ensures (p + 1) / 4 - p / 4 == if (p + 1) % 4 == 0 then 1 else 0
  {
  }

  lemma DivStep100(p: int)
    ensures (p + 1) / 100 - p / 100 == if (p + 1) % 100 == 0 then 1 else 0
  {
  }

  lemma DivStep400(p: int)
    ensures (p + 1) / 400 - p / 400 == if (p + 1) % 400 == 0 then 1 else 0
  {
  }

  /** The twelve months add up to the length of the year. */
  lemma MonthsTotal(y: int)
    ensures DaysBeforeMonth(y, 12) + DaysInMonth(y, 12) == if IsLeap(y) then 366 else 365
  {
    var f := DaysInMonth(y, 2);
    assert DaysBeforeMonth(y, 2) == 31;
    assert DaysBeforeMonth(y, 3) == 31 + f;
    assert DaysBeforeMonth(y, 4) == 62 + f;
    assert DaysBeforeMonth(y, 5) == 92 + f;
    assert DaysBeforeMonth(y, 6) == 123 + f;
    assert DaysBeforeMonth(y, 7) == 153 + f;
    assert DaysBeforeMonth(y, 8) == 184 + f;
    assert DaysBeforeMonth(y, 9) == 215 + f;
    assert DaysBeforeMonth(y, 10) == 245 + f;
    assert DaysBeforeMonth(y, 11) == 276 + f;
    assert DaysBeforeMonth(y, 12) == 306 + f;
  }

  /** The day after the last of a month is the first of the next month (or of the next year). */
  lemma MonthEnd(y: int, m: int)
    requires 1 <= m <= 12
    ensures m < 12 ==> DayNumber(Date(y, m + 1, 1)) == DayNumber(Date(y, m, DaysInMonth(y, m))) + 1
    ensures m == 12 ==> DayNumber(Date(y + 1, 1, 1)) == DayNumber(Date(y, 12, 31)) + 1
  {
    if m == 12 {
      YearLength(y);
      MonthsTotal(y);
    }
  }

  /** Within a month, day `d` falls `d - 1` places after the first in the week. */
  lemma WeekdayInMonth(d: Date)
    requires 1 <= d.month <= 12 && d.day >= 1
    ensures Weekday(d) == (FirstDay(d.year, d.month) + d.day - 1) % 7
  {
    var n := DayNumber(Date(JsFullYear(d.year), d.month, 1)) + 1;
    assert DayNumber(d.(year := JsFullYear(d.year))) + 1 == n + (d.day - 1);
    ModShift(n, d.day - 1);
  }

  lemma ModShift(a: int, b: int)
    ensures (a + b) % 7 == (a % 7 + b) % 7
  {
    var q := a / 7;
    assert a == 7 * q + a % 7;
    assert a + b == 7 * q + (a % 7 + b);
  }

  /** The first of January 2000 was a Saturday. */
  lemma Y2KSaturday()
    ensures Weekday(Date(2000, 1, 1)) == 6
  {
    assert DaysBeforeYear(2000) == 730119;
  }
}
