/** The proleptic Gregorian calendar as JavaScript's `Date` computes it:
    `Date.UTC(year, month, date)` and `new Date(year, month, 1)` accept any
    month and day number and carry the excess into the year and month. */
module Calendar {

  /** A month index as JavaScript's `getMonth` returns it: January is 0. */
  type Month0 = m: int | 0 <= m < 12

  datatype YearMonth = YearMonth(year: int, month: Month0)

  /** The month with index `month` counted from January of `year`, for any
      `month`, negative and past 11 included. */
  function Normalize(year: int, month: int): (r: YearMonth)
    ensures 12 * r.year + r.month == 12 * year + month
  {
    YearMonth(year + month / 12, month % 12)
  }

  /** The month after `ym`; December is followed by January of the next year. */
  function NextMonth(ym: YearMonth): (r: YearMonth)
    ensures 12 * r.year + r.month == 12 * ym.year + ym.month + 1
  {
    if ym.month == 11 then YearMonth(ym.year + 1, 0) else YearMonth(ym.year, ym.month + 1)
  }

  /** The month before `ym`; January is preceded by December of the year before. */
  function PrevMonth(ym: YearMonth): (r: YearMonth)
    ensures 12 * r.year + r.month == 12 * ym.year + ym.month - 1
  {
    if ym.month == 0 then YearMonth(ym.year - 1, 11) else YearMonth(ym.year, ym.month - 1)
  }

  /** A month is determined by its count of months since January of year 0. */
  lemma SameMonthNumber(a: YearMonth, b: YearMonth)
    requires 12 * a.year + a.month == 12 * b.year + b.month
    ensures a == b
  {
  }

  /** Counting one month further from the same year is taking the next month. */
  lemma NormalizeStep(year: int, month: int)
    ensures Normalize(year, month + 1) == NextMonth(Normalize(year, month))
  {
    var a, b := Normalize(year, month), Normalize(year, month + 1);
    var n := NextMonth(a);
    assert 12 * b.year + b.month == 12 * n.year + n.month;
    assert b.year == n.year;
  }

  predicate IsLeapYear(y: int) {
    y % 4 == 0 && (y % 100 != 0 || y % 400 == 0)
  }

  function DaysInMonth(y: int, m: Month0): (n: int)
    ensures 28 <= n <= 31
  {
    if m == 1 then (if IsLeapYear(y) then 29 else 28)
    else if m == 3 || m == 5 || m == 8 || m == 10 then 30
    else 31
  }

  /** Days from January 1 of year `y` to the first of month `m`. */
  function DaysBeforeMonth(y: int, m: Month0): int
  {
    [0, 31, 59, 90, 120, 151, 181, 212, 243, 273, 304, 334][m]
      + (if m >= 2 && IsLeapYear(y) then 1 else 0)
  }

  /** Leap years strictly before year `y`, counted from year 0 (negative for earlier years). */
  function LeapYearsBefore(y: int): int
  {
    (y - 1) / 4 - (y - 1) / 100 + (y - 1) / 400
  }

  /** Days from 1970-01-01 to January 1 of year `y`. */
  function DaysBeforeYear(y: int): int
  {
    365 * (y - 1970) + LeapYearsBefore(y) - LeapYearsBefore(1970)
  }

  /** The day number (days since 1970-01-01) of the first of a month. */
  function FirstDay(ym: YearMonth): int
  {
    DaysBeforeYear(ym.year) + DaysBeforeMonth(ym.year, ym.month)
  }

  /** ECMAScript's MakeDay: the day number of `(year, month, date)`, with `month`
      and `date` allowed out of range. */
  function MakeDay(year: int, month: int, date: int): int
  {
    FirstDay(Normalize(year, month)) + date - 1
  }

  /** Within the year, `MakeDay` counts days from the first of the month. */
  lemma MakeDayInMonth(year: int, month: Month0, date: int)
    ensures Normalize(year, month) == YearMonth(year, month)
    ensures MakeDay(year, month, date) == FirstDay(YearMonth(year, month)) + date - 1
  {
    assert month / 12 == 0 && month % 12 == month;
  }

  /** Counting multiples of 4, 100 and 400: going from `y - 1` to `y` adds
      one exactly when `y` is a multiple. */
  lemma MultiplesOf4Step(y: int)
    ensures y / 4 - (y - 1) / 4 == if y % 4 == 0 then 1 else 0
  {
  }

  lemma MultiplesOf100Step(y: int)
    ensures y / 100 - (y - 1) / 100 == if y % 100 == 0 then 1 else 0
  {
  }

  lemma MultiplesOf400Step(y: int)
    ensures y / 400 - (y - 1) / 400 == if y % 400 == 0 then 1 else 0
  {
  }

  lemma LeapYearsStep(y: int)
    ensures LeapYearsBefore(y + 1) - LeapYearsBefore(y) == if IsLeapYear(y) then 1 else 0
  {
    MultiplesOf4Step(y);
    MultiplesOf100Step(y);
    MultiplesOf400Step(y);
  }

  /** A year has 366 days exactly when it is a leap year. */
  lemma YearLength(y: int)
    ensures DaysBeforeYear(y + 1) - DaysBeforeYear(y) == if IsLeapYear(y) then 366 else 365
  {
    LeapYearsStep(y);
  }

  /** The first of the next month comes exactly the month's length later. */
  lemma MonthLength(ym: YearMonth)
    ensures FirstDay(NextMonth(ym)) == FirstDay(ym) + DaysInMonth(ym.year, ym.month)
  {
    if ym.month == 11 {
      YearLength(ym.year);
    }
  }

  /** 1970-01-01 is day 0. */
  lemma EpochIsDayZero()
    ensures MakeDay(1970, 0, 1) == 0
  {
  }
}
