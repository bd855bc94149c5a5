/**
 Proleptic Gregorian civil dates and their day numbers.

 Day number 0 is 1970-01-01, the day the ECMAScript time value counts from.
 `ToDays` is the days-from-civil conversion and `FromDays` its inverse, so
 adding days and computing the weekday are total functions on dates.
 */
module Calendar {

  /** The Gregorian rule: every fourth year, except centuries not divisible by 400. */
  predicate IsLeapYear(y: int) {
    y % 4 == 0 && (y % 100 != 0 || y % 400 == 0)
  }

  function DaysInYear(y: int): int {
    if IsLeapYear(y) then 366 else 365
  }

  /** Length of month `m` (1 = January) of year `y`. */
  function DaysInMonth(y: int, m: int): int
    requires 1 <= m <= 12
  {
    if m == 2 then (if IsLeapYear(y) then 29 else 28)
    else if m == 4 || m == 6 || m == 9 || m == 11 then 30
    else 31
  }

  /** Days of year `y` that precede month `m`; month 13 stands for the end of the year. */
  function DaysBeforeMonth(y: int, m: int): int
    requires 1 <= m <= 13
  {
    [0, 31, 59, 90, 120, 151, 181, 212, 243, 273, 304, 334, 365][m - 1]
      + (if m > 2 && IsLeapYear(y) then 1 else 0)
  }

  lemma DaysBeforeNextMonth(y: int, m: int)
    requires 1 <= m <= 12
    ensures DaysBeforeMonth(y, m + 1) == DaysBeforeMonth(y, m) + DaysInMonth(y, m)
    ensures DaysBeforeMonth(y, 13) == DaysInYear(y)
  {
  }

  lemma DaysBeforeMonthMonotone(y: int, m1: int, m2: int)
    requires 1 <= m1 < m2 <= 13
    ensures DaysBeforeMonth(y, m1) + DaysInMonth(y, m1) <= DaysBeforeMonth(y, m2)
  {
    DaysBeforeNextMonth(y, m1);
  }

  /** Days from 1970-01-01 to the first day of year `y`: the lengths of the years in between, negative before 1970. */
  function DaysBeforeYear(y: int): int
    decreases if y < 1970 then 1970 - y else y - 1970
  {
    if y == 1970 then 0
    else if y > 1970 then DaysBeforeYear(y - 1) + DaysInYear(y - 1)
    else DaysBeforeYear(y + 1) - DaysInYear(y)
  }

  /** A year contributes exactly its own length to the day count. */
  lemma DaysBeforeNextYear(y: int)
    ensures DaysBeforeYear(y + 1) == DaysBeforeYear(y) + DaysInYear(y)
  {
  }

  lemma {:induction false} DaysBeforeYearMonotone(a: int, b: int)
    requires a < b
    ensures DaysBeforeYear(a) + DaysInYear(a) <= DaysBeforeYear(b)
    decreases b - a
  {
    DaysBeforeNextYear(a);
    if a + 1 < b {
      DaysBeforeYearMonotone(a + 1, b);
    }
  }

  /** A civil date: year, month 1..12, day of month. */
  datatype Date = Date(year: int, month: int, day: int)

  predicate Valid(d: Date) {
    1 <= d.month <= 12 && 1 <= d.day <= DaysInMonth(d.year, d.month)
  }

  /** Days-from-civil: the day number of a valid date. */
  function ToDays(d: Date): (n: int)
    requires Valid(d)
    ensures DaysBeforeYear(d.year) <= n < DaysBeforeYear(d.year + 1)
    ensures DaysBeforeMonth(d.year, d.month) <= n - DaysBeforeYear(d.year)
              < DaysBeforeMonth(d.year, d.month + 1)
  {
    DaysBeforeNextMonth(d.year, d.month);
    DaysBeforeNextYear(d.year);
    DaysBeforeMonthMonotone(d.year, d.month, 13);
    DaysBeforeYear(d.year) + DaysBeforeMonth(d.year, d.month) + d.day - 1
  }

  /** The year whose days contain day number `n`, searched from year `y`. */
  function YearSearch(n: int, y: int): (r: int)
    ensures DaysBeforeYear(r) <= n < DaysBeforeYear(r + 1)
    decreases (if n < DaysBeforeYear(y) then 1 else 0),
              (if n < DaysBeforeYear(y) then DaysBeforeYear(y) - n else n - DaysBeforeYear(y))
  {
    DaysBeforeNextYear(y);
    DaysBeforeNextYear(y - 1);
    if n < DaysBeforeYear(y) then YearSearch(n, y - 1)
    else if n >= DaysBeforeYear(y + 1) then YearSearch(n, y + 1)
    else y
  }

  /** The month of year `y` holding day `r` of that year, searched from month `m`. */
  function MonthSearch(y: int, r: int, m: int): (month: int)
    requires 1 <= m <= 12 && DaysBeforeMonth(y, m) <= r < DaysInYear(y)
    ensures m <= month <= 12
    ensures DaysBeforeMonth(y, month) <= r < DaysBeforeMonth(y, month + 1)
    decreases 12 - m
  {
    DaysBeforeNextMonth(y, m);
    if r < DaysBeforeMonth(y, m + 1) then m else MonthSearch(y, r, m + 1)
  }

  /** Civil-from-days: the valid date whose day number is `n`. */
  function FromDays(n: int): (d: Date)
    ensures Valid(d) && ToDays(d) == n
  {
    var y := YearSearch(n, 1970);
    DaysBeforeNextYear(y);
    var r := n - DaysBeforeYear(y);
    DaysBeforeNextMonth(y, 12);
    var m := MonthSearch(y, r, 1);
    DaysBeforeNextMonth(y, m);
    Date(y, m, r - DaysBeforeMonth(y, m) + 1)
  }

  /** Distinct valid dates have distinct day numbers. */
  lemma ToDaysInjective(a: Date, b: Date)
    requires Valid(a) && Valid(b)
    ensures ToDays(a) == ToDays(b) <==> a == b
  {
    if ToDays(a) == ToDays(b) {
      if a.year < b.year {
        DaysBeforeYearMonotone(a.year, b.year);
        DaysBeforeNextYear(a.year);
      } else if b.year < a.year {
        DaysBeforeYearMonotone(b.year, a.year);
        DaysBeforeNextYear(b.year);
      } else if a.month < b.month {
        DaysBeforeMonthMonotone(a.year, a.month, b.month);
        DaysBeforeNextMonth(a.year, a.month);
      } else if b.month < a.month {
        DaysBeforeMonthMonotone(b.year, b.month, a.month);
        DaysBeforeNextMonth(b.year, b.month);
      }
    }
  }

  /** Converting a date to its day number and back returns the date. */
  lemma FromDaysToDays(d: Date)
    requires Valid(d)
    ensures FromDays(ToDays(d)) == d
  {
    ToDaysInjective(FromDays(ToDays(d)), d);
  }

  /** Calendar order: year first, then month, then day. */
  predicate OnOrBefore(a: Date, b: Date) {
    a.year < b.year
    || (a.year == b.year && a.month < b.month)
    || (a.year == b.year && a.month == b.month && a.day <= b.day)
  }

  /** Day numbers increase exactly along the calendar order. */
  lemma ToDaysOrder(a: Date, b: Date)
    requires Valid(a) && Valid(b)
    ensures OnOrBefore(a, b) <==> ToDays(a) <= ToDays(b)
  {
    if a.year < b.year {
      DaysBeforeYearMonotone(a.year, b.year);
      DaysBeforeNextYear(a.year);
    } else if b.year < a.year {
      DaysBeforeYearMonotone(b.year, a.year);
      DaysBeforeNextYear(b.year);
    } else if a.month < b.month {
      DaysBeforeMonthMonotone(a.year, a.month, b.month);
      DaysBeforeNextMonth(a.year, a.month);
    } else if b.month < a.month {
      DaysBeforeMonthMonotone(b.year, b.month, a.month);
      DaysBeforeNextMonth(b.year, b.month);
    }
  }

  /** The date `k` days after `d` (before it when `k` is negative). */
  function AddDays(d: Date, k: int): (r: Date)
    requires Valid(d)
    ensures Valid(r) && ToDays(r) == ToDays(d) + k
  {
    FromDays(ToDays(d) + k)
  }

  /** Day of the week numbered as ECMAScript's getDay: 0 is Sunday, 6 is Saturday. */
  function Weekday(d: Date): (w: int)
    requires Valid(d)
    ensures 0 <= w < 7
  {
    (ToDays(d) + 4) % 7
  }

  /** Moving `k` days moves the weekday `k` places around the week. */
  lemma WeekdayShift(d: Date, e: Date, k: int)
    requires Valid(d) && Valid(e) && ToDays(e) == ToDays(d) + k
    ensures Weekday(e) == (Weekday(d) + k) % 7
  {
    ModSevenShift(ToDays(d) + 4, k);
  }

  lemma ModSevenShift(a: int, k: int)
    ensures (a + k) % 7 == (a % 7 + k) % 7
  {
    var q := a / 7;
    assert a + k == 7 * q + (a % 7 + k);
  }

  lemma DaysBefore2000()
    ensures DaysBeforeYear(2000) == 10957
  {
    assert DaysBeforeYear(1975) == 1826;
    assert DaysBeforeYear(1980) == 3652;
    assert DaysBeforeYear(1985) == 5479;
    assert DaysBeforeYear(1990) == 7305;
    assert DaysBeforeYear(1995) == 9131;
  }

  lemma DaysBefore2024()
    ensures DaysBeforeYear(2024) == 19723
  {
    DaysBefore2000();
    assert DaysBeforeYear(2005) == 12784;
    assert DaysBeforeYear(2010) == 14610;
    assert DaysBeforeYear(2015) == 16436;
    assert DaysBeforeYear(2020) == 18262;
  }

  /** Anchors of the numbering: 1970-01-01 was a Thursday, 2000-01-01 a Saturday, 2024-02-15 a Thursday. */
  lemma KnownWeekdays()
    ensures Weekday(Date(1970, 1, 1)) == 4
    ensures Weekday(Date(2000, 1, 1)) == 6
    ensures Weekday(Date(2024, 2, 15)) == 4
  {
    DaysBefore2000();
    DaysBefore2024();
  }
}
