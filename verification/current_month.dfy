/**
 getCurrentMonth: the first and the last day of the reference Date's month,
 both at local midnight. The last day is asked for as day 0 of the next month.
 */
module CurrentMonth {
  import opened Calendar
  import opened JsDate

  /**
   The bounds exactly as the source builds them, with the three-argument Date
   constructor. That constructor reads years 0 to 99 as 1900 to 1999, so for
   such a reference the bounds land in the wrong century.
   */
  function GetCurrentMonthAsWritten(currDate: DateTime): (b: Bounds)
    ensures b.startDate.time == Midnight && b.endDate.time == Midnight
    ensures var y := ConstructorYear(currDate.date.year);
            var m := currDate.date.month;
            b.startDate.date == Date(y, m, 1) && b.endDate.date == Date(y, m, DaysInMonth(y, m))
  {
    var y := GetFullYear(currDate);
    var m := GetMonth(currDate);
    var startDate := NewDate(y, m, 1);
    var endDate := NewDate(y, m + 1, 0);
    AtMakeDayZero(ConstructorYear(y), m, Midnight);
    Bounds(startDate, endDate)
  }

  /** For a reference in the years 0 to 99 the source's window lies 1900 years later: in year 50 it is in 1950. */
  lemma TwoDigitYearCounterexample(currDate: DateTime)
    requires 0 <= currDate.date.year <= 99
    ensures var b := GetCurrentMonthAsWritten(currDate);
            && b.startDate.date.year == currDate.date.year + 1900
            && b.endDate.date.year == currDate.date.year + 1900
    ensures GetCurrentMonthAsWritten(currDate) != GetCurrentMonth(currDate)
  {
  }

  /**
   The corrected bounds: the reference's own year is kept by building each
   bound from a copy with setFullYear and setHours(0, 0, 0, 0).
   */
  function GetCurrentMonth(currDate: DateTime): (b: Bounds)
    ensures var y := currDate.date.year;
            var m := currDate.date.month;
            && b.startDate.date == Date(y, m, 1)
            && b.endDate.date == Date(y, m, DaysInMonth(y, m))
    ensures b.startDate.time == Midnight && b.endDate.time == Midnight
    ensures OnOrBefore(b.startDate.date, currDate.date) && OnOrBefore(currDate.date, b.endDate.date)
  {
    var y := GetFullYear(currDate);
    var m := GetMonth(currDate);
    var startDate := StartOfDay(SetFullYear(currDate, y, m, 1));
    var endDate := StartOfDay(SetFullYear(currDate, y, m + 1, 0));
    AtMakeDayZero(y, m, currDate.time);
    Bounds(startDate, endDate)
  }

  /** Outside the years 0 to 99 the source's bounds are the corrected ones. */
  lemma AsWrittenAgreesOutsideTwoDigitYears(currDate: DateTime)
    requires !(0 <= currDate.date.year <= 99)
    ensures GetCurrentMonthAsWritten(currDate) == GetCurrentMonth(currDate)
  {
  }

  /** February ends on the 29th in 2024 and 2000, on the 28th in 2023 and 1900; December on the 31st. */
  lemma MonthEnds(currDate: DateTime)
    ensures var end := GetCurrentMonth(currDate).endDate.date;
            && (currDate.date.year == 2024 && currDate.date.month == 2 ==> end == Date(2024, 2, 29))
            && (currDate.date.year == 2023 && currDate.date.month == 2 ==> end == Date(2023, 2, 28))
            && (currDate.date.year == 2000 && currDate.date.month == 2 ==> end == Date(2000, 2, 29))
            && (currDate.date.year == 1900 && currDate.date.month == 2 ==> end == Date(1900, 2, 28))
            && (currDate.date.month == 12 ==> end == Date(currDate.date.year, 12, 31))
  {
    var y := currDate.date.year;
    assert y == 2024 ==> DaysInMonth(y, 2) == 29;
    assert y == 2023 ==> DaysInMonth(y, 2) == 28;
    assert y == 2000 ==> DaysInMonth(y, 2) == 29;
    assert y == 1900 ==> DaysInMonth(y, 2) == 28;
  }
}
