/**
 The ECMAScript Date operations the calendar utilities use, and the two
 setters (setFullYear, setHours) the corrected month window uses, read in local
 time: a Date is a civil date plus a time of day, and the setters and the
 three-argument constructor go through the MakeDay abstract operation of
 ECMA-262, which carries month overflow into the year and treats the date
 argument as an offset from the first of the month (so day 0 is the last day
 of the previous month).
 */
module JsDate {
  import opened Calendar

  /** Milliseconds since local midnight; the utilities only copy or clear it. */
  type TimeOfDay = t: int | 0 <= t < 86400000

  const Midnight: TimeOfDay := 0

  datatype LocalDateTime = LocalDateTime(date: Date, time: TimeOfDay)

  /** The local-time reading of a valid Date object. */
  type DateTime = v: LocalDateTime | Valid(v.date) witness LocalDateTime(Date(1970, 1, 1), 0)

  /** What both utilities return: `{ startDate, endDate }`. */
  datatype Bounds = Bounds(startDate: DateTime, endDate: DateTime)

  function GetFullYear(v: DateTime): int {
    v.date.year
  }

  /** getMonth counts months from 0. */
  function GetMonth(v: DateTime): (m: int)
    ensures 0 <= m <= 11
  {
    v.date.month - 1
  }

  function GetDate(v: DateTime): int {
    v.date.day
  }

  /** getDay: 0 is Sunday through 6 for Saturday. */
  function GetDay(v: DateTime): (w: int)
    ensures 0 <= w <= 6
  {
    Weekday(v.date)
  }

  /** ECMA-262 MakeDay on integral arguments, as a day number. */
  function MakeDay(year: int, month: int, date: int): (n: int)
    ensures (0 <= month <= 11 && 1 <= date <= DaysInMonth(year, month + 1))
              ==> n == ToDays(Date(year, month + 1, date))
  {
    ToDays(Date(year + month / 12, month % 12 + 1, 1)) + date - 1
  }

  /** Day 0 of the month after the 0-based `month` is the last day of `month`, December included. */
  lemma {:induction false} MakeDayZeroIsLastDay(year: int, month: int)
    requires 0 <= month <= 11
    ensures MakeDay(year, month + 1, 0) == ToDays(Date(year, month + 1, DaysInMonth(year, month + 1)))
  {
    DaysBeforeNextMonth(year, month + 1);
    if month == 11 {
      DaysBeforeNextYear(year);
    }
  }

  /** `v.setDate(date)`: same year, month and time of day, day of month replaced by `date`. */
  function SetDate(v: DateTime, date: int): (r: DateTime)
    ensures r.time == v.time
    ensures ToDays(r.date) == ToDays(v.date) + (date - v.date.day)
  {
    LocalDateTime(FromDays(MakeDay(v.date.year, GetMonth(v), date)), v.time)
  }

  /** The Date at MakeDay(year, month, date) with the given time of day. */
  function AtMakeDay(year: int, month: int, date: int, time: TimeOfDay): (r: DateTime)
    ensures r.time == time
    ensures ToDays(r.date) == MakeDay(year, month, date)
    ensures (0 <= month <= 11 && 1 <= date <= DaysInMonth(year, month + 1))
              ==> r.date == Date(year, month + 1, date)
  {
    var r := LocalDateTime(FromDays(MakeDay(year, month, date)), time);
    if 0 <= month <= 11 && 1 <= date <= DaysInMonth(year, month + 1) then
      ToDaysInjective(r.date, Date(year, month + 1, date));
      r
    else
      r
  }

  /** Asking for day 0 of the following month yields the last day of the month. */
  lemma AtMakeDayZero(year: int, month: int, time: TimeOfDay)
    requires 0 <= month <= 11
    ensures AtMakeDay(year, month + 1, 0, time).date == Date(year, month + 1, DaysInMonth(year, month + 1))
  {
    MakeDayZeroIsLastDay(year, month);
    ToDaysInjective(AtMakeDay(year, month + 1, 0, time).date, Date(year, month + 1, DaysInMonth(year, month + 1)));
  }

  /** `v.setFullYear(year, month, date)`: the date replaced, the time of day kept. */
  function SetFullYear(v: DateTime, year: int, month: int, date: int): (r: DateTime)
    ensures r.time == v.time
    ensures (0 <= month <= 11 && 1 <= date <= DaysInMonth(year, month + 1))
              ==> r.date == Date(year, month + 1, date)
  {
    AtMakeDay(year, month, date, v.time)
  }

  /** `v.setHours(0, 0, 0, 0)`: the same day at local midnight. */
  function StartOfDay(v: DateTime): (r: DateTime)
    ensures r.date == v.date && r.time == Midnight
  {
    LocalDateTime(v.date, Midnight)
  }

  /** The Date constructor reads a year from 0 to 99 as 1900 + year. */
  function ConstructorYear(year: int): (y: int)
    ensures 0 <= year <= 99 ==> y == 1900 + year
    ensures !(0 <= year <= 99) ==> y == year
  {
    if 0 <= year <= 99 then 1900 + year else year
  }

  /** `new Date(year, month, date)`: local midnight of MakeDay's day for the constructor's year. */
  function NewDate(year: int, month: int, date: int): (r: DateTime)
    ensures r.time == Midnight
    ensures (0 <= month <= 11 && 1 <= date <= DaysInMonth(ConstructorYear(year), month + 1))
              ==> r.date == Date(ConstructorYear(year), month + 1, date)
  {
    AtMakeDay(ConstructorYear(year), month, date, Midnight)
  }
}
