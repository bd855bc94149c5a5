/**
 getCurrentWeek: the Monday-to-Sunday week that contains a reference Date.
 The clock default of the source (`new Date()`) is the caller's argument here.
 */
module CurrentWeek {
  import opened Calendar
  import opened JsDate

  /** getDay numbers Sunday 0; this week ends on Sunday, so Sunday becomes 7. */
  function WeekdayFromMonday(weekDay: int): (days: int)
    requires 0 <= weekDay <= 6
    ensures 1 <= days <= 7
    ensures days % 7 == weekDay
  {
    if weekDay == 0 then 7 else weekDay
  }

  /**
   Both bounds are copies of the reference with only the day of month moved:
   back to the Monday, forward to the Sunday.
   */
  function GetCurrentWeek(currDate: DateTime): (b: Bounds)
    ensures var days := WeekdayFromMonday(GetDay(currDate));
            && ToDays(b.startDate.date) == ToDays(currDate.date) - (days - 1)
            && ToDays(b.endDate.date) == ToDays(currDate.date) + (7 - days)
    ensures GetDay(b.startDate) == 1 && GetDay(b.endDate) == 0
    ensures ToDays(b.startDate.date) <= ToDays(currDate.date) <= ToDays(b.endDate.date)
    ensures ToDays(b.endDate.date) == ToDays(b.startDate.date) + 6
    ensures b.startDate.time == currDate.time && b.endDate.time == currDate.time
    ensures var days := WeekdayFromMonday(GetDay(currDate));
            && b.startDate.date == AddDays(currDate.date, -(days - 1))
            && b.endDate.date == AddDays(currDate.date, 7 - days)
  {
    var weekDay := GetDay(currDate);
    var days := WeekdayFromMonday(weekDay);
    var startDate := SetDate(currDate, GetDate(currDate) - (days - 1));
    var endDate := SetDate(currDate, GetDate(currDate) + (7 - days));
    WeekdayShift(currDate.date, startDate.date, -(days - 1));
    WeekdayShift(currDate.date, endDate.date, 7 - days);
    MondayAndSundayOffsets(weekDay, days);
    ToDaysInjective(startDate.date, AddDays(currDate.date, -(days - 1)));
    ToDaysInjective(endDate.date, AddDays(currDate.date, 7 - days));
    Bounds(startDate, endDate)
  }

  lemma MondayAndSundayOffsets(weekDay: int, days: int)
    requires 0 <= weekDay <= 6 && days == WeekdayFromMonday(weekDay)
    ensures (weekDay + -(days - 1)) % 7 == 1
    ensures (weekDay + (7 - days)) % 7 == 0
  {
  }

  /** Weeks counted from the Monday 1969-12-29: day numbers 7w-3 .. 7w+3 form week w. */
  function WeekIndex(d: Date): int
    requires Valid(d)
  {
    (ToDays(d) + 3) / 7
  }

  /** The week's Monday is determined by the week index alone. */
  lemma StartIsWeekMonday(currDate: DateTime)
    ensures ToDays(GetCurrentWeek(currDate).startDate.date) == 7 * WeekIndex(currDate.date) - 3
  {
    MondayOffset(ToDays(currDate.date), WeekdayFromMonday(GetDay(currDate)));
  }

  lemma MondayOffset(n: int, days: int)
    requires 1 <= days <= 7 && days % 7 == (n + 4) % 7
    ensures n - (days - 1) == 7 * ((n + 3) / 7) - 3
  {
    var q, r := (n + 3) / 7, (n + 3) % 7;
    assert n + 4 == 7 * q + (r + 1);
    ModSevenShift(r + 1, 7 * q);
    assert (n + 4) % 7 == (r + 1) % 7;
  }

  /** Two references get the same week bounds exactly when they lie in the same week. */
  lemma SameWeekSameBounds(a: DateTime, b: DateTime)
    ensures (WeekIndex(a.date) == WeekIndex(b.date))
              <==> (GetCurrentWeek(a).startDate.date == GetCurrentWeek(b).startDate.date)
    ensures (WeekIndex(a.date) == WeekIndex(b.date))
              <==> (GetCurrentWeek(a).endDate.date == GetCurrentWeek(b).endDate.date)
  {
    StartIsWeekMonday(a);
    StartIsWeekMonday(b);
    ToDaysInjective(GetCurrentWeek(a).startDate.date, GetCurrentWeek(b).startDate.date);
    ToDaysInjective(GetCurrentWeek(a).endDate.date, GetCurrentWeek(b).endDate.date);
  }

  /** A date falls inside the week window of `a` exactly when it is in the same week as `a`. */
  lemma WindowIsTheWeek(a: DateTime, d: Date)
    requires Valid(d)
    ensures var b := GetCurrentWeek(a);
            (ToDays(b.startDate.date) <= ToDays(d) <= ToDays(b.endDate.date))
              <==> WeekIndex(d) == WeekIndex(a.date)
  {
    StartIsWeekMonday(a);
  }
}
