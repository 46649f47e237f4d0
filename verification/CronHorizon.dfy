/**
 How far the scheduler looks ahead. Four years and a day reach the next leap day except
 across a century year that is not one.
 */
module CronHorizon {
  import opened BudgetDays
  import opened CronCalendar
  import opened CronSchedule

  lemma {:induction false} DaysOfMonth(day: int, y: int, m: int, k: nat)
    requires Calendar(day) == Date(y, m, 1) && 1 <= m <= 12 && k < DaysIn(y, m)
    ensures Calendar(day + k) == Date(y, m, 1 + k)
  {
    if k > 0 {
      DaysOfMonth(day, y, m, k - 1);
      CalendarSteps(day + (k - 1));
    }
  }

  lemma MonthPasses(day: int, y: int, m: int)
    requires Calendar(day) == Date(y, m, 1) && 1 <= m <= 12
    ensures Calendar(day + DaysIn(y, m)) == if m < 12 then Date(y, m + 1, 1) else Date(y + 1, 1, 1)
    ensures forall d :: day <= d < day + DaysIn(y, m) ==> Calendar(d) == Date(y, m, 1 + (d - day))
  {
    forall d | day <= d < day + DaysIn(y, m) ensures Calendar(d) == Date(y, m, 1 + (d - day)) {
      DaysOfMonth(day, y, m, d - day);
    }
    CalendarSteps(day + (DaysIn(y, m) - 1));
  }

  predicate LeapDay(d: Date) {
    d.month == 2 && d.date == 29
  }

  predicate NoLeapDay(from: int, to: int) {
    forall d :: from <= d < to ==> !LeapDay(Calendar(d))
  }

  function YearDays(y: int): nat {
    if Leap(y + 1) then 366 else 365
  }

  /** Where the day lies in the year from March to March that begins on day `march`. */
  ghost predicate InYear(d: int, march: int, y: int) {
    && MarchYear(Calendar(d)) == y
    && (LeapDay(Calendar(d)) <==> d == march + 365)
    && (TwentyEighth(Calendar(d)) <==> d == march + 364)
  }

  predicate TwentyEighth(d: Date) {
    d.month == 2 && d.date == 28
  }

  /** The days of a year from March to March: all of that year, and a leap day at the very end or none. */
  lemma MarchToMarch(day: int, y: int)
    requires Calendar(day) == Date(y, 3, 1)
    ensures Calendar(day + YearDays(y)) == Date(y + 1, 3, 1)
    ensures forall d :: day <= d < day + YearDays(y) ==> InYear(d, day, y)
  {
    MonthPasses(day, y, 3);
    MonthPasses(day + 31, y, 4);
    MonthPasses(day + 61, y, 5);
    MonthPasses(day + 92, y, 6);
    MonthPasses(day + 122, y, 7);
    MonthPasses(day + 153, y, 8);
    MonthPasses(day + 184, y, 9);
    MonthPasses(day + 214, y, 10);
    MonthPasses(day + 245, y, 11);
    MonthPasses(day + 275, y, 12);
    MonthPasses(day + 306, y + 1, 1);
    MonthPasses(day + 337, y + 1, 2);
  }

  lemma {:induction false} FirstOfMonth(day: int, d: Date)
    requires Calendar(day) == d && RealDate(d)
    ensures Calendar(day - (d.date - 1)) == d.(date := 1)
    decreases d.date
  {
    if d.date > 1 {
      CalendarGoesBack(day);
      FirstOfMonth(day - 1, d.(date := d.date - 1));
    }
  }

  lemma MonthBefore(day: int, y: int, m: int)
    requires Calendar(day) == Date(y, m, 1) && 1 <= m <= 12
    ensures m > 1 ==> Calendar(day - DaysIn(y, m - 1)) == Date(y, m - 1, 1)
    ensures m == 1 ==> Calendar(day - 31) == Date(y - 1, 12, 1)
  {
    CalendarGoesBack(day);
    FirstOfMonth(day - 1, PreviousDate(Date(y, m, 1)));
  }

  lemma MarchBefore(day: int, y: int)
    requires Calendar(day) == Date(y, 3, 1)
    ensures Calendar(day - YearDays(y - 1)) == Date(y - 1, 3, 1)
  {
    var february := day - DaysIn(y, 2);
    MonthBefore(day, y, 3);
    MonthBefore(february, y, 2);
    MonthBefore(february - 31, y, 1);
    MonthBefore(february - 62, y - 1, 12);
    MonthBefore(february - 92, y - 1, 11);
    MonthBefore(february - 123, y - 1, 10);
    MonthBefore(february - 153, y - 1, 9);
    MonthBefore(february - 184, y - 1, 8);
    MonthBefore(february - 215, y - 1, 7);
    MonthBefore(february - 245, y - 1, 6);
    MonthBefore(february - 276, y - 1, 5);
    MonthBefore(february - 306, y - 1, 4);
  }

  lemma {:induction false} MarchOf(y: int) returns (day: int)
    requires 1970 <= y
    ensures Calendar(day) == Date(y, 3, 1)
    decreases y
  {
    if y == 1970 {
      assert Calendar(0) == EPOCH;
      MonthPasses(0, 1970, 1);
      MonthPasses(31, 1970, 2);
      day := 59;
    } else {
      var before := MarchOf(y - 1);
      MarchToMarch(before, y - 1);
      day := before + 365 + (if Leap(y) then 1 else 0);
    }
  }

  // -------------------------------------------------------------- four years at a time

  function FourYears(y: int): nat {
    if Leap(y + 4) then 1461 else 1460
  }

  /** Four years from the March of a year divisible by four: their leap day, if any, comes last. */
  ghost predicate StartsFour(march: int, y: int) {
    y % 4 == 0 && Calendar(march) == Date(y, 3, 1)
  }

  /** Where the day lies in the four years that begin on day `march`. */
  ghost predicate InFour(d: int, march: int, y: int) {
    && y <= MarchYear(Calendar(d)) < y + 4
    && (LeapDay(Calendar(d)) <==> d == march + 1460)
    && (MarchYear(Calendar(d)) == y + 3 && TwentyEighth(Calendar(d)) <==> d == march + 1459)
  }

  lemma FourMarches(march: int, y: int)
    requires StartsFour(march, y)
    ensures Calendar(march + 365) == Date(y + 1, 3, 1) && Calendar(march + 730) == Date(y + 2, 3, 1)
    ensures Calendar(march + 1095) == Date(y + 3, 3, 1) && StartsFour(march + FourYears(y), y + 4)
  {
    MarchToMarch(march, y);
    MarchToMarch(march + 365, y + 1);
    MarchToMarch(march + 730, y + 2);
    MarchToMarch(march + 1095, y + 3);
  }

  lemma DayOfFour(march: int, y: int, d: int)
    requires StartsFour(march, y) && march <= d < march + FourYears(y)
    ensures InFour(d, march, y)
  {
    FourMarches(march, y);
    var k := if d < march + 365 then 0 else if d < march + 730 then 1 else if d < march + 1095 then 2 else 3;
    MarchToMarch(march + 365 * k, y + k);
    assert InYear(d, march + 365 * k, y + k);
  }

  lemma FourYearsPass(march: int, y: int)
    requires StartsFour(march, y)
    ensures StartsFour(march + FourYears(y), y + 4)
    ensures forall d :: march <= d < march + FourYears(y) ==> InFour(d, march, y)
  {
    FourMarches(march, y);
    forall d | march <= d < march + FourYears(y) ensures InFour(d, march, y) {
      DayOfFour(march, y, d);
    }
  }

  lemma YearsOfFour(y: int)
    requires y % 4 == 0
    ensures YearDays(y) == 365 && YearDays(y + 1) == 365 && YearDays(y + 2) == 365
    ensures YearDays(y + 3) == FourYears(y) - 1095
  {
  }

  lemma YearBefore(march: int, y: int, days: int)
    requires Calendar(march) == Date(y + 1, 3, 1) && days == YearDays(y)
    ensures Calendar(march - days) == Date(y, 3, 1)
  {
    MarchBefore(march, y + 1);
  }

  lemma FourYearsBefore(march: int, y: int)
    requires StartsFour(march, y + 4)
    ensures StartsFour(march - FourYears(y), y)
  {
    YearsOfFour(y);
    var last := FourYears(y) - 1095;
    YearBefore(march, y + 3, last);
    YearBefore(march - last, y + 2, 365);
    YearBefore(march - last - 365, y + 1, 365);
    YearBefore(march - last - 730, y, 365);
  }

  /** Every day, before or after the epoch, lies in one such four years. */
  lemma {:induction false} FourYearsOf(day: int, near: int, n: int) returns (march: int, y: int)
    requires StartsFour(near, n)
    ensures StartsFour(march, y) && march <= day < march + FourYears(y)
    decreases if day < near then near - day else day - near
  {
    if day < near {
      FourYearsBefore(near, n - 4);
      if near - FourYears(n - 4) <= day {
        march, y := near - FourYears(n - 4), n - 4;
      } else {
        march, y := FourYearsOf(day, near - FourYears(n - 4), n - 4);
      }
    } else if day < near + FourYears(n) {
      march, y := near, n;
    } else {
      FourYearsPass(near, n);
      march, y := FourYearsOf(day, near + FourYears(n), n + 4);
    }
  }

  lemma FourYearsOfDay(day: int) returns (march: int, y: int)
    ensures StartsFour(march, y) && march <= day < march + FourYears(y)
  {
    assert Calendar(0) == EPOCH;
    MonthPasses(0, 1970, 1);
    MonthPasses(31, 1970, 2);
    MarchBefore(59, 1970);
    MarchBefore(59 - 365, 1969);
    march, y := FourYearsOf(day, 59 - 730, 1968);
  }

  /**
   The dates from which the horizon reaches no leap day: from 1 March of a year divisible by
   four to 27 February four years later, when that later year is no leap year. A search that
   does not start at midnight has a day less to look at, and misses from 28 February too.
   */
  predicate Missed(first: Date, midnight: bool) {
    var y := MarchYear(first) - MarchYear(first) % 4;
    !Leap(y + 4) && !(midnight && MarchYear(first) == y + 3 && TwentyEighth(first))
  }

  lemma RoundedDown(year: int, y: int)
    requires y % 4 == 0 && y <= year < y + 4
    ensures year - year % 4 == y
  {
  }

  /** After a year divisible by four that is no leap year comes one that is. */
  lemma LeapAfterCentury(y: int)
    requires y % 4 == 0 && !Leap(y)
    ensures Leap(y + 4)
  {
  }

  lemma ReachedInFour(march: int, y: int, first: int, end: int)
    requires StartsFour(march, y) && Leap(y + 4) && march <= first <= march + 1460 && first + 1461 <= end
    ensures !NoLeapDay(first, end)
  {
    DayOfFour(march, y, march + 1460);
    assert LeapDay(Calendar(march + 1460));
  }

  lemma ReachedInEight(march: int, y: int, first: int, end: int)
    requires StartsFour(march, y) && !Leap(y + 4) && march <= first < march + 1460 && first <= end <= march + 2921
    ensures NoLeapDay(first, end) <==> end <= march + 2920
  {
    FourYearsPass(march, y);
    LeapAfterCentury(y + 4);
    FourYearsPass(march + 1460, y + 4);
    assert InFour(march + 2920, march + 1460, y + 4);
    forall d | first <= d < end ensures LeapDay(Calendar(d)) <==> d == march + 2920 {
      assert if d < march + 1460 then InFour(d, march, y) else InFour(d, march + 1460, y + 4);
    }
  }

  lemma MissedIffNoLeapDay(first: int, midnight: bool)
    ensures NoLeapDay(first, first + HORIZON_DAYS - (if midnight then 0 else 1)) <==> Missed(Calendar(first), midnight)
  {
    var march, y := FourYearsOfDay(first);
    var end := first + HORIZON_DAYS - (if midnight then 0 else 1);
    DayOfFour(march, y, first);
    RoundedDown(MarchYear(Calendar(first)), y);
    if Leap(y + 4) {
      ReachedInFour(march, y, first, end);
    } else {
      ReachedInEight(march, y, first, end);
    }
  }

  /** "0 0 29 2 *": midnight on every leap day. */
  const LEAP_MIDNIGHT := Cron({0}, {0}, {29}, {2}, {0, 1, 2, 3, 4, 5, 6}, true, false)

  lemma MatchesLeapMidnight(t: int)
    ensures Matches(LEAP_MIDNIGHT, t) <==> LeapDay(Calendar(DayOf(t))) && t == DayOf(t) * 1440
  {
    TimeSplits(t);
    assert Weekday(DayOf(t)) in LEAP_MIDNIGHT.dow;
  }

  /** The first day whose midnight is not before the minute. */
  function FirstDay(start: int): int {
    if start == DayOf(start) * 1440 then DayOf(start) else DayOf(start) + 1
  }

  lemma NoRunIffNoLeapDay(start: int)
    ensures NothingBetween(LEAP_MIDNIGHT, start, (DayOf(start) + HORIZON_DAYS) * 1440)
       <==> NoLeapDay(FirstDay(start), DayOf(start) + HORIZON_DAYS)
  {
    var first, end := FirstDay(start), DayOf(start) + HORIZON_DAYS;
    forall d | first <= d < end ensures LeapDay(Calendar(d)) <==> Matches(LEAP_MIDNIGHT, d * 1440) {
      MatchesLeapMidnight(d * 1440);
      MinuteOfDay(d, 0);
    }
    forall t | start <= t < end * 1440 && Matches(LEAP_MIDNIGHT, t)
      ensures first <= DayOf(t) < end && LeapDay(Calendar(DayOf(t)))
    {
      MatchesLeapMidnight(t);
    }
    if d :| first <= d < end && LeapDay(Calendar(d)) {
      assert Matches(LEAP_MIDNIGHT, d * 1440) && start <= d * 1440 < end * 1440;
    }
  }

  lemma NoRunFrom(start: int)
    ensures NothingBetween(LEAP_MIDNIGHT, start, (DayOf(start) + HORIZON_DAYS) * 1440)
       <==> Missed(Calendar(FirstDay(start)), start == DayOf(start) * 1440)
  {
    NoRunIffNoLeapDay(start);
    MissedIffNoLeapDay(FirstDay(start), start == DayOf(start) * 1440);
  }

  /**
   The horizon is meant to reach the next leap day. It fails to, for every start before or
   after the epoch, exactly when the date of the first midnight looked at is one of those missed.
   */
  lemma HorizonMissesIff(start: int)
    ensures NothingBetween(LEAP_MIDNIGHT, ScanFrom(start), ScanEnd(start))
       <==> Missed(Calendar(FirstDay(ScanFrom(start))), ScanFrom(start) == ScanDay(start) * 1440)
  {
    ScanStarts(start);
    NoRunFrom(ScanFrom(start));
  }

  lemma LeapDayEndsFour(march: int, y: int)
    requires StartsFour(march, y) && Leap(y + 4)
    ensures Calendar(march + 1460) == Date(y + 4, 2, 29) && StartsFour(march + 1461, y + 4)
  {
    FourMarches(march, y);
    MarchToMarch(march + 1095, y + 3);
    assert InYear(march + 1460, march + 1095, y + 3);
  }

  /** From the leap day of 2096 nothing is found, because 2100 is no leap year, though the schedule runs again. */
  lemma HorizonMissesALeapDay() returns (start: int, later: int)
    ensures NothingBetween(LEAP_MIDNIGHT, ScanFrom(start), ScanEnd(start))
    ensures start < later && Matches(LEAP_MIDNIGHT, later)
    ensures Calendar(DayOf(start)) == Date(2096, 2, 29) && Calendar(DayOf(later)) == Date(2104, 2, 29)
  {
    var march := MarchOf(2092);
    LeapDayEndsFour(march, 2092);
    FourMarches(march + 1461, 2096);
    LeapDayEndsFour(march + 2921, 2100);
    start, later := (march + 1460) * 1440 + 1, (march + 4381) * 1440;
    MinuteOfDay(march + 1460, 1);
    MinuteOfDay(march + 4381, 0);
    MatchesLeapMidnight(later);
    ScanStarts(start);
    HorizonMissesIff(start);
  }
}
