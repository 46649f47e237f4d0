/** Days since the epoch and their dates in UTC, in both directions. */
module CronCalendar {
  import opened BudgetDays

  datatype Date = Date(year: int, month: int, date: int)

  const EPOCH := Date(1970, 1, 1)

  function NextDate(d: Date): Date {
    if d.date < DaysIn(d.year, d.month) then d.(date := d.date + 1)
    else if d.month < 12 then Date(d.year, d.month + 1, 1)
    else Date(d.year + 1, 1, 1)
  }

  function PreviousDate(d: Date): Date {
    if d.date > 1 then d.(date := d.date - 1)
    else if d.month > 1 then Date(d.year, d.month - 1, DaysIn(d.year, d.month - 1))
    else Date(d.year - 1, 12, 31)
  }

  /** The date of a day counted from the epoch. */
  function Calendar(day: int): Date
    decreases if day < 0 then -day else day
  {
    if day == 0 then EPOCH else if day > 0 then NextDate(Calendar(day - 1)) else PreviousDate(Calendar(day + 1))
  }

  predicate RealDate(d: Date) {
    1 <= d.month <= 12 && 1 <= d.date <= DaysIn(d.year, d.month)
  }

  lemma {:induction false} CalendarIsReal(day: int)
    ensures RealDate(Calendar(day))
    decreases if day < 0 then -day else day
  {
    if day > 0 { CalendarIsReal(day - 1); }
    if day < 0 { CalendarIsReal(day + 1); }
  }

  /** The calendar goes from each day to the next, before and after the epoch. */
  lemma CalendarSteps(day: int)
    ensures Calendar(day + 1) == NextDate(Calendar(day))
  {
    if day < 0 {
      CalendarIsReal(day + 1);
      assert Calendar(day) == PreviousDate(Calendar(day + 1));
    }
  }

  lemma CalendarGoesBack(day: int)
    ensures Calendar(day - 1) == PreviousDate(Calendar(day))
  {
    if day > 0 {
      CalendarIsReal(day - 1);
    }
  }

  // ------------------------------------------------------------- from a date to its day

  /** Years counted from March, so that a leap day comes last. */
  function MarchYear(d: Date): int {
    if d.month >= 3 then d.year else d.year - 1
  }

  /** The days before the March of a year, counted from the March of year 0. */
  function DaysBefore(y: int): int {
    365 * y + y / 4 - y / 100 + y / 400
  }

  /** The days of the year from March that come before the month. */
  function MonthStart(m: int): int {
    match m
    case 3 => 0
    case 4 => 31
    case 5 => 61
    case 6 => 92
    case 7 => 122
    case 8 => 153
    case 9 => 184
    case 10 => 214
    case 11 => 245
    case 12 => 275
    case 1 => 306
    case _ => 337
  }

  const EPOCH_DAYS: int := 719468

  function DayNumber(d: Date): int {
    DaysBefore(MarchYear(d)) + MonthStart(d.month) + d.date - 1 - EPOCH_DAYS
  }

  lemma YearSteps(y: int)
    ensures DaysBefore(y + 1) == DaysBefore(y) + if Leap(y + 1) then 366 else 365
  {
    assert (y + 1) / 4 == y / 4 + if (y + 1) % 4 == 0 then 1 else 0;
    assert (y + 1) / 100 == y / 100 + if (y + 1) % 100 == 0 then 1 else 0;
    assert (y + 1) / 400 == y / 400 + if (y + 1) % 400 == 0 then 1 else 0;
  }

  lemma NumberSteps(d: Date)
    requires RealDate(d)
    ensures DayNumber(NextDate(d)) == DayNumber(d) + 1
  {
    YearSteps(d.year - 1);
  }

  /** The day number is the inverse of the calendar. */
  lemma {:induction false} NumberOfDay(day: int)
    ensures DayNumber(Calendar(day)) == day
    decreases if day < 0 then -day else day
  {
    if day > 0 {
      NumberOfDay(day - 1);
      CalendarIsReal(day - 1);
      NumberSteps(Calendar(day - 1));
    } else if day < 0 {
      NumberOfDay(day + 1);
      CalendarIsReal(day);
      CalendarSteps(day);
      NumberSteps(Calendar(day));
    }
  }

  predicate TwoDigitYear(d: Date) {
    0 <= d.year <= 99
  }

  /** The day that `Date.UTC` makes of a date: it takes a two-digit year for one of the twentieth century. */
  function UtcDay(d: Date): int {
    DayNumber(if TwoDigitYear(d) then d.(year := d.year + 1900) else d)
  }

  lemma CenturiesLater(y: int)
    ensures DaysBefore(y + 1900) >= DaysBefore(y) + 693960
  {
    assert (y + 1900) / 4 == y / 4 + 475;
    assert (y + 1900) / 100 == y / 100 + 19;
    assert (y + 1900) / 400 >= y / 400 + 4;
  }

  /** It is the day itself, except in a two-digit year, for which it lies far ahead. */
  lemma UtcDayIs(day: int)
    ensures if TwoDigitYear(Calendar(day)) then UtcDay(Calendar(day)) > day else UtcDay(Calendar(day)) == day
  {
    NumberOfDay(day);
    CenturiesLater(MarchYear(Calendar(day)));
  }
}
