/** Budget days: calendar dates as the spending ledger and its durable state name them. */
module BudgetDays {
  datatype Day = Day(year: nat, month: nat, date: nat)

  predicate Leap(y: int) { y % 4 == 0 && (y % 100 != 0 || y % 400 == 0) }

  function DaysIn(y: int, m: int): nat {
    if m in {4, 6, 9, 11} then 30 else if m == 2 then (if Leap(y) then 29 else 28) else 31
  }

  /** The calendar round trip maps two-digit years to 1900 and later, so years below 100 are refused. */
  predicate ValidDay(d: Day) {
    100 <= d.year <= 9999 && 1 <= d.month <= 12 && 1 <= d.date <= DaysIn(d.year, d.month)
  }

  predicate Before(a: Day, b: Day) {
    a.year < b.year || (a.year == b.year && (a.month < b.month || (a.month == b.month && a.date < b.date)))
  }
}
