/**
 Cron expressions and their next run, all in UTC. Times are minutes since the epoch, and
 days are days since the epoch. The scheduler scans day by day and expands only the days
 that match; the meaning is a scan minute by minute.
 */
module CronSchedule {
  import opened Prelude
  import opened TextLines
  import opened CronCalendar
  import opened CronFields

  const HORIZON_DAYS: nat := 1462

  datatype Cron = Cron(
    min: set<nat>, hour: set<nat>, dom: set<nat>, mon: set<nat>, dow: set<nat>,
    domRestricted: bool, dowRestricted: bool)

  predicate ValidCron(c: Cron) {
    && (forall m :: m in c.min ==> m < 60)
    && (forall h :: h in c.hour ==> h < 24)
  }

  // ------------------------------------------------------------------------ parsing

  function SpaceAt(s: string): (n: nat)
    ensures n <= |s| && (n < |s| ==> Space(s[n]))
  {
    if s == "" || Space(s[0]) then 0 else SpaceAt(s[1..]) + 1
  }

  function SkipSpaces(s: string): (rest: string)
    ensures |rest| <= |s|
  {
    if s != "" && Space(s[0]) then SkipSpaces(s[1..]) else s
  }

  /** The words of a trimmed text. */
  function Words(s: string): seq<string>
    decreases |s|
  {
    var n := SpaceAt(s);
    if n == |s| then [s]
    else
      assert |SkipSpaces(s[n + 1..])| < |s|;
      [s[..n]] + Words(SkipSpaces(s[n + 1..]))
  }

  const FIELDS: seq<Field> := [MINUTE, HOUR, DAY_OF_MONTH, MONTH, DAY_OF_WEEK]

  predicate ValidExpression(expr: string) {
    Trim(expr) != "" && |Words(Trim(expr))| == 5 && forall i :: 0 <= i < 5 ==> WellFormed(Words(Trim(expr))[i], FIELDS[i])
  }

  predicate StartsWithStar(word: string) {
    word != "" && word[0] == '*'
  }

  ghost predicate FieldIs(values: set<nat>, word: string, field: Field) {
    forall v :: v in values <==> FieldHas(word, field, v)
  }

  /** The expression stands for this schedule. */
  ghost predicate Denotes(expr: string, c: Cron) {
    var words := Words(Trim(expr));
    && |words| == 5
    && FieldIs(c.min, words[0], MINUTE) && FieldIs(c.hour, words[1], HOUR) && FieldIs(c.dom, words[2], DAY_OF_MONTH)
    && FieldIs(c.mon, words[3], MONTH) && FieldIs(c.dow, words[4], DAY_OF_WEEK)
    && c.domRestricted == !StartsWithStar(words[2]) && c.dowRestricted == !StartsWithStar(words[4])
  }

  lemma FieldInBounds(word: string, field: Field, v: int)
    requires field.min <= field.max && field.min == 0 && FieldHas(word, field, v)
    ensures 0 <= v <= field.max && (field.max == 7 ==> v < 7)
  {
    var part :| part in Split(word, ',') && PartHas(part, field, v);
    StepIsPositive(part, field);
  }

  method ParseCron(expr: string) returns (c: Option<Cron>)
    ensures c.Some? <==> ValidExpression(expr)
    ensures c.Some? ==> Denotes(expr, c.value) && ValidCron(c.value)
  {
    if Trim(expr) == "" { return None; }
    var words := Words(Trim(expr));
    if |words| != 5 { return None; }
    var min := ParseField(words[0], FIELDS[0]);
    if min.None? { return None; }
    var hour := ParseField(words[1], FIELDS[1]);
    if hour.None? { return None; }
    var dom := ParseField(words[2], FIELDS[2]);
    if dom.None? { return None; }
    var mon := ParseField(words[3], FIELDS[3]);
    if mon.None? { return None; }
    var dow := ParseField(words[4], FIELDS[4]);
    if dow.None? { return None; }
    forall v | v in min.value ensures v < 60 { FieldInBounds(words[0], MINUTE, v); }
    forall v | v in hour.value ensures v < 24 { FieldInBounds(words[1], HOUR, v); }
    c := Some(Cron(min.value, hour.value, dom.value, mon.value, dow.value,
                   !StartsWithStar(words[2]), !StartsWithStar(words[4])));
  }

  // --------------------------------------------------------------------- clock

  /** Sunday is 0; the epoch was a Thursday. */
  function Weekday(day: int): nat {
    (day + 4) % 7
  }

  function Minute(t: int): nat { t % 60 }
  function Hour(t: int): nat { t / 60 % 24 }
  function DayOf(t: int): int { t / 1440 }

  // ------------------------------------------------------------------------ matching

  predicate DayMatches(c: Cron, day: int) {
    && Calendar(day).month in c.mon
    && var domOk := Calendar(day).date in c.dom;
       var dowOk := Weekday(day) in c.dow;
       if c.domRestricted && c.dowRestricted then domOk || dowOk else domOk && dowOk
  }

  predicate Matches(c: Cron, t: int) {
    Minute(t) in c.min && Hour(t) in c.hour && DayMatches(c, DayOf(t))
  }

  lemma TimeSplits(t: int)
    ensures t == DayOf(t) * 1440 + Hour(t) * 60 + Minute(t)
  {
  }

  /** The minute of a day at which the clock says hour and minute. */
  function Slot(day: int, h: nat, m: nat): int {
    day * 1440 + (h * 60 + m)
  }

  lemma InHour(hours: int, m: nat)
    requires m < 60
    ensures (hours * 60 + m) / 60 == hours && (hours * 60 + m) % 60 == m
  {
  }

  lemma InDay(day: int, h: nat)
    requires h < 24
    ensures (day * 24 + h) % 24 == h
  {
  }

  lemma MinuteOfDay(day: int, m: nat)
    requires m < 1440
    ensures (day * 1440 + m) / 1440 == day
  {
  }

  lemma TimeJoins(day: int, h: nat, m: nat)
    requires h < 24 && m < 60
    ensures var t := Slot(day, h, m);
      DayOf(t) == day && Hour(t) == h && Minute(t) == m
  {
    InHour(day * 24 + h, m);
    InDay(day, h);
    MinuteOfDay(day, h * 60 + m);
    assert Slot(day, h, m) == (day * 24 + h) * 60 + m;
  }

  // ------------------------------------------------------------------------ next run

  predicate Ascending(s: seq<nat>) {
    forall i, j :: 0 <= i < j < |s| ==> s[i] < s[j]
  }

  method Insert(s: seq<nat>, v: nat) returns (longer: seq<nat>)
    requires Ascending(s) && v !in s
    ensures Ascending(longer) && forall x :: x in longer <==> x in s || x == v
  {
    var at := 0;
    while at < |s| && s[at] < v
      invariant at <= |s| && forall i :: 0 <= i < at ==> s[i] < v
    {
      at := at + 1;
    }
    longer := s[..at] + [v] + s[at..];
    InsertedAscending(s, at, v);
  }

  lemma InsertedAscending(s: seq<nat>, at: nat, v: nat)
    requires Ascending(s) && at <= |s| && (forall i :: 0 <= i < at ==> s[i] < v) && (at < |s| ==> v < s[at])
    ensures var longer := s[..at] + [v] + s[at..];
      Ascending(longer) && forall x :: x in longer <==> x in s || x == v
  {
    var longer := s[..at] + [v] + s[at..];
    forall i, j | 0 <= i < j < |longer| ensures longer[i] < longer[j] {
      assert longer[i] == if i < at then s[i] else if i == at then v else s[i - 1];
      assert longer[j] == if j < at then s[j] else if j == at then v else s[j - 1];
      assert at < |s| && j > at ==> v < s[at] <= s[j - 1];
    }
    assert s == s[..at] + s[at..];
    assert forall x :: x in longer <==> x in s[..at] || x == v || x in s[at..];
  }

  /** The values in ascending order. */
  method Sorted(values: set<nat>) returns (s: seq<nat>)
    ensures Ascending(s) && forall v :: v in s <==> v in values
  {
    s := [];
    var left := values;
    while left != {}
      invariant left <= values
      invariant forall v :: v in s <==> v in values && v !in left
      invariant Ascending(s)
      decreases left
    {
      var v :| v in left;
      left := left - {v};
      s := Insert(s, v);
    }
  }

  ghost predicate NothingBetween(c: Cron, from: int, to: int) {
    forall t :: from <= t < to ==> !Matches(c, t)
  }

  /** The first listed minute of one hour that is not before `start`. */
  method FirstOfHour(mins: seq<nat>, day: int, hour: nat, start: int) returns (first: Option<nat>)
    requires Ascending(mins)
    ensures first.Some? ==> first.value in mins && Slot(day, hour, first.value) >= start
    ensures first.Some? ==> forall m :: m in mins && m < first.value ==> Slot(day, hour, m) < start
    ensures first.None? ==> forall m :: m in mins ==> Slot(day, hour, m) < start
  {
    for j := 0 to |mins|
      invariant forall b :: 0 <= b < j ==> Slot(day, hour, mins[b]) < start
    {
      if Slot(day, hour, mins[j]) >= start { return Some(mins[j]); }
    }
    first := None;
  }

  /** The first matching minute of a matching day, not before `start`. */
  method FirstOfDay(c: Cron, hours: seq<nat>, mins: seq<nat>, day: int, start: int) returns (first: Option<int>)
    requires ValidCron(c) && DayMatches(c, day)
    requires Ascending(hours) && (forall h :: h in hours <==> h in c.hour)
    requires Ascending(mins) && (forall m :: m in mins <==> m in c.min)
    ensures first.Some? ==> start <= first.value && DayOf(first.value) == day && Matches(c, first.value)
    ensures first.Some? ==> forall t :: DayOf(t) == day && start <= t < first.value ==> !Matches(c, t)
    ensures first.None? ==> forall t :: DayOf(t) == day && start <= t ==> !Matches(c, t)
  {
    for i := 0 to |hours|
      invariant forall a, m :: 0 <= a < i && m in mins ==> Slot(day, hours[a], m) < start
    {
      assert hours[i] in hours;
      var m := FirstOfHour(mins, day, hours[i], start);
      if m.Some? {
        TimeJoins(day, hours[i], m.value);
        forall u | DayOf(u) == day && start <= u < Slot(day, hours[i], m.value) ensures !Matches(c, u) {
          if Matches(c, u) {
            var a := ScannedHour(c, hours, day, u);
          }
        }
        return Some(Slot(day, hours[i], m.value));
      }
    }
    forall u | DayOf(u) == day && start <= u ensures !Matches(c, u) {
      if Matches(c, u) {
        var a := ScannedHour(c, hours, day, u);
      }
    }
    first := None;
  }

  /** A matching minute of the day is the slot of a listed hour and minute. */
  lemma ScannedHour(c: Cron, hours: seq<nat>, day: int, u: int) returns (a: nat)
    requires DayOf(u) == day && Matches(c, u) && forall h :: h in hours <==> h in c.hour
    ensures a < |hours| && hours[a] == Hour(u) && Slot(day, hours[a], Minute(u)) == u
  {
    TimeSplits(u);
    a :| 0 <= a < |hours| && hours[a] == Hour(u);
  }

  /** The first day that is looked at. */
  function ScanDay(start: int): int {
    UtcDay(Calendar(DayOf(start)))
  }

  /** The minutes that are looked at: from the start, or from the first day if that is later. */
  function ScanFrom(start: int): int {
    if start < ScanDay(start) * 1440 then ScanDay(start) * 1440 else start
  }

  function ScanEnd(start: int): int {
    (ScanDay(start) + HORIZON_DAYS) * 1440
  }

  lemma ScanStarts(start: int)
    ensures DayOf(ScanFrom(start)) == ScanDay(start) && start <= ScanFrom(start)
    ensures if TwoDigitYear(Calendar(DayOf(start))) then start < ScanFrom(start)
            else ScanFrom(start) == start && ScanDay(start) == DayOf(start)
  {
    UtcDayIs(DayOf(start));
    MinuteOfDay(ScanDay(start), 0);
    TimeSplits(start);
  }

  /** The first match of the minutes from `from` to `to`, if there is one. */
  ghost predicate FirstMatch(c: Cron, from: int, to: int, next: Option<int>) {
    match next
    case Some(t) => from <= t < to && Matches(c, t) && NothingBetween(c, from, t)
    case None => NothingBetween(c, from, to)
  }

  method NextRun(c: Cron, from: int) returns (next: Option<int>)
    requires ValidCron(c)
    ensures next.Some? ==> from < next.value * 60000
    ensures FirstMatch(c, ScanFrom(from / 60000 + 1), ScanEnd(from / 60000 + 1), next)
  {
    var hours := Sorted(c.hour);
    var mins := Sorted(c.min);
    var start := from / 60000 + 1;
    var first := UtcDay(Calendar(DayOf(start)));
    ScanStarts(start);
    for i := 0 to HORIZON_DAYS
      invariant NothingBetween(c, ScanFrom(start), (first + i) * 1440)
    {
      var day := first + i;
      if DayMatches(c, day) {
        var t := FirstOfDay(c, hours, mins, day, start);
        if t.Some? {
          forall u | ScanFrom(start) <= u < t.value ensures !Matches(c, u) {
            assert u >= day * 1440 ==> DayOf(u) == day;
          }
          return t;
        }
      }
      forall u | ScanFrom(start) <= u < (day + 1) * 1440 ensures !Matches(c, u) {
        assert u >= day * 1440 ==> DayOf(u) == day;
      }
    }
    next := None;
  }

  // ------------------------------------------------------------- what it is meant to find

  /** The window that the horizon is meant to give: this day and those after it. */
  function WindowEnd(start: int): int {
    (DayOf(start) + HORIZON_DAYS) * 1440
  }

  /** "* * * * *": every minute. */
  ghost const EVERY_MINUTE := Cron(
    set m: nat | m < 60, set h: nat | h < 24, set d: nat | 1 <= d <= 31, set m: nat | 1 <= m <= 12, set w: nat | w < 7, false, false)

  lemma EveryMinuteMatches(t: int)
    ensures ValidCron(EVERY_MINUTE) && Matches(EVERY_MINUTE, t)
  {
    CalendarIsReal(DayOf(t));
  }

  /**
   What is found is the first match after the start within the horizon, for every
   expression, exactly when the year of the start has not just two digits.
   */
  lemma FirstMatchIffNoTwoDigitYear(start: int)
    ensures (forall c, next :: ValidCron(c) && FirstMatch(c, ScanFrom(start), ScanEnd(start), next) ==>
              FirstMatch(c, start, WindowEnd(start), next))
       <==> !TwoDigitYear(Calendar(DayOf(start)))
  {
    ScanStarts(start);
    if TwoDigitYear(Calendar(DayOf(start))) {
      EveryMinuteMatches(start);
      EveryMinuteMatches(ScanFrom(start));
      TimeSplits(ScanFrom(start));
      assert FirstMatch(EVERY_MINUTE, ScanFrom(start), ScanEnd(start), Some(ScanFrom(start)));
      assert !FirstMatch(EVERY_MINUTE, start, WindowEnd(start), Some(ScanFrom(start)));
    }
  }
}
