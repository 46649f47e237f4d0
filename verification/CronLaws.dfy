/** What a whole cron expression says, and what the clock and the calendar of the schedule are. */
module CronLaws {
  import opened Prelude
  import opened Decimals
  import opened TextLines
  import opened TrimLaws
  import opened CronCalendar
  import opened CronFields
  import opened CronFieldLaws
  import opened CronSchedule

  // ------------------------------------------------------------------------- words

  predicate Word(s: string) {
    s != "" && forall i :: 0 <= i < |s| ==> !Space(s[i])
  }

  /** Words with white space between them. */
  predicate Apart(words: seq<string>, gaps: seq<string>) {
    && |words| == |gaps| + 1
    && (forall i :: 0 <= i < |words| ==> Word(words[i]))
    && (forall i :: 0 <= i < |gaps| ==> gaps[i] != "" && AllSpace(gaps[i]))
  }

  function Spread(words: seq<string>, gaps: seq<string>): string
    requires |words| == |gaps| + 1
  {
    if gaps == [] then words[0] else words[0] + gaps[0] + Spread(words[1..], gaps[1..])
  }

  lemma {:induction false} SpaceFound(word: string, rest: string)
    requires Word(word) && (rest != "" ==> Space(rest[0]))
    ensures SpaceAt(word + rest) == |word|
    decreases |word|
  {
    assert (word + rest)[1..] == word[1..] + rest;
    if |word| > 1 {
      SpaceFound(word[1..], rest);
    }
  }

  lemma {:induction false} SpacesSkipped(gap: string, rest: string)
    requires AllSpace(gap) && rest != "" && !Space(rest[0])
    ensures SkipSpaces(gap + rest) == rest
    decreases |gap|
  {
    if gap == "" {
      assert gap + rest == rest;
    } else {
      assert (gap + rest)[1..] == gap[1..] + rest;
      SpacesSkipped(gap[1..], rest);
    }
  }

  lemma {:induction false} SpreadStarts(words: seq<string>, gaps: seq<string>)
    requires Apart(words, gaps)
    ensures Trimmed(Spread(words, gaps)) && Spread(words, gaps) != "" && !Space(Spread(words, gaps)[0])
    decreases |gaps|
  {
    if gaps != [] {
      SpreadStarts(words[1..], gaps[1..]);
    }
  }

  lemma FirstWord(word: string, gap: string, rest: string)
    requires Word(word) && gap != "" && AllSpace(gap) && rest != "" && !Space(rest[0])
    ensures Words(word + gap + rest) == [word] + Words(rest)
  {
    var s := word + gap + rest;
    assert s == word + (gap + rest);
    SpaceFound(word, gap + rest);
    assert s[..|word|] == word && s[|word| + 1..] == gap[1..] + rest;
    SpacesSkipped(gap[1..], rest);
  }

  lemma {:induction false} WordsOfSpread(words: seq<string>, gaps: seq<string>)
    requires Apart(words, gaps)
    ensures Words(Spread(words, gaps)) == words
    decreases |gaps|
  {
    if gaps == [] {
      SpaceFound(words[0], "");
      assert words[0] + "" == words[0] && words == [words[0]];
    } else {
      SpreadStarts(words[1..], gaps[1..]);
      WordsOfSpread(words[1..], gaps[1..]);
      FirstWord(words[0], gaps[0], Spread(words[1..], gaps[1..]));
      assert words == [words[0]] + words[1..];
    }
  }

  /** An expression is read as its words, whatever white space is between and around them. */
  lemma ExpressionWords(before: string, words: seq<string>, gaps: seq<string>, after: string)
    requires Apart(words, gaps) && AllSpace(before) && AllSpace(after)
    ensures Trim(before + Spread(words, gaps) + after) != "" && Words(Trim(before + Spread(words, gaps) + after)) == words
  {
    SpreadStarts(words, gaps);
    TrimCuts(before, Spread(words, gaps), after);
    WordsOfSpread(words, gaps);
  }

  lemma {:induction false} SkipSplits(s: string) returns (gap: string)
    ensures s == gap + SkipSpaces(s) && AllSpace(gap)
    ensures SkipSpaces(s) != "" ==> !Space(SkipSpaces(s)[0]) && SkipSpaces(s)[|SkipSpaces(s)| - 1] == s[|s| - 1]
    ensures SkipSpaces(s) == "" && s != "" ==> Space(s[|s| - 1])
  {
    if s != "" && Space(s[0]) {
      gap := SkipSplits(s[1..]);
      gap := [s[0]] + gap;
    } else {
      gap := "";
    }
  }

  lemma {:induction false} BeforeSpace(s: string)
    ensures forall i :: 0 <= i < SpaceAt(s) ==> !Space(s[i])
  {
    if s != "" && !Space(s[0]) {
      BeforeSpace(s[1..]);
    }
  }

  lemma LastKept(s: string, n: nat)
    requires n < |s| - 1
    ensures s[n + 1..] != "" && s[n + 1..][|s[n + 1..]| - 1] == s[|s| - 1]
    ensures s == s[..n] + [s[n]] + s[n + 1..]
  {
  }

  lemma WordsCut(s: string)
    requires SpaceAt(s) < |s|
    ensures Words(s) == [s[..SpaceAt(s)]] + Words(SkipSpaces(s[SpaceAt(s) + 1..]))
  {
  }

  lemma WordBefore(s: string)
    requires s != "" && Trimmed(s) && SpaceAt(s) < |s|
    ensures Word(s[..SpaceAt(s)]) && SpaceAt(s) < |s| - 1
  {
    BeforeSpace(s);
    assert Space(s[SpaceAt(s)]);
  }

  lemma GapJoined(word: string, c: char, gap: string, rest: string)
    requires Space(c) && AllSpace(gap)
    ensures word + [c] + (gap + rest) == word + ([c] + gap) + rest && AllSpace([c] + gap)
  {
  }

  lemma CutWord(s: string) returns (word: string, gap: string, rest: string)
    requires s != "" && Trimmed(s) && SpaceAt(s) < |s|
    ensures s == word + gap + rest && Word(word) && gap != "" && AllSpace(gap)
    ensures rest != "" && Trimmed(rest) && Words(s) == [word] + Words(rest)
  {
    var n := SpaceAt(s);
    WordBefore(s);
    LastKept(s, n);
    WordsCut(s);
    var tail := s[n + 1..];
    var skipped := SkipSplits(tail);
    word, gap, rest := s[..n], [s[n]] + skipped, SkipSpaces(tail);
    GapJoined(word, s[n], skipped, rest);
  }

  lemma {:induction false} TextIsSpread(s: string) returns (gaps: seq<string>)
    requires s != "" && Trimmed(s)
    ensures Apart(Words(s), gaps) && Spread(Words(s), gaps) == s
    decreases |s|
  {
    if SpaceAt(s) == |s| {
      BeforeSpace(s);
      gaps := [];
    } else {
      var word, gap, rest := CutWord(s);
      var more := TextIsSpread(rest);
      OneMoreWord(word, gap, Words(rest), more);
      gaps := [gap] + more;
    }
  }

  lemma OneMoreWord(word: string, gap: string, words: seq<string>, gaps: seq<string>)
    requires Word(word) && gap != "" && AllSpace(gap) && Apart(words, gaps)
    ensures Apart([word] + words, [gap] + gaps)
    ensures Spread([word] + words, [gap] + gaps) == word + gap + Spread(words, gaps)
  {
    assert ([word] + words)[1..] == words && ([gap] + gaps)[1..] == gaps;
  }

  /** Every text that is not blank is words with white space between and around them. */
  lemma EveryExpression(expr: string) returns (before: string, gaps: seq<string>, after: string)
    requires Trim(expr) != ""
    ensures AllSpace(before) && AllSpace(after) && Apart(Words(Trim(expr)), gaps)
    ensures expr == before + Spread(Words(Trim(expr)), gaps) + after
  {
    before, after := TrimSplits(expr);
    gaps := TextIsSpread(Trim(expr));
  }

  /** The fields stand for what the words say, and a field is restricted when its word does not start with a star. */
  ghost predicate Says(words: seq<string>, c: Cron)
    requires |words| == 5
  {
    && FieldIs(c.min, words[0], MINUTE) && FieldIs(c.hour, words[1], HOUR) && FieldIs(c.dom, words[2], DAY_OF_MONTH)
    && FieldIs(c.mon, words[3], MONTH) && FieldIs(c.dow, words[4], DAY_OF_WEEK)
    && c.domRestricted == !("*" <= words[2]) && c.dowRestricted == !("*" <= words[4])
  }

  /** An expression of five words is accepted when each is well formed, and stands for what they say. */
  lemma ReadAsWritten(before: string, words: seq<string>, gaps: seq<string>, after: string)
    requires Apart(words, gaps) && AllSpace(before) && AllSpace(after)
    ensures ValidExpression(before + Spread(words, gaps) + after)
       <==> |words| == 5 && WellFormed(words[0], MINUTE) && WellFormed(words[1], HOUR) && WellFormed(words[2], DAY_OF_MONTH)
            && WellFormed(words[3], MONTH) && WellFormed(words[4], DAY_OF_WEEK)
    ensures forall c :: Denotes(before + Spread(words, gaps) + after, c) <==> |words| == 5 && Says(words, c)
  {
    ExpressionWords(before, words, gaps, after);
  }

  // ------------------------------------------------------------------- values of a word

  lemma NoComma(n: nat)
    ensures ',' !in Decimal(n) && !("*" <= Decimal(n))
  {
    NumberOfDecimal(n);
  }

  /** A star is every value, with Sunday as zero; */
  lemma StarIs(values: set<nat>, field: Field)
    requires CronField(field) && FieldIs(values, "*", field)
    ensures forall v :: v in values <==> field.min <= v <= if field == DAY_OF_WEEK then 6 else field.max
  {
    forall v: nat ensures v in values <==> field.min <= v <= if field == DAY_OF_WEEK then 6 else field.max {
      ListHas("*", "", field, v);
      AllWithin(field, v);
    }
  }

  /** a step keeps the values at a multiple of it from the first; */
  lemma StepIs(values: set<nat>, n: nat, field: Field)
    requires CronField(field) && field != DAY_OF_WEEK && n >= 1 && FieldIs(values, "*/" + Decimal(n), field)
    ensures forall v :: v in values <==> field.min <= v <= field.max && (v - field.min) % n == 0
  {
    NoComma(n);
    forall v: nat ensures v in values <==> field.min <= v <= field.max && (v - field.min) % n == 0 {
      ListHas("*/" + Decimal(n), "", field, v);
      StepHas(n, field, v);
    }
  }

  lemma StepHas(n: nat, field: Field, v: nat)
    requires CronField(field) && field != DAY_OF_WEEK && n >= 1
    ensures PartHas("*/" + Decimal(n), field, v) <==> field.min <= v <= field.max && (v - field.min) % n == 0
  {
    EveryNth(n, field, v);
    assert Counts(v, field, v);
  }

  /** and a number is itself, with both spellings of Sunday as zero. */
  lemma NumberIs(values: set<nat>, n: nat, field: Field)
    requires CronField(field) && field.min <= n <= field.max && FieldIs(values, Decimal(n), field)
    ensures values == {if field == DAY_OF_WEEK && n == 7 then 0 else n}
  {
    NoComma(n);
    forall v: nat ensures v in values <==> v == if field == DAY_OF_WEEK && n == 7 then 0 else n {
      ListHas(Decimal(n), "", field, v);
      OneNumber(n, field, v);
    }
  }

  // -------------------------------------------------------------- calendar and clock

  /** Known days: the epoch was a Thursday, the first of January 2000 a Saturday; 1900 and 2100 are not leap years. */
  lemma KnownDays()
    ensures DayNumber(Date(1970, 1, 1)) == 0 && Weekday(0) == 4
    ensures DayNumber(Date(2000, 1, 1)) == 10957 && Weekday(10957) == 6
    ensures DayNumber(Date(2000, 2, 29)) == 11016 && Weekday(11016) == 2
    ensures DayNumber(Date(2100, 3, 1)) == 47541 && Weekday(47541) == 1
    ensures DayNumber(Date(1900, 1, 1)) == -25567 && Weekday(-25567) == 1
  {
  }

  /** Each day is the next day of the week, and Saturday is followed by Sunday. */
  lemma WeekGoesRound(day: int)
    ensures Weekday(day + 1) == if Weekday(day) == 6 then 0 else Weekday(day) + 1
  {
  }

  /** The first days of the months of 2001, counted from the first of its January. */
  lemma KnownMonths(m: nat)
    requires 1 <= m <= 12
    ensures DayNumber(Date(2001, m, 1)) == 11323 + [0, 31, 59, 90, 120, 151, 181, 212, 243, 273, 304, 334][m - 1]
  {
  }

  lemma HourOfDay(t: int)
    ensures Hour(t) == t % 1440 / 60 && Minute(t) == t % 1440 % 60
  {
    var day, minute := t / 1440, t % 1440;
    assert t == (day * 24) * 60 + minute;
    assert t / 60 == day * 24 + minute / 60;
    InDay(day, minute / 60);
  }

  // ------------------------------------------------------------------------ the rule

  /** A schedule for one minute of the day. */
  predicate Daily(c: Cron, hour: nat, minute: nat) {
    hour < 24 && minute < 60 && c.min == {minute} && c.hour == {hour} && forall m :: 1 <= m <= 12 ==> m in c.mon
  }

  lemma OnceADay(c: Cron, hour: nat, minute: nat, t: int)
    requires Daily(c, hour, minute)
    ensures Matches(c, t) <==> t % 1440 == hour * 60 + minute && DayMatches(c, t / 1440)
  {
    HourOfDay(t);
  }

  /** A date and a weekday, neither with a star: every such date fires, and every such weekday as well; */
  lemma DateOrWeekday(c: Cron, hour: nat, minute: nat, date: nat, weekday: nat, t: int)
    requires Daily(c, hour, minute) && c.domRestricted && c.dowRestricted && c.dom == {date} && c.dow == {weekday}
    ensures Matches(c, t) <==>
      t % 1440 == hour * 60 + minute && (Calendar(t / 1440).date == date || (t / 1440 + 4) % 7 == weekday)
  {
    OnceADay(c, hour, minute, t);
    CalendarIsReal(t / 1440);
  }

  /** with a star in front of one of them, both must agree. */
  lemma BothDays(c: Cron, hour: nat, minute: nat, t: int)
    requires Daily(c, hour, minute) && (!c.domRestricted || !c.dowRestricted)
    ensures Matches(c, t) <==>
      t % 1440 == hour * 60 + minute && Calendar(t / 1440).date in c.dom && (t / 1440 + 4) % 7 in c.dow
  {
    OnceADay(c, hour, minute, t);
    CalendarIsReal(t / 1440);
  }

  /** The months narrow every schedule. */
  lemma OnlyItsMonths(c: Cron, t: int)
    requires Matches(c, t)
    ensures Calendar(t / 1440).month in c.mon && t % 1440 / 60 in c.hour && t % 60 in c.min
  {
    HourOfDay(t);
  }

  /** A step of fifteen in the minutes alone fires every quarter of an hour, */
  lemma EveryQuarter(c: Cron, t: int)
    requires c == EVERY_MINUTE.(min := c.min) && forall m :: m in c.min <==> m <= 59 && m % 15 == 0
    ensures ValidCron(c) && (Matches(c, t) <==> t % 15 == 0)
  {
    EveryMinuteMatches(t);
    QuarterOfHour(t);
  }

  lemma QuarterOfHour(t: int)
    ensures Minute(t) % 15 == t % 15
  {
    var h, m := t / 60, t % 60;
    assert t == (h * 4 + m / 15) * 15 + m % 15;
  }

  /** so that the next run is the next quarter. */
  lemma NextQuarter(c: Cron, start: int, next: Option<int>)
    requires c == EVERY_MINUTE.(min := c.min) && forall m :: m in c.min <==> m <= 59 && m % 15 == 0
    requires !TwoDigitYear(Calendar(DayOf(start))) && FirstMatch(c, ScanFrom(start), ScanEnd(start), next)
    ensures next == Some((start + 14) / 15 * 15)
  {
    var quarter := NextMultiple(start);
    EveryQuarter(c, quarter);
    ScanStarts(start);
    TimeSplits(start);
    if next.Some? { EveryQuarter(c, next.value); }
  }

  lemma NextMultiple(start: int) returns (quarter: int)
    ensures quarter == (start + 14) / 15 * 15 && quarter % 15 == 0 && start <= quarter < start + 15
    ensures forall t :: start <= t < quarter ==> t % 15 != 0
  {
    quarter := (start + 14) / 15 * 15;
  }
}
