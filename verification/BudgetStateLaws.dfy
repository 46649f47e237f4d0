/** When each durable operation succeeds, and what it does to the day's spend and to the history. */
module BudgetStateLaws {
  import opened BudgetDays
  import opened BudgetStateRules
  import opened BudgetStateProofs

  // ------------------------------------------------------------------------ history

  /** The days that no pruning may drop: the protected one and those that hold a reservation. */
  function Needed(days: map<Day, DayRecord>, keep: Day): set<Day> {
    set d | d in days && (d == keep || days[d].reservations != map[])
  }

  lemma FewerDays(a: set<Day>, b: set<Day>)
    requires a <= b
    ensures |a| <= |b|
  {
    assert b == a + (b - a);
  }

  lemma {:induction false} DropOldestFailsIff(days: map<Day, DayRecord>, keep: Day)
    ensures DropOldest(days, keep).None? <==> |Needed(days, keep)| > MAX_STORED_DAYS
    decreases |days|
  {
    FewerDays(Needed(days, keep), days.Keys);
    if |days| > MAX_STORED_DAYS {
      if Droppable(days, keep) == {} {
        forall d | d in days ensures d in Needed(days, keep) {
          assert d !in Droppable(days, keep);
        }
        assert Needed(days, keep) == days.Keys;
      } else {
        var d := TheOldest(Droppable(days, keep));
        Shrinks(days, d);
        DropOldestFailsIff(days - {d}, keep);
        assert Needed(days - {d}, keep) == Needed(days, keep);
      }
    }
  }

  /** Pruning fails exactly when the days that must stay are too many. */
  lemma PruneFailsIff(s: State, keep: Day)
    ensures Prune(s, keep).None? <==> |Needed(s.days, keep)| > MAX_STORED_DAYS
  {
    DropOldestFailsIff(DropQuiet(s.days, keep), keep);
    assert Needed(DropQuiet(s.days, keep), keep) == Needed(s.days, keep);
  }

  lemma {:induction false} DropsJustEnough(days: map<Day, DayRecord>, keep: Day)
    requires DropOldest(days, keep).Some?
    ensures |days| <= MAX_STORED_DAYS ==> DropOldest(days, keep).value == days
    ensures |days| > MAX_STORED_DAYS ==> |DropOldest(days, keep).value| == MAX_STORED_DAYS
    decreases |days|
  {
    if |days| > MAX_STORED_DAYS {
      var d := TheOldest(Droppable(days, keep));
      Shrinks(days, d);
      DropsJustEnough(days - {d}, keep);
    }
  }

  /** The days with something on them, and the protected one. */
  function Busy(days: map<Day, DayRecord>, keep: Day): set<Day> {
    set d | d in days && (d == keep || days[d].settled != 0 || days[d].reservations != map[])
  }

  /** No more is dropped than must be: all busy days stay if they fit, and otherwise as many as fit. */
  lemma PruneDropsJustEnough(s: State, keep: Day)
    requires Prune(s, keep).Some?
    ensures Prune(s, keep).value.days.Keys <= Busy(s.days, keep)
    ensures |Busy(s.days, keep)| <= MAX_STORED_DAYS ==> Prune(s, keep).value.days.Keys == Busy(s.days, keep)
    ensures |Busy(s.days, keep)| > MAX_STORED_DAYS ==> |Prune(s, keep).value.days| == MAX_STORED_DAYS
  {
    var busy := DropQuiet(s.days, keep);
    assert busy.Keys == Busy(s.days, keep);
    assert |busy| == |busy.Keys|;
    DropsJustEnough(busy, keep);
    DropOldestKeeps(busy, keep);
  }

  // ------------------------------------------------------------------ when they succeed

  lemma SmallHistoryIsKept(s: State, keep: Day)
    requires |s.days| <= MAX_STORED_DAYS
    ensures Prune(s, keep).Some?
  {
    FewerDays(Needed(s.days, keep), s.days.Keys);
    PruneFailsIff(s, keep);
  }

  /** A cancel succeeds exactly for a valid ticket that names an active reservation. */
  lemma CancelIff(s: State, t: Ticket)
    requires ValidState(s)
    ensures Cancel(s, t).Ok? <==> ValidTicket(t) && Names(s, t)
  {
    if Names(s, t) {
      assert Finished(s, t, 0).days.Keys == s.days.Keys;
      SmallHistoryIsKept(Finished(s, t, 0), t.day);
    }
  }

  /** A settlement succeeds exactly if besides its cost is within bounds, alone and on its day. */
  lemma SettleIff(s: State, t: Ticket, cost: int)
    requires ValidState(s)
    ensures Settle(s, t, cost).Ok?
       <==> ValidTicket(t) && Names(s, t) && 0 <= cost <= MAX_STORED
            && TodayTotal(s, t.day) - t.reserved + cost <= MAX_STORED
  {
    if Names(s, t) {
      assert Finished(s, t, cost).days.Keys == s.days.Keys;
      SmallHistoryIsKept(Finished(s, t, cost), t.day);
    }
  }

  /** So a cost within what was reserved can always be settled. */
  lemma ReservedCanBeSettled(s: State, t: Ticket, cost: int)
    requires ValidState(s) && ValidTicket(t) && Names(s, t) && 0 <= cost <= t.reserved
    ensures Settle(s, t, cost).Ok?
  {
    assert ValidRecord(s.days[t.day]);
    SettleIff(s, t, cost);
  }

  ghost function Holding(s: State): set<Day> {
    set d | d in s.days && s.days[d].reservations != map[]
  }

  /** A reservation succeeds exactly if its name is free, the counts allow one more, and so does the day's total. */
  lemma ReserveIff(s: State, t: Ticket)
    requires ValidState(s)
    ensures Reserve(s, t).Ok?
       <==> ValidTicket(t) && !ActiveSomewhere(s, t.id) && Count(s.days) < MAX_ACTIVE_RESERVATIONS
            && TodayTotal(s, t.day) + t.reserved <= MAX_STORED && |Holding(s) + {t.day}| <= MAX_STORED_DAYS
  {
    NothingHeld();
    var r := RecordAt(s, t.day);
    var r' := r.(reservations := r.reservations[t.id := Stored(t.id, t.runId, t.reserved)]);
    var s' := s.(days := s.days[t.day := r']);
    PruneFailsIff(s', t.day);
    NeededAfterPut(s, t.day, r');
  }

  lemma NeededAfterPut(s: State, day: Day, r: DayRecord)
    ensures Needed(s.days[day := r], day) == Holding(s) + {day}
  {
  }

  lemma NothingHeld()
    ensures RecordTotal(DayRecord(0, map[])) == 0
  {
    var none: map<string, Stored> := map[];
    assert none.Keys == {};
  }

  // -------------------------------------------------------------------- what they do

  /** Each operation moves the spend of its day by exactly its amounts, */
  lemma ReserveAdds(s: State, t: Ticket)
    requires ValidState(s) && Reserve(s, t).Ok?
    ensures TodayTotal(Reserve(s, t).state, t.day) == TodayTotal(s, t.day) + t.reserved
    ensures Names(Reserve(s, t).state, t)
  {
    NothingHeld();
    var r, item := RecordAt(s, t.day), Stored(t.id, t.runId, t.reserved);
    AmountAdded(r.reservations, item);
    PruneKeeps(s.(days := s.days[t.day := r.(reservations := r.reservations[t.id := item])]), t.day);
  }

  lemma SettleReplaces(s: State, t: Ticket, cost: int)
    requires ValidState(s) && Settle(s, t, cost).Ok?
    ensures TodayTotal(Settle(s, t, cost).state, t.day) == TodayTotal(s, t.day) - t.reserved + cost
    ensures !ActiveSomewhere(Settle(s, t, cost).state, t.id)
  {
    AmountRemoved(s.days[t.day].reservations, t.id);
    PruneKeeps(Finished(s, t, cost), t.day);
    GoneEverywhere(s, t, cost);
  }

  lemma CancelTakesBack(s: State, t: Ticket)
    requires ValidState(s) && Cancel(s, t).Ok?
    ensures TodayTotal(Cancel(s, t).state, t.day) == TodayTotal(s, t.day) - t.reserved
    ensures !ActiveSomewhere(Cancel(s, t).state, t.id)
  {
    AmountRemoved(s.days[t.day].reservations, t.id);
    PruneKeeps(Finished(s, t, 0), t.day);
    GoneEverywhere(s, t, 0);
  }

  lemma GoneEverywhere(s: State, t: Ticket, cost: int)
    requires ValidState(s) && Names(s, t) && Prune(Finished(s, t, cost), t.day).Some?
    ensures !ActiveSomewhere(Prune(Finished(s, t, cost), t.day).value, t.id)
  {
    PruneKeeps(Finished(s, t, cost), t.day);
    var s' := Prune(Finished(s, t, cost), t.day).value;
    forall d | d in s'.days ensures t.id !in s'.days[d].reservations {
      assert d != t.day ==> s'.days[d] == s.days[d];
      assert t.id in s.days[t.day].reservations;
    }
  }

  /** and the spend of every other day stays, unless the day is dropped, which no day with a reservation is. */
  lemma OtherDaysStay(s: State, op: Op, d: Day)
    requires ValidState(s) && Apply(s, op).Ok? && (op.DoSetLimits? || d != op.t.day)
    ensures d in Apply(s, op).state.days ==> TodayTotal(Apply(s, op).state, d) == TodayTotal(s, d)
    ensures d in s.days && s.days[d].reservations != map[] ==> d in Apply(s, op).state.days
    ensures d !in s.days ==> d !in Apply(s, op).state.days
  {
    match op
    case DoReserve(t) =>
      ReserveKeepsOthers(s, t, d);
    case DoSettle(t, cost) =>
      OthersKept(s, t.day, Finished(s, t, cost).days[t.day], d);
    case DoCancel(t) =>
      OthersKept(s, t.day, Finished(s, t, 0).days[t.day], d);
    case DoSetLimits(_) =>
  }

  lemma ReserveKeepsOthers(s: State, t: Ticket, d: Day)
    requires Reserve(s, t).Ok? && d != t.day
    ensures var days := Reserve(s, t).state.days;
      && (d in days ==> d in s.days && days[d] == s.days[d])
      && (d in s.days && s.days[d].reservations != map[] ==> d in days)
  {
    var r := RecordAt(s, t.day);
    OthersKept(s, t.day, r.(reservations := r.reservations[t.id := Stored(t.id, t.runId, t.reserved)]), d);
  }

  lemma OthersKept(s: State, day: Day, r: DayRecord, d: Day)
    requires d != day && Prune(s.(days := s.days[day := r]), day).Some?
    ensures var days := Prune(s.(days := s.days[day := r]), day).value.days;
      && (d in days ==> d in s.days && days[d] == s.days[d])
      && (d in s.days && s.days[d].reservations != map[] ==> d in days)
  {
    PruneKeeps(s.(days := s.days[day := r]), day);
  }

  /** Only setting the limits changes them, and it takes any from a cent up to the largest. */
  lemma LimitsAreSet(s: State, op: Op)
    requires Apply(s, op).Ok?
    ensures Apply(s, op).state.limits == if op.DoSetLimits? then op.l else s.limits
  {
    match op
    case DoReserve(t) =>
      var r := RecordAt(s, t.day);
      PruneKeeps(s.(days := s.days[t.day := r.(reservations := r.reservations[t.id := Stored(t.id, t.runId, t.reserved)])]), t.day);
    case DoSettle(t, cost) =>
      PruneKeeps(Finished(s, t, cost), t.day);
    case DoCancel(t) =>
      PruneKeeps(Finished(s, t, 0), t.day);
    case DoSetLimits(_) =>
  }

  lemma LimitsIff(s: State, l: Limits)
    ensures SetLimits(s, l).Ok? <==> 1_000_000 <= l.perRun <= 10_000_000_000 && 1_000_000 <= l.perDay <= 100_000_000_000
  {
  }
}
