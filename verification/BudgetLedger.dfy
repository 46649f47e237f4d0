/**
 The in-memory ledger and its runs as objects, proved against `BudgetRules`.
 A hook is the parameter `hookOk`: it either took its whole effect or threw with none.
 */
module BudgetLedgers {
  import opened Prelude
  import opened Sums
  import opened BudgetDays
  import opened BudgetRules
  import BudgetRuns

  /** The conservative input bound: one token per encoded byte, and 16 per message. */
  method PromptTokenUpperBound(messages: seq<Message>) returns (bytes: nat)
    ensures bytes == PromptBound(messages)
  {
    bytes := 0;
    for i := 0 to |messages|
      invariant bytes == PromptBound(messages[..i])
    {
      assert messages[..i + 1][..i] == messages[..i];
      bytes := bytes + messages[i].roleBytes + messages[i].contentBytes + 16;
    }
    assert messages[..|messages|] == messages;
  }

  /** The total held by a run is the sum of any function that agrees with its reservations. */
  lemma RunHeldIs(run: Run, f: ReservationId -> int)
    requires forall i :: i in run.live ==> f(i) == Held(run.live, i)
    ensures RunHeld(run) == Sum(run.live.Keys, f)
  {
    Same(run.live.Keys, f, i => Held(run.live, i));
  }

  class BudgetLedger {
    var base: map<Day, nat>
    var settled: map<Day, nat>
    var held: map<Day, nat>
    var activeRunIds: set<string>
    var nextSerial: nat

    constructor ()
      ensures View() == BudgetRuns.NewBooks.ledger
    {
      base, settled, held := map[], map[], map[];
      activeRunIds := {};
      nextSerial := 1;
    }

    ghost function View(): Ledger
      reads this
    {
      Ledger(base, settled, held, activeRunIds, nextSerial)
    }

    method BaseFor(day: Day, durable: Option<nat>) returns (value: Option<nat>)
      modifies this`base
      ensures var l := WithBase(old(View()), day, durable);
        if l.None? then value.None? && View() == old(View())
        else View() == l.value && value == Some(At(base, day))
    {
      if day !in base {
        if durable.None? { return None; }
        base := base[day := durable.value];
      }
      value := Some(base[day]);
    }

    method ChangeDayReservation(day: Day, delta: int)
      modifies this`held
      ensures held == Shift(old(held), day, delta)
    {
      var next := (if day in held then held[day] else 0) + delta;
      if next < 0 { next := 0; }
      if next == 0 { held := held - {day}; } else { held := held[day := next]; }
    }

    method BeginRun(id: string, runLimit: int, dayLimit: int, day: Day) returns (run: BudgetRun?)
      modifies this`activeRunIds
      ensures var o := BudgetRuns.BeginRun(old(View()), id, runLimit, dayLimit, day);
        if o.None? then run == null && View() == old(View())
        else run != null && fresh(run) && run.ledger == this && View() == o.value.0 && run.View() == o.value.1
    {
      if id == "" || id in activeRunIds || runLimit <= 0 || dayLimit <= 0 { return null; }
      run := new BudgetRun(this, id, runLimit, dayLimit, day);
      activeRunIds := activeRunIds + {id};
    }
  }

  class BudgetRun {
    const ledger: BudgetLedger
    const id: string
    const runLimit: nat
    const dayLimit: nat
    const day: Day
    var live: map<ReservationId, Reservation>
    var settled: nat
    var closed: bool

    constructor (ledger: BudgetLedger, id: string, runLimit: nat, dayLimit: nat, day: Day)
      ensures this.ledger == ledger
      ensures View() == Run(id, runLimit, dayLimit, day, map[], 0, false)
    {
      this.ledger := ledger;
      this.id, this.runLimit, this.dayLimit, this.day := id, runLimit, dayLimit, day;
      live, settled, closed := map[], 0, false;
    }

    ghost function View(): Run
      reads this
    {
      Run(id, runLimit, dayLimit, day, live, settled, closed)
    }

    /** Add up the live reservations. */
    method ReservedNow() returns (total: nat)
      ensures total == RunHeld(View())
    {
      var now := live;
      total := 0;
      ghost var f := (i: ReservationId) => Held(now, i);
      var left := now.Keys;
      while left != {}
        invariant left <= now.Keys
        invariant total == Sum(now.Keys - left, f)
        decreases left
      {
        var i :| i in left;
        Pick(now.Keys - (left - {i}), f, i);
        assert now.Keys - (left - {i}) - {i} == now.Keys - left;
        total := total + now[i].reserved;
        left := left - {i};
      }
      assert now.Keys - left == now.Keys;
      RunHeldIs(View(), f);
    }

    /** What is left of both ceilings for one more request, and which of them binds. */
    method Headroom(durable: Option<nat>) returns (left: Option<(nat, Scope)>)
      modifies ledger`base
      ensures var l := WithBase(old(ledger.View()), day, durable);
        if l.None? then left.None? && ledger.View() == old(ledger.View())
        else ledger.View() == l.value && left == Some((Available(l.value, View()), LimitingScope(l.value, View())))
    {
      var runReserved := ReservedNow();
      var availableRun := Max0(runLimit - settled - runReserved);
      var dayBase := ledger.BaseFor(day, durable);
      if dayBase.None? { return None; }
      var usedDay := dayBase.value + At(ledger.settled, day) + At(ledger.held, day);
      var availableDay := Max0(dayLimit - usedDay);
      left := Some(if availableRun <= availableDay then (availableRun, PerRun) else (availableDay, Daily));
    }

    method Reserve(today: Day, durable: Option<nat>, messages: seq<Message>, request: real, hookOk: bool)
      returns (r: ReserveResult)
      modifies this`live, ledger
      ensures ReserveOutcome(ledger.View(), View(), r)
           == BudgetRules.Reserve(old(ledger.View()), old(View()), today, durable, PromptBound(messages), request, hookOk)
    {
      if closed { return RunClosed; }
      if today != day { return DayRollover; }
      var left := Headroom(durable);
      if left.None? { return BaseUnavailable; }
      var (available, limitingScope) := left.value;
      var input := PromptTokenUpperBound(messages);
      r := ReserveWithin(available, limitingScope, input, request, hookOk);
    }

    /** The largest affordable output within what is left. */
    method ReserveWithin(available: nat, limitingScope: Scope, input: nat, request: real, hookOk: bool) returns (r: ReserveResult)
      requires available == Available(ledger.View(), View()) && limitingScope == LimitingScope(ledger.View(), View())
      modifies this`live, ledger`held, ledger`nextSerial
      ensures ReserveOutcome(ledger.View(), View(), r) == ReserveFrom(old(ledger.View()), old(View()), input, request, hookOk)
    {
      if available < WorstCase(input, 0) + WorstCase(0, 1) { return NoBudget(limitingScope); }
      var output := Min(Requested(request), (available - WorstCase(input, 0)) / OUTPUT_RATE);
      if output < 1 { return NoBudget(limitingScope); }
      r := Admit(Reservation(ReservationId(id, ledger.nextSerial), day, output, input, WorstCase(input, output)), hookOk);
    }

    /** Write ahead, then put the reservation in the run and in its day's total. */
    method Admit(reservation: Reservation, hookOk: bool) returns (r: ReserveResult)
      modifies this`live, ledger`held, ledger`nextSerial
      ensures ledger.nextSerial == old(ledger.nextSerial) + 1
      ensures r == if hookOk then Reserved(reservation) else HookFailed
      ensures live == if hookOk then old(live)[reservation.id := reservation] else old(live)
      ensures ledger.held == if hookOk then Shift(old(ledger.held), day, reservation.reserved) else old(ledger.held)
    {
      ledger.nextSerial := ledger.nextSerial + 1;
      if !hookOk { return HookFailed; }
      live := live[reservation.id := reservation];
      ledger.ChangeDayReservation(day, reservation.reserved);
      r := Reserved(reservation);
    }

    method Settle(reservation: Reservation, usage: Usage, hookOk: bool) returns (r: SettleResult)
      modifies this, ledger
      ensures SettleOutcome(ledger.View(), View(), r)
           == BudgetRules.Settle(old(ledger.View()), old(View()), reservation, usage, hookOk)
    {
      if closed { return NotOpen; }
      if reservation.id !in live || live[reservation.id] != reservation { return NotActive; }
      var cost := CostOf(usage);
      if !hookOk { return HookRefused; }
      live := live - {reservation.id};
      ledger.ChangeDayReservation(day, -(reservation.reserved as int));
      settled := settled + cost;
      ledger.settled := ledger.settled[day := At(ledger.settled, day) + cost];
      r := Settled(cost, cost > reservation.reserved, settled > runLimit,
                   At(ledger.base, day) + At(ledger.settled, day) > dayLimit);
    }

    method Cancel(reservation: Reservation, hookOk: bool) returns (r: SettleResult)
      modifies this`live, ledger`held
      ensures SettleOutcome(ledger.View(), View(), r)
           == BudgetRules.Cancel(old(ledger.View()), old(View()), reservation, hookOk)
    {
      if closed { return NotOpen; }
      if reservation.id !in live || live[reservation.id] != reservation { return NotActive; }
      if !hookOk { return HookRefused; }
      live := live - {reservation.id};
      ledger.ChangeDayReservation(day, -(reservation.reserved as int));
      r := Cancelled;
    }

    method Close()
      modifies this`closed, ledger`activeRunIds
      ensures (ledger.View(), View()) == BudgetRuns.CloseRun(old(ledger.View()), old(View()))
    {
      if !closed && live == map[] {
        closed := true;
        ledger.activeRunIds := ledger.activeRunIds - {id};
      }
    }
  }
}
