/**
 Any interleaving of reserve, settle, cancel, begin and close over any number of
 concurrent runs that share one ledger.
 */
module BudgetRuns {
  import opened Prelude
  import opened Sums
  import opened BudgetDays
  import opened BudgetRules

  type RunKey = nat

  datatype Books = Books(ledger: Ledger, runs: map<RunKey, Run>)

  datatype Op =
    | Begin(key: RunKey, id: string, runLimit: int, dayLimit: int, day: Day)
    | DoReserve(key: RunKey, today: Day, durable: Option<nat>, input: nat, request: real, hookOk: bool)
    | DoSettle(key: RunKey, reservation: Reservation, usage: Usage, hookOk: bool)
    | DoCancel(key: RunKey, reservation: Reservation, hookOk: bool)
    | DoClose(key: RunKey)

  const NewBooks := Books(Ledger(map[], map[], map[], {}, 1), map[])

  predicate Enabled(b: Books, op: Op) {
    if op.Begin? then op.key !in b.runs else op.key in b.runs
  }

  /** Opening a run validates its id and limits; a run id is active at most once. */
  function BeginRun(l: Ledger, id: string, runLimit: int, dayLimit: int, day: Day): Option<(Ledger, Run)> {
    if id == "" || id in l.activeRunIds || runLimit <= 0 || dayLimit <= 0 then None
    else Some((l.(activeRunIds := l.activeRunIds + {id}), Run(id, runLimit, dayLimit, day, map[], 0, false)))
  }

  function CloseRun(l: Ledger, run: Run): (Ledger, Run) {
    if run.closed || run.live != map[] then (l, run)
    else (l.(activeRunIds := l.activeRunIds - {run.id}), run.(closed := true))
  }

  ghost function Next(b: Books, op: Op): Books
    requires Enabled(b, op)
  {
    match op
    case Begin(k, id, runLimit, dayLimit, day) =>
      var o := BeginRun(b.ledger, id, runLimit, dayLimit, day);
      if o.None? then b else Books(o.value.0, b.runs[k := o.value.1])
    case DoReserve(k, today, durable, input, request, hookOk) =>
      var o := Reserve(b.ledger, b.runs[k], today, durable, input, request, hookOk);
      Books(o.ledger, b.runs[k := o.run])
    case DoSettle(k, r, usage, hookOk) =>
      var o := Settle(b.ledger, b.runs[k], r, usage, hookOk);
      Books(o.ledger, b.runs[k := o.run])
    case DoCancel(k, r, hookOk) =>
      var o := Cancel(b.ledger, b.runs[k], r, hookOk);
      Books(o.ledger, b.runs[k := o.run])
    case DoClose(k) =>
      var o := CloseRun(b.ledger, b.runs[k]);
      Books(o.0, b.runs[k := o.1])
  }

  /** The provider reported no more than the reservation allowed. */
  predicate Bounded(op: Op) {
    op.DoSettle? ==> WithinBounds(op.usage, op.reservation)
  }

  // ----------------------------------------------------------------- invariants

  ghost function RunHeldOn(runs: map<RunKey, Run>, k: RunKey, d: Day): int {
    if k in runs && runs[k].day == d then RunHeld(runs[k]) else 0
  }

  /** All live reservations of a day, over every run. */
  ghost function DayHeld(runs: map<RunKey, Run>, d: Day): int {
    Sum(runs.Keys, k => RunHeldOn(runs, k, d))
  }

  ghost predicate RunSane(run: Run, nextSerial: nat) {
    forall id :: id in run.live ==>
      && run.live[id].id == id && id.serial < nextSerial
      && run.live[id].day == run.day
      && run.live[id].reserved == WorstCase(run.live[id].inputBound, run.live[id].maxOutput)
      && run.live[id].maxOutput >= 1
  }

  ghost predicate RunsSane(b: Books) {
    forall k :: k in b.runs ==> RunSane(b.runs[k], b.ledger.nextSerial)
  }

  ghost predicate SerialsDistinct(b: Books) {
    forall k, j, id :: k in b.runs && j in b.runs && id in b.runs[k].live && id in b.runs[j].live ==> k == j
  }

  /** The day total the ledger keeps is exactly the sum of the live reservations. */
  ghost predicate HeldExact(b: Books) {
    forall d :: At(b.ledger.held, d) == DayHeld(b.runs, d)
  }

  ghost predicate BaseFirst(b: Books) {
    && (forall d :: d !in b.ledger.base ==> At(b.ledger.settled, d) == 0)
    && (forall k :: k in b.runs && b.runs[k].live != map[] ==> b.runs[k].day in b.ledger.base)
  }

  /** Holds for any provider usage, bounded or not. */
  ghost predicate Inv(b: Books) {
    RunsSane(b) && SerialsDistinct(b) && HeldExact(b) && BaseFirst(b)
  }

  ghost predicate RunWithinLimit(run: Run) {
    run.settled + RunHeld(run) <= run.runLimit
  }

  ghost predicate DayWithinLimit(b: Books, d: Day) {
    || DayTotal(b.ledger, d) <= At(b.ledger.base, d)
    || exists k :: k in b.runs && b.runs[k].day == d && DayTotal(b.ledger, d) <= b.runs[k].dayLimit
  }

  ghost predicate Ceilings(b: Books) {
    && (forall k :: k in b.runs ==> RunWithinLimit(b.runs[k]))
    && (forall d :: DayWithinLimit(b, d))
  }

  // ------------------------------------------------------------- sums that move

  lemma RunHeldNonNegative(run: Run)
    ensures 0 <= RunHeld(run)
  {
    NonNegative(run.live.Keys, id => Held(run.live, id));
  }

  lemma RunHeldAdd(run: Run, r: Reservation)
    requires r.id !in run.live
    ensures RunHeld(run.(live := run.live[r.id := r])) == RunHeld(run) + r.reserved
  {
    var live' := run.live[r.id := r];
    Pick(live'.Keys, id => Held(live', id), r.id);
    assert live'.Keys - {r.id} == run.live.Keys;
    Same(run.live.Keys, id => Held(live', id), id => Held(run.live, id));
  }

  lemma RunHeldRemove(run: Run, r: Reservation)
    requires IsLive(run, r)
    ensures RunHeld(run.(live := run.live - {r.id})) == RunHeld(run) - r.reserved
  {
    var live' := run.live - {r.id};
    Pick(run.live.Keys, id => Held(run.live, id), r.id);
    assert live'.Keys == run.live.Keys - {r.id};
    Same(live'.Keys, id => Held(live', id), id => Held(run.live, id));
  }

  lemma DayHeldReplace(runs: map<RunKey, Run>, k: RunKey, run: Run, d: Day)
    requires k in runs && run.day == runs[k].day
    ensures DayHeld(runs[k := run], d)
         == DayHeld(runs, d) + if run.day == d then RunHeld(run) - RunHeld(runs[k]) else 0
  {
    var runs' := runs[k := run];
    assert runs'.Keys == runs.Keys;
    Change(runs.Keys, j => RunHeldOn(runs, j, d), j => RunHeldOn(runs', j, d), k);
  }

  lemma DayHeldNew(runs: map<RunKey, Run>, k: RunKey, run: Run, d: Day)
    requires k !in runs && run.live == map[]
    ensures DayHeld(runs[k := run], d) == DayHeld(runs, d)
  {
    var runs' := runs[k := run];
    Pick(runs'.Keys, j => RunHeldOn(runs', j, d), k);
    assert runs'.Keys - {k} == runs.Keys;
    Same(runs.Keys, j => RunHeldOn(runs, j, d), j => RunHeldOn(runs', j, d));
  }

  /** Releasing a live reservation never drives the day total below zero, so its clamp never acts. */
  lemma ClampNeverActs(b: Books, k: RunKey, r: Reservation)
    requires Inv(b) && k in b.runs && IsLive(b.runs[k], r)
    ensures r.reserved <= RunHeld(b.runs[k]) <= At(b.ledger.held, b.runs[k].day)
  {
    var run := b.runs[k];
    AtLeast(run.live.Keys, id => Held(run.live, id), r.id);
    forall j | j in b.runs ensures 0 <= RunHeldOn(b.runs, j, run.day) {
      RunHeldNonNegative(b.runs[j]);
    }
    AtLeast(b.runs.Keys, j => RunHeldOn(b.runs, j, run.day), k);
  }

  // -------------------------------------------------------- one step at a time

  lemma BeginKeepsInv(b: Books, op: Op)
    requires Inv(b) && Enabled(b, op) && (op.Begin? || op.DoClose?)
    ensures Inv(Next(b, op))
    ensures forall d :: DayTotal(Next(b, op).ledger, d) == DayTotal(b.ledger, d)
  {
    BeginKeepsHeld(b, op);
    BeginKeepsRuns(b, op);
  }

  lemma BeginKeepsRuns(b: Books, op: Op)
    requires RunsSane(b) && SerialsDistinct(b) && Enabled(b, op) && (op.Begin? || op.DoClose?)
    ensures RunsSane(Next(b, op)) && SerialsDistinct(Next(b, op))
  {
    var b' := Next(b, op);
    forall k | k in b'.runs ensures RunSane(b'.runs[k], b'.ledger.nextSerial) {
      assert k in b.runs ==> RunSane(b.runs[k], b.ledger.nextSerial);
    }
    assert forall k, id :: k in b'.runs && id in b'.runs[k].live ==> k in b.runs && id in b.runs[k].live;
  }

  lemma BeginKeepsHeld(b: Books, op: Op)
    requires HeldExact(b) && Enabled(b, op) && (op.Begin? || op.DoClose?)
    ensures HeldExact(Next(b, op))
  {
    var b' := Next(b, op);
    forall d ensures At(b'.ledger.held, d) == DayHeld(b'.runs, d) {
      assert At(b.ledger.held, d) == DayHeld(b.runs, d);
      if op.key in b'.runs {
        if op.Begin? {
          DayHeldNew(b.runs, op.key, b'.runs[op.key], d);
        } else {
          DayHeldReplace(b.runs, op.key, b'.runs[op.key], d);
        }
      }
    }
  }

  /** The day's durable spend may have been read; nothing else moved. */
  ghost predicate Idles(b: Books, k: RunKey, b': Books) {
    && k in b.runs
    && b'.runs == b.runs
    && b'.ledger.settled == b.ledger.settled && b'.ledger.held == b.ledger.held
    && b'.ledger.nextSerial >= b.ledger.nextSerial
    && b.ledger.base.Keys <= b'.ledger.base.Keys
    && (forall d :: d in b.ledger.base ==> b'.ledger.base[d] == b.ledger.base[d])
    && (forall d :: d in b'.ledger.base && d !in b.ledger.base ==> d == b.runs[k].day)
  }

  /** A reservation joined run k and its day. */
  ghost predicate Admits(b: Books, k: RunKey, b': Books, r: Reservation) {
    && Idles(b, k, b'.(runs := b.runs, ledger := b'.ledger.(held := b.ledger.held)))
    && b'.runs == b.runs[k := b.runs[k].(live := b.runs[k].live[r.id := r])]
    && r.day == b.runs[k].day && r.day in b'.ledger.base
    && r.id == ReservationId(b.runs[k].id, b.ledger.nextSerial) && b'.ledger.nextSerial == b.ledger.nextSerial + 1
    && r.reserved == WorstCase(r.inputBound, r.maxOutput) && r.maxOutput >= 1
    && b'.ledger.held == Shift(b.ledger.held, r.day, r.reserved)
  }

  /** A live reservation left run k, replaced by its cost (zero for a cancel). */
  ghost predicate Finishes(b: Books, k: RunKey, b': Books, r: Reservation, cost: nat) {
    && k in b.runs && IsLive(b.runs[k], r)
    && b'.runs == b.runs[k := b.runs[k].(live := b.runs[k].live - {r.id}, settled := b.runs[k].settled + cost)]
    && b'.ledger.base == b.ledger.base && b'.ledger.nextSerial == b.ledger.nextSerial
    && b'.ledger.held == Shift(b.ledger.held, b.runs[k].day, -(r.reserved as int))
    && (forall d :: At(b'.ledger.settled, d) == At(b.ledger.settled, d) + if d == b.runs[k].day then cost else 0)
  }

  lemma ReserveEffect(b: Books, op: Op)
    requires Enabled(b, op) && op.DoReserve?
    ensures var o := Reserve(b.ledger, b.runs[op.key], op.today, op.durable, op.input, op.request, op.hookOk);
      if o.result.Reserved? then Admits(b, op.key, Next(b, op), o.result.reservation) else Idles(b, op.key, Next(b, op))
  {
    var o := Reserve(b.ledger, b.runs[op.key], op.today, op.durable, op.input, op.request, op.hookOk);
    if !o.result.Reserved? {
      assert o.run == b.runs[op.key];
      assert b.runs[op.key := o.run] == b.runs;
    }
  }

  lemma FinishEffect(b: Books, op: Op)
    requires Enabled(b, op) && (op.DoSettle? || op.DoCancel?)
    ensures Next(b, op) == b
      || Finishes(b, op.key, Next(b, op), op.reservation, if op.DoSettle? then CostOf(op.usage) else 0)
  {
    var run := b.runs[op.key];
    if run.closed || !IsLive(run, op.reservation) || !op.hookOk {
      assert b.runs[op.key := run] == b.runs;
    }
  }

  lemma AdmitKeepsInv(b: Books, k: RunKey, b': Books, r: Reservation)
    requires Inv(b) && Admits(b, k, b', r)
    ensures Inv(b')
  {
    FreshSerial(b, k, r);
    AdmitKeepsHeld(b, k, b', r);
    AdmitKeepsRuns(b, k, b', r);
    AdmitKeepsSerials(b, k, b', r);
    AdmitKeepsBase(b, k, b', r);
  }

  /** No live reservation has the next serial number. */
  lemma FreshSerial(b: Books, k: RunKey, r: Reservation)
    requires RunsSane(b) && k in b.runs && r.id.serial == b.ledger.nextSerial
    ensures forall j :: j in b.runs ==> r.id !in b.runs[j].live
  {
    forall j | j in b.runs ensures r.id !in b.runs[j].live {
      assert RunSane(b.runs[j], b.ledger.nextSerial);
    }
  }

  lemma AdmitKeepsRuns(b: Books, k: RunKey, b': Books, r: Reservation)
    requires RunsSane(b) && Admits(b, k, b', r)
    ensures RunsSane(b')
  {
    forall j | j in b'.runs ensures RunSane(b'.runs[j], b'.ledger.nextSerial) {
      assert RunSane(b.runs[j], b.ledger.nextSerial);
    }
  }

  lemma AdmitKeepsSerials(b: Books, k: RunKey, b': Books, r: Reservation)
    requires SerialsDistinct(b) && Admits(b, k, b', r) && forall j :: j in b.runs ==> r.id !in b.runs[j].live
    ensures SerialsDistinct(b')
  {
  }

  lemma AdmitKeepsBase(b: Books, k: RunKey, b': Books, r: Reservation)
    requires BaseFirst(b) && Admits(b, k, b', r)
    ensures BaseFirst(b')
  {
  }

  lemma AdmitKeepsHeld(b: Books, k: RunKey, b': Books, r: Reservation)
    requires HeldExact(b) && Admits(b, k, b', r) && r.id !in b.runs[k].live
    ensures HeldExact(b')
  {
    RunHeldAdd(b.runs[k], r);
    forall d ensures At(b'.ledger.held, d) == DayHeld(b'.runs, d) {
      assert At(b.ledger.held, d) == DayHeld(b.runs, d);
      DayHeldReplace(b.runs, k, b'.runs[k], d);
    }
  }

  lemma IdleKeepsInv(b: Books, k: RunKey, b': Books)
    requires Inv(b) && Idles(b, k, b')
    ensures Inv(b')
  {
  }

  lemma FinishKeepsInv(b: Books, k: RunKey, b': Books, r: Reservation, cost: nat)
    requires Inv(b) && Finishes(b, k, b', r, cost)
    ensures Inv(b')
  {
    FinishKeepsRuns(b, k, b', r, cost);
    FinishKeepsHeld(b, k, b', r, cost);
    FinishKeepsBase(b, k, b', r, cost);
  }

  lemma FinishKeepsRuns(b: Books, k: RunKey, b': Books, r: Reservation, cost: nat)
    requires RunsSane(b) && SerialsDistinct(b) && Finishes(b, k, b', r, cost)
    ensures RunsSane(b') && SerialsDistinct(b')
  {
    forall j | j in b'.runs ensures RunSane(b'.runs[j], b'.ledger.nextSerial) {
      assert RunSane(b.runs[j], b.ledger.nextSerial);
    }
  }

  lemma FinishKeepsHeld(b: Books, k: RunKey, b': Books, r: Reservation, cost: nat)
    requires Inv(b) && Finishes(b, k, b', r, cost)
    ensures HeldExact(b')
  {
    RemovedHeld(b, k, b', r, cost);
    ClampNeverActs(b, k, r);
    forall d ensures At(b'.ledger.held, d) == DayHeld(b'.runs, d) {
      assert At(b.ledger.held, d) == DayHeld(b.runs, d);
      DayHeldReplace(b.runs, k, b'.runs[k], d);
    }
  }

  lemma FinishKeepsBase(b: Books, k: RunKey, b': Books, r: Reservation, cost: nat)
    requires BaseFirst(b) && Finishes(b, k, b', r, cost)
    ensures BaseFirst(b')
  {
    assert b.runs[k].live != map[];
  }

  lemma RemovedHeld(b: Books, k: RunKey, b': Books, r: Reservation, cost: nat)
    requires Finishes(b, k, b', r, cost)
    ensures RunHeld(b'.runs[k]) == RunHeld(b.runs[k]) - r.reserved
  {
    RunHeldRemove(b.runs[k], r);
    assert b'.runs[k].live == b.runs[k].(live := b.runs[k].live - {r.id}).live;
  }

  lemma StepKeepsInv(b: Books, op: Op)
    requires Inv(b) && Enabled(b, op)
    ensures Inv(Next(b, op))
  {
    match op
    case Begin(_, _, _, _, _) => BeginKeepsInv(b, op);
    case DoClose(_) => BeginKeepsInv(b, op);
    case DoReserve(_, _, _, _, _, _) =>
      var o := Reserve(b.ledger, b.runs[op.key], op.today, op.durable, op.input, op.request, op.hookOk);
      ReserveEffect(b, op);
      if o.result.Reserved? {
        AdmitKeepsInv(b, op.key, Next(b, op), o.result.reservation);
      } else {
        IdleKeepsInv(b, op.key, Next(b, op));
      }
    case DoSettle(k, r, usage, _) =>
      FinishEffect(b, op);
      if Next(b, op) != b { FinishKeepsInv(b, k, Next(b, op), r, CostOf(usage)); }
    case DoCancel(k, r, _) =>
      FinishEffect(b, op);
      if Next(b, op) != b { FinishKeepsInv(b, k, Next(b, op), r, 0); }
  }

  lemma CostMonotone(u: Usage, r: Reservation)
    requires WithinBounds(u, r)
    ensures CostOf(u) <= WorstCase(r.inputBound, r.maxOutput)
  {
  }

  /** Another day, or the same day with no larger total, keeps its ceiling. */
  lemma DayKeepsLimit(b: Books, b': Books, d: Day)
    requires DayWithinLimit(b, d)
    requires DayTotal(b'.ledger, d) <= DayTotal(b.ledger, d) && At(b'.ledger.base, d) == At(b.ledger.base, d)
    requires forall k :: k in b.runs ==> k in b'.runs && b'.runs[k].day == b.runs[k].day && b'.runs[k].dayLimit == b.runs[k].dayLimit
    ensures DayWithinLimit(b', d)
  {
    if DayTotal(b.ledger, d) > At(b.ledger.base, d) {
      var k :| k in b.runs && b.runs[k].day == d && DayTotal(b.ledger, d) <= b.runs[k].dayLimit;
      assert b'.runs[k].day == d && b'.runs[k].dayLimit == b.runs[k].dayLimit;
    }
  }

  lemma IdleKeepsCeilings(b: Books, k: RunKey, b': Books)
    requires Inv(b) && Ceilings(b) && Idles(b, k, b')
    ensures Ceilings(b')
  {
    forall d ensures DayWithinLimit(b', d) {
      assert DayWithinLimit(b, d);
      if d in b.ledger.base || d !in b'.ledger.base {
        DayKeepsLimit(b, b', d);
      } else {
        NothingHeld(b, d);
      }
    }
  }

  lemma AdmitKeepsCeilings(b: Books, k: RunKey, b': Books, r: Reservation)
    requires Inv(b) && Ceilings(b) && Admits(b, k, b', r)
    requires b.runs[k].settled + RunHeld(b.runs[k]) + r.reserved <= b.runs[k].runLimit
    requires At(b'.ledger.base, r.day) + At(b.ledger.settled, r.day) + At(b.ledger.held, r.day) + r.reserved <= b.runs[k].dayLimit
    ensures Ceilings(b')
  {
    RunHeldAdd(b.runs[k], r);
    forall d ensures DayWithinLimit(b', d) {
      assert DayWithinLimit(b, d);
      if d == r.day {
        assert b'.runs[k].day == d && DayTotal(b'.ledger, d) <= b'.runs[k].dayLimit;
      } else {
        DayKeepsLimit(b, b', d);
      }
    }
  }

  /** Before a day's base is read, nothing is held on it. */
  lemma NothingHeld(b: Books, d: Day)
    requires Inv(b) && d !in b.ledger.base
    ensures At(b.ledger.held, d) == 0
  {
    forall k | k in b.runs ensures RunHeldOn(b.runs, k, d) == 0 {
      if b.runs[k].day == d {
        assert b.runs[k].live == map[];
      }
    }
    Same(b.runs.Keys, k => RunHeldOn(b.runs, k, d), k => 0);
    AllZero(b.runs.Keys);
  }

  lemma {:induction false} AllZero(keys: set<RunKey>)
    ensures Sum(keys, k => 0) == 0
    decreases |keys|
  {
    if keys != {} {
      var k :| k in keys;
      Pick(keys, k => 0, k);
      AllZero(keys - {k});
    }
  }

  lemma FinishKeepsCeilings(b: Books, k: RunKey, b': Books, r: Reservation, cost: nat)
    requires Inv(b) && Ceilings(b) && Finishes(b, k, b', r, cost) && cost <= r.reserved
    ensures Ceilings(b')
  {
    RemovedHeld(b, k, b', r, cost);
    ClampNeverActs(b, k, r);
    forall d ensures DayWithinLimit(b', d) {
      assert DayWithinLimit(b, d);
      DayKeepsLimit(b, b', d);
    }
  }

  /** Opening or closing a run moves no money and no limit; a run starts with nothing. */
  lemma BeginKeepsLimits(b: Books, op: Op)
    requires Enabled(b, op) && (op.Begin? || op.DoClose?)
    ensures Next(b, op).ledger.base == b.ledger.base
    ensures forall k :: k in b.runs ==> k in Next(b, op).runs && Next(b, op).runs[k] == b.runs[k].(closed := Next(b, op).runs[k].closed)
    ensures forall k :: k in Next(b, op).runs && k !in b.runs ==> Next(b, op).runs[k].live == map[] && Next(b, op).runs[k].settled == 0
  {
  }

  lemma BeginKeepsCeilings(b: Books, op: Op)
    requires Inv(b) && Ceilings(b) && Enabled(b, op) && (op.Begin? || op.DoClose?)
    ensures Ceilings(Next(b, op))
  {
    var b' := Next(b, op);
    BeginKeepsInv(b, op);
    BeginKeepsLimits(b, op);
    forall d ensures DayWithinLimit(b', d) {
      assert DayWithinLimit(b, d);
      DayKeepsLimit(b, b', d);
    }
    forall k | k in b'.runs ensures RunWithinLimit(b'.runs[k]) {
      assert k in b.runs ==> RunWithinLimit(b.runs[k]) && RunHeld(b'.runs[k]) == RunHeld(b.runs[k]);
    }
  }

  lemma StepKeepsCeilings(b: Books, op: Op)
    requires Inv(b) && Ceilings(b) && Enabled(b, op) && Bounded(op)
    ensures Ceilings(Next(b, op))
  {
    match op
    case Begin(_, _, _, _, _) => BeginKeepsCeilings(b, op);
    case DoClose(_) => BeginKeepsCeilings(b, op);
    case DoReserve(_, _, _, _, _, _) =>
      var o := Reserve(b.ledger, b.runs[op.key], op.today, op.durable, op.input, op.request, op.hookOk);
      ReserveEffect(b, op);
      if o.result.Reserved? {
        GrantFitsBothCeilings(b.ledger, b.runs[op.key], op.today, op.durable, op.input, op.request, op.hookOk);
        AdmitKeepsCeilings(b, op.key, Next(b, op), o.result.reservation);
      } else {
        IdleKeepsCeilings(b, op.key, Next(b, op));
      }
    case DoSettle(k, r, usage, _) =>
      FinishEffect(b, op);
      if Next(b, op) != b {
        CostMonotone(usage, r);
        assert RunSane(b.runs[k], b.ledger.nextSerial);
        FinishKeepsCeilings(b, k, Next(b, op), r, CostOf(usage));
      }
    case DoCancel(k, r, _) =>
      FinishEffect(b, op);
      if Next(b, op) != b { FinishKeepsCeilings(b, k, Next(b, op), r, 0); }
  }

  // ------------------------------------------------------------ over whole runs

  ghost function Exec(ops: seq<Op>): Option<Books> {
    if ops == [] then Some(NewBooks)
    else
      var before := Exec(ops[..|ops| - 1]);
      if before.None? || !Enabled(before.value, ops[|ops| - 1]) then None
      else Some(Next(before.value, ops[|ops| - 1]))
  }

  lemma NewBooksInv()
    ensures Inv(NewBooks) && Ceilings(NewBooks)
  {
  }

  /** After any interleaving at all, the day totals are exactly the live reservations. */
  lemma {:induction false} LedgerIsExact(ops: seq<Op>)
    requires Exec(ops).Some?
    ensures Inv(Exec(ops).value)
  {
    if ops == [] {
      NewBooksInv();
    } else {
      LedgerIsExact(ops[..|ops| - 1]);
      StepKeepsInv(Exec(ops[..|ops| - 1]).value, ops[|ops| - 1]);
    }
  }

  /**
   With usage inside the reserved bounds, after any interleaving no run exceeds its
   limit and no day exceeds the larger of its starting spend and a limit in use that day.
   */
  lemma {:induction false} SpendingStaysUnderCeilings(ops: seq<Op>)
    requires Exec(ops).Some?
    requires forall i :: 0 <= i < |ops| ==> Bounded(ops[i])
    ensures Ceilings(Exec(ops).value)
  {
    if ops == [] {
      NewBooksInv();
    } else {
      var before := ops[..|ops| - 1];
      var op := ops[|ops| - 1];
      SpendingStaysUnderCeilings(before);
      LedgerIsExact(before);
      StepKeepsCeilings(Exec(before).value, op);
    }
  }
}
