/**
 The ledger with its hooks wired to the durable state. Each hook is a durable
 operation that takes its whole effect before the ledger's own; the process may
 crash between any two steps, which loses the ledger and keeps the disk. Because
 the code between a hook and the ledger update is synchronous, a crash between
 them is the same as the whole step followed by a crash.

 `incurred` is what the provider really charged against each reservation still
 active on disk, and `finished` what it charged for reservations already closed.
 */
module SpendRuns {
  import opened Prelude
  import opened Decimals
  import opened Sums
  import opened BudgetDays
  import opened BudgetRules
  import opened BudgetRuns
  import Disk = BudgetStateRules
  import DiskProofs = BudgetStateProofs

  // ---------------------------------------------------------- reservation names

  /** The durable name of a reservation: the run id, a colon, and the serial number. */
  function Name(id: ReservationId): string {
    id.runId + ":" + Decimal(id.serial)
  }

  lemma NameInjective(a: ReservationId, b: ReservationId)
    requires Name(a) == Name(b)
    ensures a == b
  {
    NumberOfDecimal(a.serial);
    NumberOfDecimal(b.serial);
    assert Name(a)[|a.runId|] == ':' && Name(b)[|b.runId|] == ':';
    forall i | |a.runId| < i < |Name(a)| ensures Name(a)[i] != ':' {
      assert Name(a)[i] == Decimal(a.serial)[i - |a.runId| - 1];
    }
    forall i | |b.runId| < i < |Name(b)| ensures Name(b)[i] != ':' {
      assert Name(b)[i] == Decimal(b.serial)[i - |b.runId| - 1];
    }
    assert |a.runId| == |b.runId|;
    assert a.runId == Name(a)[..|a.runId|] && b.runId == Name(b)[..|b.runId|];
    assert Decimal(a.serial) == Name(a)[|a.runId| + 1..] && Decimal(b.serial) == Name(b)[|b.runId| + 1..];
    DecimalInjective(a.serial, b.serial);
  }

  function TicketOf(r: Reservation): Disk.Ticket {
    Disk.Ticket(Name(r.id), r.id.runId, r.day, r.reserved)
  }

  function StoredOf(r: Reservation): Disk.Stored {
    Disk.Stored(Name(r.id), r.id.runId, r.reserved)
  }

  // -------------------------------------------------------------------- system

  type Key = (Day, string)

  datatype Sys = Sys(
    books: Books,
    disk: Disk.State,
    incurred: map<Key, nat>,
    finished: map<Day, nat>,
    lost: set<Day>)

  datatype Step =
    | Local(op: Op)
    | Reserve(key: RunKey, today: Day, input: nat, request: real, readable: bool, writable: bool)
    | Send(day: Day, id: string, cost: nat)
    | Settle(key: RunKey, r: Reservation, usage: Usage, writable: bool)
    | Cancel(key: RunKey, r: Reservation, writable: bool)
    | Crash

  ghost const Fresh := Sys(NewBooks, Disk.EmptyState, map[], map[], {})

  ghost function Incurred(s: Sys, d: Day, id: string): nat {
    if (d, id) in s.incurred then s.incurred[(d, id)] else 0
  }


  /** What the durable state answers when the ledger first asks for a day and the file can be read. */
  ghost function BaseRead(s: Sys, d: Day): Option<nat> {
    if ValidDay(d) && Disk.TodayTotal(s.disk, d) >= 0 then Some(Disk.TodayTotal(s.disk, d)) else None
  }

  /** What the ledger gets when it asks: nothing when the file cannot be read. */
  ghost function BaseSeen(s: Sys, st: Step): Option<nat>
    requires st.Reserve? && st.key in s.books.runs
  {
    if st.readable then BaseRead(s, s.books.runs[st.key].day) else None
  }

  /** The reservation a reserve call would build, whatever its hook answers. */
  ghost function Built(s: Sys, st: Step): Option<Reservation>
    requires st.Reserve? && st.key in s.books.runs
  {
    var run := s.books.runs[st.key];
    var o := BudgetRules.Reserve(s.books.ledger, run, st.today, BaseSeen(s, st), st.input, st.request, true);
    if o.result.Reserved? then Some(o.result.reservation) else None
  }

  ghost function HookOutcome(s: Sys, st: Step): Disk.Outcome
    requires st.Reserve? ==> st.key in s.books.runs && Built(s, st).Some?
    requires st.Reserve? || st.Settle? || st.Cancel?
  {
    match st
    case Reserve(_, _, _, _, _, _) => Disk.Reserve(s.disk, TicketOf(Built(s, st).value))
    case Settle(_, r, usage, _) => Disk.Settle(s.disk, TicketOf(r), CostOf(usage))
    case Cancel(_, r, _) => Disk.Cancel(s.disk, TicketOf(r))
  }

  ghost predicate HookOk(s: Sys, st: Step)
    requires st.Reserve? ==> st.key in s.books.runs
    requires st.Reserve? || st.Settle? || st.Cancel?
  {
    st.writable && (st.Reserve? ==> Built(s, st).Some?) && HookOutcome(s, st).Ok?
  }

  /** The ledger's own step, with the hook's verdict filled in. */
  ghost function LedgerOp(s: Sys, st: Step): Op
    requires st.Reserve? ==> st.key in s.books.runs
    requires st.Reserve? || st.Settle? || st.Cancel?
  {
    match st
    case Reserve(k, today, input, request, _, _) =>
      DoReserve(k, today, BaseSeen(s, st), input, request, HookOk(s, st))
    case Settle(k, r, usage, _) => DoSettle(k, r, usage, HookOk(s, st))
    case Cancel(k, r, _) => DoCancel(k, r, HookOk(s, st))
  }

  ghost predicate LiveIn(s: Sys, k: RunKey, r: Reservation) {
    k in s.books.runs && IsLive(s.books.runs[k], r) && !s.books.runs[k].closed
  }

  /**
   The relay's side of the bargain: a request is sent only under an active
   reservation and costs at most its worst case; a settlement covers what was
   incurred; a cancel names a request that never reached the provider.
   */
  ghost predicate EnabledStep(s: Sys, st: Step) {
    match st
    case Local(op) => (op.Begin? || op.DoClose?) && Enabled(s.books, op)
    case Reserve(k, _, _, _, _, _) => k in s.books.runs
    case Send(d, id, cost) =>
      d in s.disk.days && id in s.disk.days[d].reservations && (d, id) !in s.incurred
      && cost <= s.disk.days[d].reservations[id].reserved
    case Settle(k, r, usage, _) => LiveIn(s, k, r) && Incurred(s, r.day, Name(r.id)) <= CostOf(usage)
    case Cancel(k, r, _) => LiveIn(s, k, r) && (r.day, Name(r.id)) !in s.incurred
    case Crash => true
  }

  /** Days with spend that a write dropped from the history. */
  ghost function Dropped(before: Disk.State, after: Disk.State): set<Day> {
    set d | d in before.days && d !in after.days && before.days[d].settled != 0
  }

  ghost function NextSys(s: Sys, st: Step): Sys
    requires EnabledStep(s, st)
  {
    match st
    case Local(op) => s.(books := Next(s.books, op))
    case Reserve(k, _, _, _, _, _) =>
      var books := Next(s.books, LedgerOp(s, st));
      if HookOk(s, st)
      then s.(books := books, disk := HookOutcome(s, st).state, lost := s.lost + Dropped(s.disk, HookOutcome(s, st).state))
      else s.(books := books)
    case Send(d, id, cost) => s.(incurred := s.incurred[(d, id) := cost])
    case Settle(k, r, usage, _) =>
      var books := Next(s.books, LedgerOp(s, st));
      if HookOk(s, st)
      then Sys(books, HookOutcome(s, st).state, s.incurred - {(r.day, Name(r.id))},
               s.finished[r.day := At(s.finished, r.day) + Incurred(s, r.day, Name(r.id))],
               s.lost + Dropped(s.disk, HookOutcome(s, st).state))
      else s.(books := books)
    case Cancel(k, r, _) =>
      var books := Next(s.books, LedgerOp(s, st));
      if HookOk(s, st)
      then s.(books := books, disk := HookOutcome(s, st).state, lost := s.lost + Dropped(s.disk, HookOutcome(s, st).state))
      else s.(books := books)
    case Crash => s.(books := NewBooks)
  }

  // ----------------------------------------------------------------- invariants

  /** Every reservation live in memory is active on disk, exactly as granted. */
  ghost predicate LiveIsDurable(s: Sys) {
    AllDurable(s.books.runs, s.disk)
  }

  /** Until a day is dropped from the history, disk and ledger agree on its total. */
  ghost predicate Agree(l: Ledger, disk: Disk.State, lost: set<Day>) {
    forall d :: d in l.base && d !in lost ==> DayTotal(l, d) == Disk.TodayTotal(disk, d)
  }

  ghost predicate TotalsAgree(s: Sys) {
    Agree(s.books.ledger, s.disk, s.lost)
  }

  ghost predicate IncurredCovered(s: Sys) {
    forall key :: key in s.incurred ==>
      key.0 in s.disk.days && key.1 in s.disk.days[key.0].reservations
      && s.incurred[key] <= s.disk.days[key.0].reservations[key.1].reserved
  }

  ghost predicate FinishedCovered(s: Sys) {
    forall d :: d !in s.lost ==> At(s.finished, d) <= Disk.RecordAt(s.disk, d).settled
  }

  ghost predicate SysInv(s: Sys) {
    && BudgetRuns.Inv(s.books) && Disk.ValidState(s.disk)
    && LiveIsDurable(s) && TotalsAgree(s) && IncurredCovered(s) && FinishedCovered(s)
  }

  // -------------------------------------------------- what one durable write does

  lemma DiskPut(s: Disk.State, d: Day, r: Disk.DayRecord)
    requires Disk.Prune(s.(days := s.days[d := r]), d).Some?
    ensures var s' := Disk.Prune(s.(days := s.days[d := r]), d).value;
      && d in s'.days && d !in Dropped(s, s')
      && forall e :: e !in Dropped(s, s') ==>
           && Disk.TodayTotal(s', e) == (if e == d then Disk.RecordTotal(r) else Disk.TodayTotal(s, e))
           && Disk.RecordAt(s', e).settled == (if e == d then r.settled else Disk.RecordAt(s, e).settled)
  {
    DiskProofs.PruneKeeps(s.(days := s.days[d := r]), d);
    assert Disk.HeldOn(map[]) == 0;
  }

  /** A durable write moves one day's total and settled spend, and no other day that it keeps. */
  ghost predicate Moves(s: Disk.State, s': Disk.State, d: Day, total: int, settled: int) {
    && d !in Dropped(s, s')
    && forall e :: e !in Dropped(s, s') ==>
         && Disk.TodayTotal(s', e) == Disk.TodayTotal(s, e) + (if e == d then total else 0)
         && Disk.RecordAt(s', e).settled == Disk.RecordAt(s, e).settled + (if e == d then settled else 0)
  }

  lemma ReserveMoves(s: Disk.State, t: Disk.Ticket)
    requires Disk.Reserve(s, t).Ok?
    ensures Moves(s, Disk.Reserve(s, t).state, t.day, t.reserved, 0)
  {
    var r := Disk.RecordAt(s, t.day);
    var item := Disk.Stored(t.id, t.runId, t.reserved);
    assert t.day in s.days && t.id in r.reservations ==> Disk.ActiveSomewhere(s, t.id);
    DiskProofs.AmountAdded(r.reservations, item);
    assert t.day !in s.days ==> Disk.HeldOn(map[]) == 0;
    DiskPut(s, t.day, r.(reservations := r.reservations[t.id := item]));
  }

  lemma FinishMoves(s: Disk.State, t: Disk.Ticket, cost: int)
    requires Disk.Names(s, t) && Disk.Prune(Disk.Finished(s, t, cost), t.day).Some?
    ensures Moves(s, Disk.Prune(Disk.Finished(s, t, cost), t.day).value, t.day, cost - t.reserved, cost)
  {
    var r := s.days[t.day];
    DiskProofs.AmountRemoved(r.reservations, t.id);
    DiskPut(s, t.day, Disk.Finished(s, t, cost).days[t.day]);
  }

  lemma HookMoves(s: Sys, st: Step)
    requires EnabledStep(s, st) && (st.Reserve? || st.Settle? || st.Cancel?) && HookOk(s, st)
    ensures var t := if st.Reserve? then TicketOf(Built(s, st).value) else TicketOf(st.r);
      var cost := if st.Settle? then CostOf(st.usage) else 0;
      Moves(s.disk, HookOutcome(s, st).state, t.day, if st.Reserve? then t.reserved else cost - t.reserved, cost)
  {
    match st
    case Reserve(_, _, _, _, _, _) => ReserveMoves(s.disk, TicketOf(Built(s, st).value));
    case Settle(_, r, usage, _) => FinishMoves(s.disk, TicketOf(r), CostOf(usage));
    case Cancel(_, r, _) => FinishMoves(s.disk, TicketOf(r), 0);
  }

  function DiskOp(s: Sys, st: Step): DiskProofs.Op
    requires st.Settle? || st.Cancel?
  {
    match st
    case Settle(_, r, usage, _) => DiskProofs.DoSettle(TicketOf(r), CostOf(usage))
    case Cancel(_, r, _) => DiskProofs.DoCancel(TicketOf(r))
  }

  ghost function HookOp(s: Sys, st: Step): DiskProofs.Op
    requires EnabledStep(s, st) && (st.Reserve? || st.Settle? || st.Cancel?) && HookOk(s, st)
  {
    if st.Reserve? then DiskProofs.DoReserve(TicketOf(Built(s, st).value)) else DiskOp(s, st)
  }

  /** After a hook, everything active before is still active, except what the step names. */
  lemma HookKeepsActive(s: Sys, st: Step, d: Day, id: string, item: Disk.Stored)
    requires EnabledStep(s, st) && (st.Reserve? || st.Settle? || st.Cancel?) && HookOk(s, st)
    requires DiskProofs.Active(s.disk, d, id, item)
    ensures DiskProofs.Active(HookOutcome(s, st).state, d, id, item)
       <==> st.Reserve? || !DiskProofs.NamedBy(TicketOf(st.r), d, id, item)
  {
    DiskProofs.ReservationsNeverVanish(s.disk, HookOp(s, st), d, id, item);
  }

  lemma HookWritesValid(s: Sys, st: Step)
    requires SysInv(s) && EnabledStep(s, st) && (st.Reserve? || st.Settle? || st.Cancel?) && HookOk(s, st)
    ensures Disk.ValidState(HookOutcome(s, st).state)
  {
    DiskProofs.EveryWriteIsValid(s.disk, HookOp(s, st));
  }

  // ---------------------------------------------------------------- the ledger side

  /** The ledger admits exactly the reservation its hook was shown. */
  lemma ReserveStep(s: Sys, st: Step)
    requires EnabledStep(s, st) && st.Reserve?
    ensures var op := LedgerOp(s, st);
      if HookOk(s, st) then Admits(s.books, st.key, Next(s.books, op), Built(s, st).value)
      else Idles(s.books, st.key, Next(s.books, op))
    ensures forall d :: d in Next(s.books, LedgerOp(s, st)).ledger.base && d !in s.books.ledger.base ==>
      BaseRead(s, d) == Some(Next(s.books, LedgerOp(s, st)).ledger.base[d])
  {
    ReserveEffect(s.books, LedgerOp(s, st));
  }

  lemma FinishStep(s: Sys, st: Step)
    requires EnabledStep(s, st) && (st.Settle? || st.Cancel?)
    ensures var op := LedgerOp(s, st);
      if HookOk(s, st) then Finishes(s.books, st.key, Next(s.books, op), st.r, if st.Settle? then CostOf(st.usage) else 0)
      else Next(s.books, op) == s.books
  {
    FinishEffect(s.books, LedgerOp(s, st));
    if !HookOk(s, st) {
      assert s.books.runs[st.key := s.books.runs[st.key]] == s.books.runs;
    }
  }

  // ------------------------------------------------------------- one step at a time

  /** A day first opened in this step starts from what the disk says. */
  ghost predicate OpensFromDisk(b: Books, b': Books, disk: Disk.State) {
    forall d :: d in b'.ledger.base && d !in b.ledger.base ==> b'.ledger.base[d] == Disk.TodayTotal(disk, d)
  }

  lemma IdleAgrees(b: Books, k: RunKey, b': Books, disk: Disk.State, lost: set<Day>)
    requires BudgetRuns.Inv(b) && Idles(b, k, b') && OpensFromDisk(b, b', disk)
    requires Agree(b.ledger, disk, lost)
    ensures Agree(b'.ledger, disk, lost)
  {
    forall d | d in b'.ledger.base && d !in lost ensures DayTotal(b'.ledger, d) == Disk.TodayTotal(disk, d) {
      if d !in b.ledger.base {
        NothingHeld(b, d);
      }
    }
  }

  lemma AdmitAgrees(b: Books, k: RunKey, b': Books, r: Reservation, disk: Disk.State, disk': Disk.State, lost: set<Day>)
    requires BudgetRuns.Inv(b) && Admits(b, k, b', r) && OpensFromDisk(b, b', disk)
    requires Agree(b.ledger, disk, lost) && Moves(disk, disk', r.day, r.reserved, 0)
    ensures Agree(b'.ledger, disk', lost + Dropped(disk, disk'))
  {
    var idle := Books(b'.ledger.(held := b.ledger.held), b.runs);
    IdleAgrees(b, k, idle, disk, lost);
    forall d | d in b'.ledger.base && d !in lost + Dropped(disk, disk')
      ensures DayTotal(b'.ledger, d) == Disk.TodayTotal(disk', d)
    {
      assert DayTotal(idle.ledger, d) == Disk.TodayTotal(disk, d);
    }
  }

  lemma FinishAgrees(b: Books, k: RunKey, b': Books, r: Reservation, cost: nat,
                     disk: Disk.State, disk': Disk.State, lost: set<Day>)
    requires BudgetRuns.Inv(b) && Finishes(b, k, b', r, cost) && r.day == b.runs[k].day
    requires Agree(b.ledger, disk, lost) && Moves(disk, disk', r.day, cost - r.reserved, cost)
    ensures Agree(b'.ledger, disk', lost + Dropped(disk, disk'))
  {
    ClampNeverActs(b, k, r);
    forall d | d in b'.ledger.base && d !in lost + Dropped(disk, disk')
      ensures DayTotal(b'.ledger, d) == Disk.TodayTotal(disk', d)
    {
      assert DayTotal(b.ledger, d) == Disk.TodayTotal(disk, d);
    }
  }

  lemma ReserveKeepsTotals(s: Sys, st: Step)
    requires SysInv(s) && EnabledStep(s, st) && st.Reserve?
    ensures TotalsAgree(NextSys(s, st))
  {
    ReserveStep(s, st);
    var b' := Next(s.books, LedgerOp(s, st));
    assert OpensFromDisk(s.books, b', s.disk);
    if HookOk(s, st) {
      HookMoves(s, st);
      AdmitAgrees(s.books, st.key, b', Built(s, st).value, s.disk, HookOutcome(s, st).state, s.lost);
    } else {
      IdleAgrees(s.books, st.key, b', s.disk, s.lost);
    }
  }

  lemma FinishKeepsTotals(s: Sys, st: Step)
    requires SysInv(s) && EnabledStep(s, st) && (st.Settle? || st.Cancel?)
    ensures TotalsAgree(NextSys(s, st))
  {
    FinishStep(s, st);
    if HookOk(s, st) {
      HookMoves(s, st);
      assert RunSane(s.books.runs[st.key], s.books.ledger.nextSerial);
      FinishAgrees(s.books, st.key, Next(s.books, LedgerOp(s, st)), st.r, if st.Settle? then CostOf(st.usage) else 0,
                   s.disk, HookOutcome(s, st).state, s.lost);
    }
  }

  lemma ReserveActivates(s: Disk.State, t: Disk.Ticket)
    requires Disk.Reserve(s, t).Ok?
    ensures DiskProofs.Active(Disk.Reserve(s, t).state, t.day, t.id, Disk.Stored(t.id, t.runId, t.reserved))
  {
    var r := Disk.RecordAt(s, t.day);
    var r' := r.(reservations := r.reservations[t.id := Disk.Stored(t.id, t.runId, t.reserved)]);
    DiskProofs.PruneKeeps(s.(days := s.days[t.day := r']), t.day);
  }

  ghost predicate AllDurable(runs: map<RunKey, Run>, disk: Disk.State) {
    forall k, id :: k in runs && id in runs[k].live ==>
      DiskProofs.Active(disk, runs[k].live[id].day, Name(id), StoredOf(runs[k].live[id]))
  }

  lemma AdmitKeepsDurable(b: Books, k: RunKey, b': Books, r: Reservation, disk': Disk.State)
    requires Admits(b, k, b', r) && AllDurable(b.runs, disk')
    requires DiskProofs.Active(disk', r.day, Name(r.id), StoredOf(r))
    ensures AllDurable(b'.runs, disk')
  {
  }

  lemma ReserveKeepsLive(s: Sys, st: Step)
    requires SysInv(s) && EnabledStep(s, st) && st.Reserve?
    ensures LiveIsDurable(NextSys(s, st))
  {
    ReserveStep(s, st);
    var b' := Next(s.books, LedgerOp(s, st));
    if HookOk(s, st) {
      var disk' := HookOutcome(s, st).state;
      ReserveActivates(s.disk, TicketOf(Built(s, st).value));
      forall k, id | k in s.books.runs && id in s.books.runs[k].live
        ensures DiskProofs.Active(disk', s.books.runs[k].live[id].day, Name(id), StoredOf(s.books.runs[k].live[id]))
      {
        HookKeepsActive(s, st, s.books.runs[k].live[id].day, Name(id), StoredOf(s.books.runs[k].live[id]));
      }
      AdmitKeepsDurable(s.books, st.key, b', Built(s, st).value, disk');
    } else {
      assert b'.runs == s.books.runs;
    }
  }

  /** Finishing one reservation leaves every other live one active on disk. */
  lemma FinishKeepsOther(s: Sys, st: Step, k: RunKey, id: ReservationId)
    requires SysInv(s) && EnabledStep(s, st) && (st.Settle? || st.Cancel?) && HookOk(s, st)
    requires k in s.books.runs && id in s.books.runs[k].live && !(k == st.key && id == st.r.id)
    ensures var item := s.books.runs[k].live[id];
      DiskProofs.Active(HookOutcome(s, st).state, item.day, Name(id), StoredOf(item))
  {
    var item := s.books.runs[k].live[id];
    HookKeepsActive(s, st, item.day, Name(id), StoredOf(item));
    if Name(id) == Name(st.r.id) {
      NameInjective(id, st.r.id);
    }
  }

  lemma FinishKeepsDurable(b: Books, k: RunKey, b': Books, r: Reservation, cost: nat, disk': Disk.State)
    requires Finishes(b, k, b', r, cost)
    requires forall k', id :: k' in b.runs && id in b.runs[k'].live && !(k' == k && id == r.id) ==>
      DiskProofs.Active(disk', b.runs[k'].live[id].day, Name(id), StoredOf(b.runs[k'].live[id]))
    ensures AllDurable(b'.runs, disk')
  {
  }

  lemma FinishKeepsLive(s: Sys, st: Step)
    requires SysInv(s) && EnabledStep(s, st) && (st.Settle? || st.Cancel?)
    ensures LiveIsDurable(NextSys(s, st))
  {
    FinishStep(s, st);
    if HookOk(s, st) {
      forall k, id | k in s.books.runs && id in s.books.runs[k].live && !(k == st.key && id == st.r.id)
        ensures DiskProofs.Active(HookOutcome(s, st).state, s.books.runs[k].live[id].day, Name(id),
                                  StoredOf(s.books.runs[k].live[id]))
      {
        FinishKeepsOther(s, st, k, id);
      }
      FinishKeepsDurable(s.books, st.key, Next(s.books, LedgerOp(s, st)), st.r,
                         if st.Settle? then CostOf(st.usage) else 0, HookOutcome(s, st).state);
    }
  }

  /** An active reservation that is not the one being finished keeps covering its cost. */
  lemma HookKeepsIncurred(s: Sys, st: Step, key: Key)
    requires SysInv(s) && EnabledStep(s, st) && (st.Reserve? || st.Settle? || st.Cancel?) && HookOk(s, st)
    requires key in NextSys(s, st).incurred
    ensures var disk := NextSys(s, st).disk;
      key.0 in disk.days && key.1 in disk.days[key.0].reservations
      && NextSys(s, st).incurred[key] <= disk.days[key.0].reservations[key.1].reserved
  {
    HookKeepsActive(s, st, key.0, key.1, s.disk.days[key.0].reservations[key.1]);
  }

  lemma HookKeepsFinished(s: Sys, st: Step)
    requires SysInv(s) && EnabledStep(s, st) && (st.Reserve? || st.Settle? || st.Cancel?) && HookOk(s, st)
    ensures FinishedCovered(NextSys(s, st))
  {
    HookMoves(s, st);
    var s' := NextSys(s, st);
    forall d | d !in s'.lost ensures At(s'.finished, d) <= Disk.RecordAt(s'.disk, d).settled {
      assert At(s.finished, d) <= Disk.RecordAt(s.disk, d).settled;
    }
  }

  lemma HookKeepsInv(s: Sys, st: Step)
    requires SysInv(s) && EnabledStep(s, st) && (st.Reserve? || st.Settle? || st.Cancel?)
    ensures SysInv(NextSys(s, st))
  {
    StepKeepsInv(s.books, LedgerOp(s, st));
    if st.Reserve? {
      ReserveKeepsTotals(s, st);
      ReserveKeepsLive(s, st);
    } else {
      FinishKeepsTotals(s, st);
      FinishKeepsLive(s, st);
    }
    if HookOk(s, st) {
      HookWritesValid(s, st);
      HookKeepsFinished(s, st);
      forall key | key in NextSys(s, st).incurred
        ensures key.0 in NextSys(s, st).disk.days && key.1 in NextSys(s, st).disk.days[key.0].reservations
          && NextSys(s, st).incurred[key] <= NextSys(s, st).disk.days[key.0].reservations[key.1].reserved
      {
        HookKeepsIncurred(s, st, key);
      }
    }
  }

  lemma LocalKeepsSysInv(s: Sys, op: Op)
    requires SysInv(s) && EnabledStep(s, Local(op))
    ensures SysInv(NextSys(s, Local(op)))
  {
    var b' := Next(s.books, op);
    BeginKeepsInv(s.books, op);
    BeginKeepsLimits(s.books, op);
    SameLiveDurable(s.books, b', s.disk);
    assert Agree(b'.ledger, s.disk, s.lost);
  }

  /** Runs with no other live reservations than before need no more of the disk. */
  lemma SameLiveDurable(b: Books, b': Books, disk: Disk.State)
    requires AllDurable(b.runs, disk)
    requires forall k :: k in b'.runs ==> b'.runs[k].live == map[] || (k in b.runs && b'.runs[k].live == b.runs[k].live)
    ensures AllDurable(b'.runs, disk)
  {
  }

  lemma StepKeepsSysInv(s: Sys, st: Step)
    requires SysInv(s) && EnabledStep(s, st)
    ensures SysInv(NextSys(s, st))
  {
    match st
    case Local(op) => LocalKeepsSysInv(s, op);
    case Reserve(_, _, _, _, _, _) => HookKeepsInv(s, st);
    case Settle(_, _, _, _) => HookKeepsInv(s, st);
    case Cancel(_, _, _) => HookKeepsInv(s, st);
    case Send(_, _, _) =>
    case Crash => NewBooksInv();
  }

  // ------------------------------------------------------------- over whole runs

  ghost function ExecSys(steps: seq<Step>): Option<Sys> {
    if steps == [] then Some(Fresh)
    else
      var before := ExecSys(steps[..|steps| - 1]);
      if before.None? || !EnabledStep(before.value, steps[|steps| - 1]) then None
      else Some(NextSys(before.value, steps[|steps| - 1]))
  }

  lemma {:induction false} SysInvAlways(steps: seq<Step>)
    requires ExecSys(steps).Some?
    ensures SysInv(ExecSys(steps).value)
  {
    if steps == [] {
      NewBooksInv();
      assert Disk.Count(map[]) == 0;
    } else {
      SysInvAlways(steps[..|steps| - 1]);
      StepKeepsSysInv(ExecSys(steps[..|steps| - 1]).value, steps[|steps| - 1]);
    }
  }

  /**
   After any run with any number of crashes, the durable total of a day the ledger
   has opened equals its base plus settled plus reserved, until the day is dropped.
   */
  lemma DurableEqualsLedger(steps: seq<Step>, d: Day)
    requires ExecSys(steps).Some?
    ensures var s := ExecSys(steps).value;
      d in s.books.ledger.base && d !in s.lost ==>
        Disk.TodayTotal(s.disk, d) == At(s.books.ledger.base, d) + At(s.books.ledger.settled, d) + At(s.books.ledger.held, d)
  {
    SysInvAlways(steps);
  }

  /** Everything the provider has charged on a day: for closed requests and for ones still open. */
  ghost function ProviderTotal(s: Sys, d: Day): int {
    At(s.finished, d)
    + if d in s.disk.days then Sum(s.disk.days[d].reservations.Keys, id => Incurred(s, d, id)) else 0
  }

  /**
   At any point of any run, and so also right after a crash, the durable total that
   a new ledger would start from is no smaller than what the provider has charged.
   */
  lemma NewLedgerStartsAboveSpend(steps: seq<Step>, d: Day)
    requires ExecSys(steps).Some? && d !in ExecSys(steps).value.lost
    ensures var s := ExecSys(steps).value;
      ProviderTotal(s, d) <= Disk.TodayTotal(s.disk, d)
    ensures var s := ExecSys(steps).value;
      ValidDay(d) ==> BaseRead(s, d) == Some(Disk.TodayTotal(s.disk, d)) && BaseRead(NextSys(s, Crash), d) == BaseRead(s, d)
  {
    SysInvAlways(steps);
    DiskCoversProvider(ExecSys(steps).value, d);
  }

  lemma DiskCoversProvider(s: Sys, d: Day)
    requires SysInv(s) && d !in s.lost
    ensures ProviderTotal(s, d) <= Disk.TodayTotal(s.disk, d)
    ensures ValidDay(d) ==> BaseRead(s, d) == Some(Disk.TodayTotal(s.disk, d)) && BaseRead(NextSys(s, Crash), d) == BaseRead(s, d)
  {
    assert At(s.finished, d) <= Disk.RecordAt(s.disk, d).settled;
    if d in s.disk.days {
      var m := s.disk.days[d].reservations;
      assert Disk.ValidRecord(s.disk.days[d]);
      forall id | id in m.Keys ensures Incurred(s, d, id) <= Disk.Amount(m, id) {
        assert (d, id) in s.incurred ==> s.incurred[(d, id)] <= m[id].reserved;
        assert Disk.ValidStored(m[id]);
      }
      Monotone(m.Keys, id => Incurred(s, d, id), id => Disk.Amount(m, id));
      NonNegative(m.Keys, id => Incurred(s, d, id));
    }
  }
}
