/**
 The relay over the ledger whose hooks write to disk. Each budget call that a relay step
 makes is a durable step; other runs of the same ledger go on in between. The only
 assumption is about the provider: it charges a started request no more than its worst
 case, and no more than the usage it reports.
 */
module RelaySpend {
  import opened Prelude
  import opened BudgetDays
  import opened BudgetRules
  import opened RelayBudgetRules
  import Books = BudgetRuns
  import Disk = BudgetStateRules
  import DiskProofs = BudgetStateProofs
  import Relays = RelayRuns
  import Spend = SpendRuns

  datatype World = World(relay: Relays.Relay, sys: Spend.Sys)

  /** `cost` is what the provider will have charged if the step starts a request. */
  datatype Step =
    | OfRelay(st: Relays.Step, cost: nat, readable: bool, writable: bool)
    | OfOthers(other: Spend.Step)

  function KeyOf(r: Reservation): Spend.Key {
    (r.day, Spend.Name(r.id))
  }

  // ------------------------------------------------- the durable step of a relay step

  /** The call with which the step finalizes its request, unless that has been done. */
  function CallOf(s: Relays.Relay, st: Relays.Step): Option<Call>
    requires Relays.Enabled(s, st)
  {
    match st
    case Resume(q, acceptable, _, _) =>
      if s.cancelled || s.records[q].disconnected || !acceptable then Some(CancelCall(false)) else None
    case Respond(q, usage, _, _) => Some(SettleCall(usage, NormalizeUsage(usage).Some?))
    case GiveUp(q, _, _) => Some(CancelCall(s.records[q].started))
    case Sweep(q, _, _) => Some(CancelCall(s.records[q].started))
    case _ => None
  }

  /** The request still has its reservation, and no call was made for it. */
  predicate Unfinished(s: Relays.Relay, q: Relays.RequestKey) {
    q in s.accounts && s.accounts[q].finalization.None?
  }

  predicate Asks(s: Relays.Relay, st: Relays.Step) {
    st.Ask? && !s.cancelled && !st.gone && !s.adapter.closed && 0 <= st.bytes <= MAX_REQUEST_BYTES
  }

  function CallStep(k: Books.RunKey, r: Reservation, call: Call, writable: bool): Spend.Step {
    match Settles(call, r)
    case None => Spend.Cancel(k, r, writable)
    case Some(s) => Spend.Settle(k, r, s.usage, writable)
  }

  function SendStep(r: Reservation, cost: nat): Spend.Step {
    Spend.Send(r.day, Spend.Name(r.id), cost)
  }

  ghost function DurableStep(s: Relays.Relay, k: Books.RunKey, step: Step): Option<Spend.Step>
    requires step.OfRelay? && Relays.Enabled(s, step.st)
  {
    var st := step.st;
    if Asks(s, st) then Some(Spend.Reserve(k, st.today, PromptBound(BodyAsMessages(st.bytes)), st.request, step.readable, step.writable))
    else if st.CloseBudget? then
      if !s.adapter.closed && s.adapter.open == map[] then Some(Spend.Local(Books.DoClose(k))) else None
    else if CallOf(s, st).Some? then
      if Unfinished(s, st.q) then Some(CallStep(k, s.accounts[st.q].reservation, CallOf(s, st).value, step.writable)) else None
    else if st.Resume? && st.q in s.accounts then
      Some(SendStep(s.accounts[st.q].reservation, step.cost))
    else None
  }

  // ------------------------------------------------------------------------- the world

  function LedgerOf(st: Relays.Step): Option<Ledger> {
    match st
    case Ask(_, _, _, _, l, _, _, _) => Some(l)
    case Resume(_, _, l, _) => Some(l)
    case Respond(_, _, l, _) => Some(l)
    case GiveUp(_, l, _) => Some(l)
    case Sweep(_, l, _) => Some(l)
    case CloseBudget(l) => Some(l)
    case _ => None
  }

  function HookOf(st: Relays.Step): bool {
    match st
    case Ask(_, _, _, _, _, _, _, hookOk) => hookOk
    case Resume(_, _, _, hookOk) => hookOk
    case Respond(_, _, _, hookOk) => hookOk
    case GiveUp(_, _, hookOk) => hookOk
    case Sweep(_, _, hookOk) => hookOk
    case _ => true
  }

  /** The step sees the ledger as it is, and the hook answers as the disk does. */
  ghost predicate Sees(w: World, k: Books.RunKey, step: Step)
    requires step.OfRelay? && Relays.Enabled(w.relay, step.st) && k in w.sys.books.runs
  {
    && (LedgerOf(step.st).Some? ==> LedgerOf(step.st).value == w.sys.books.ledger)
    && var b := DurableStep(w.relay, k, step);
       && (b.Some? && b.value.Reserve? ==> step.st.durable == Spend.BaseSeen(w.sys, b.value))
       && (b.Some? && (b.value.Reserve? || b.value.Settle? || b.value.Cancel?) ==>
             (HookOf(step.st) <==> Spend.HookOk(w.sys, b.value)))
  }

  /** The provider charges a started request within its worst case, and reports at least what it charged. */
  ghost predicate Honest(w: World, step: Step)
    requires step.OfRelay?
  {
    && (step.st.Resume? && step.st.q in w.relay.accounts ==> step.cost <= w.relay.accounts[step.st.q].reservation.reserved)
    && (step.st.Respond? && step.st.q in w.relay.accounts && NormalizeUsage(step.st.usage).Some? ==>
          var r := w.relay.accounts[step.st.q].reservation;
          Spend.Incurred(w.sys, r.day, Spend.Name(r.id)) <= CostOf(NormalizeUsage(step.st.usage).value))
  }

  /** A step of another run; a request of it is not one of this run's. */
  predicate OfAnother(w: World, k: Books.RunKey, st: Spend.Step) {
    match st
    case Local(op) => op.key != k
    case Reserve(j, _, _, _, _, _) => j != k
    case Settle(j, _, _, _) => j != k
    case Cancel(j, _, _) => j != k
    case Send(d, id, _) => forall rid :: rid in w.relay.adapter.open ==> id != Spend.Name(rid)
    case Crash => false
  }

  ghost predicate Enabled(w: World, k: Books.RunKey, step: Step) {
    && k in w.sys.books.runs
    && match step
       case OfRelay(st, _, _, _) => Relays.Enabled(w.relay, st) && Sees(w, k, step) && Honest(w, step)
       case OfOthers(st) => OfAnother(w, k, st) && Spend.EnabledStep(w.sys, st)
  }

  /** Where the durable side does not allow a step nothing happens there; `BargainIsKept` says that this never is so. */
  ghost function Next(w: World, k: Books.RunKey, step: Step): World
    requires Enabled(w, k, step)
  {
    match step
    case OfOthers(st) => w.(sys := Spend.NextSys(w.sys, st))
    case OfRelay(st, _, _, _) => World(Relays.Next(w.relay, st), SysAfter(w.sys, DurableStep(w.relay, k, step)))
  }

  ghost function SysAfter(s: Spend.Sys, b: Option<Spend.Step>): Spend.Sys {
    if b.Some? && Spend.EnabledStep(s, b.value) then Spend.NextSys(s, b.value) else s
  }

  // ------------------------------------------------------------------------ invariants

  ghost predicate Coupled(w: World, k: Books.RunKey) {
    && k in w.sys.books.runs && w.relay.run == w.sys.books.runs[k]
    && w.relay.serials <= w.sys.books.ledger.nextSerial
  }

  /** A reservation still open: the provider has been asked exactly if the request was started. */
  ghost predicate SentIffStarted(w: World, q: Relays.RequestKey)
    requires q in w.relay.accounts
  {
    !Relays.Took(w.relay.accounts[q]) ==>
      q in w.relay.records && (KeyOf(w.relay.accounts[q].reservation) in w.sys.incurred <==> w.relay.records[q].started)
  }

  ghost predicate AllSent(w: World) {
    forall q :: q in w.relay.accounts ==> SentIffStarted(w, q)
  }

  ghost predicate Inv(w: World, k: Books.RunKey) {
    Relays.RequestsOk(w.relay) && Relays.MoneyOk(w.relay) && Coupled(w, k) && Spend.SysInv(w.sys) && AllSent(w)
  }

  /** An account without an effective call: its reservation is live, and active on disk. */
  lemma OpenIsDurable(w: World, k: Books.RunKey, q: Relays.RequestKey)
    requires Inv(w, k) && q in w.relay.accounts && !Relays.Took(w.relay.accounts[q])
    ensures var r := w.relay.accounts[q].reservation;
      && r.id in w.relay.adapter.open && w.relay.adapter.open[r.id] == r && Spend.LiveIn(w.sys, k, r)
      && r.reserved == WorstCase(r.inputBound, r.maxOutput)
      && DiskProofs.Active(w.sys.disk, r.day, Spend.Name(r.id), Spend.StoredOf(r))
  {
    assert Relays.AccountOk(w.relay.accounts[q], w.relay.run.id, w.relay.serials, w.relay.adapter.open, w.relay.calls);
  }

  /** What has been incurred under an open reservation is at most its worst case. */
  lemma IncurredInBound(w: World, k: Books.RunKey, q: Relays.RequestKey)
    requires Inv(w, k) && q in w.relay.accounts && !Relays.Took(w.relay.accounts[q])
    ensures var r := w.relay.accounts[q].reservation;
      Spend.Incurred(w.sys, r.day, Spend.Name(r.id)) <= r.reserved
  {
    OpenIsDurable(w, k, q);
    var r := w.relay.accounts[q].reservation;
    assert KeyOf(r) in w.sys.incurred ==> w.sys.incurred[KeyOf(r)] <= w.sys.disk.days[r.day].reservations[Spend.Name(r.id)].reserved;
  }

  lemma CallFitsRequest(w: World, k: Books.RunKey, st: Relays.Step)
    requires Inv(w, k) && Relays.Enabled(w.relay, st) && CallOf(w.relay, st).Some?
    ensures Relays.CallFits(CallOf(w.relay, st).value, w.relay.records[st.q].started)
  {
    assert Relays.RequestOk(w.relay.records[st.q], Relays.AccountOf(w.relay, st.q), w.relay.cancelled, w.relay.swept);
  }

  /** The relay's side of the bargain for a call: a settlement covers what was incurred, and only what was never sent is erased. */
  lemma CallAllowed(s: Spend.Sys, k: Books.RunKey, r: Reservation, call: Call, writable: bool)
    requires Spend.LiveIn(s, k, r) && r.reserved == WorstCase(r.inputBound, r.maxOutput)
    requires Spend.Incurred(s, r.day, Spend.Name(r.id)) <= r.reserved
    requires call == CancelCall(false) ==> KeyOf(r) !in s.incurred
    requires call.SettleCall? && call.trusted ==>
      NormalizeUsage(call.usage).Some? && Spend.Incurred(s, r.day, Spend.Name(r.id)) <= CostOf(NormalizeUsage(call.usage).value)
    ensures Spend.EnabledStep(s, CallStep(k, r, call, writable))
  {
  }

  lemma CallIsEnabled(w: World, k: Books.RunKey, step: Step)
    requires Inv(w, k) && step.OfRelay? && Relays.Enabled(w.relay, step.st) && Honest(w, step)
    requires CallOf(w.relay, step.st).Some? && Unfinished(w.relay, step.st.q)
    ensures Spend.EnabledStep(w.sys, CallStep(k, w.relay.accounts[step.st.q].reservation, CallOf(w.relay, step.st).value, step.writable))
  {
    var q := step.st.q;
    CallFitsRequest(w, k, step.st);
    OpenIsDurable(w, k, q);
    IncurredInBound(w, k, q);
    assert SentIffStarted(w, q);
    CallIsHonest(w, step);
    CallAllowed(w.sys, k, w.relay.accounts[q].reservation, CallOf(w.relay, step.st).value, step.writable);
  }

  lemma CallIsHonest(w: World, step: Step)
    requires step.OfRelay? && Relays.Enabled(w.relay, step.st) && Honest(w, step)
    requires CallOf(w.relay, step.st).Some? && Unfinished(w.relay, step.st.q)
    ensures var call, r := CallOf(w.relay, step.st).value, w.relay.accounts[step.st.q].reservation;
      call.SettleCall? && call.trusted ==>
        NormalizeUsage(call.usage).Some? && Spend.Incurred(w.sys, r.day, Spend.Name(r.id)) <= CostOf(NormalizeUsage(call.usage).value)
  {
  }

  lemma SendIsEnabled(w: World, k: Books.RunKey, st: Relays.Step, cost: nat)
    requires Inv(w, k) && Relays.Enabled(w.relay, st) && st.Resume? && st.q in w.relay.accounts && CallOf(w.relay, st).None?
    requires cost <= w.relay.accounts[st.q].reservation.reserved
    ensures Spend.EnabledStep(w.sys, SendStep(w.relay.accounts[st.q].reservation, cost))
  {
    assert Relays.RequestOk(w.relay.records[st.q], Relays.AccountOf(w.relay, st.q), w.relay.cancelled, w.relay.swept);
    OpenIsDurable(w, k, st.q);
    assert SentIffStarted(w, st.q);
  }

  predicate Fetches(s: Relays.Relay, st: Relays.Step)
    requires Relays.Enabled(s, st)
  {
    st.Resume? && st.q in s.accounts && CallOf(s, st).None?
  }

  lemma CallIsDurable(s: Relays.Relay, k: Books.RunKey, step: Step)
    requires step.OfRelay? && Relays.Enabled(s, step.st) && CallOf(s, step.st).Some? && Unfinished(s, step.st.q)
    ensures DurableStep(s, k, step) == Some(CallStep(k, s.accounts[step.st.q].reservation, CallOf(s, step.st).value, step.writable))
    ensures var b := DurableStep(s, k, step).value; b.Settle? || b.Cancel?
  {
  }

  lemma FetchIsDurable(s: Relays.Relay, k: Books.RunKey, step: Step)
    requires step.OfRelay? && Relays.Enabled(s, step.st) && Fetches(s, step.st)
    ensures DurableStep(s, k, step) == Some(SendStep(s.accounts[step.st.q].reservation, step.cost))
  {
  }

  lemma OtherwiseNotDurable(s: Relays.Relay, k: Books.RunKey, step: Step)
    requires step.OfRelay? && Relays.Enabled(s, step.st) && !step.st.Ask? && !step.st.CloseBudget? && !Fetches(s, step.st)
    requires CallOf(s, step.st).Some? ==> !Unfinished(s, step.st.q)
    ensures DurableStep(s, k, step).None?
  {
  }

  /** Whatever a relay step asks of the durable ledger is allowed there. */
  lemma StepIsEnabled(w: World, k: Books.RunKey, step: Step)
    requires Inv(w, k) && Enabled(w, k, step) && step.OfRelay?
    ensures var b := DurableStep(w.relay, k, step); b.Some? ==> Spend.EnabledStep(w.sys, b.value)
  {
    var st := step.st;
    if st.Ask? || st.CloseBudget? {
    } else if Fetches(w.relay, st) {
      FetchIsDurable(w.relay, k, step);
      SendIsEnabled(w, k, st, step.cost);
    } else if CallOf(w.relay, st).Some? && Unfinished(w.relay, st.q) {
      CallIsDurable(w.relay, k, step);
      CallIsEnabled(w, k, step);
    } else {
      OtherwiseNotDurable(w.relay, k, step);
    }
  }

  // --------------------------------------------------------- what the relay's side does

  /** No request changes whether it was started. */
  ghost predicate SameStarted(s: Relays.Relay, s': Relays.Relay) {
    forall p :: p in s.records ==> p in s'.records && s'.records[p].started == s.records[p].started
  }

  /** No reservation, no call: accounts and started requests are as they were. */
  ghost predicate Idled(s: Relays.Relay, s': Relays.Relay) {
    s'.accounts == s.accounts && s'.serials == s.serials && SameStarted(s, s')
  }

  /** One call was made: it decides over its own account, and nothing else changes. */
  ghost predicate Called(s: Relays.Relay, q: Relays.RequestKey, o: CallOutcome, s': Relays.Relay)
    requires q in s.accounts
  {
    && s'.run == o.run && s'.serials == s.serials && SameStarted(s, s')
    && s'.accounts.Keys == s.accounts.Keys && s'.accounts[q].reservation == s.accounts[q].reservation
    && (forall p :: p in s.accounts && p != q ==> s'.accounts[p] == s.accounts[p])
    && (Relays.Took(s'.accounts[q]) <==>
          s.accounts[q].reservation.id in s.adapter.open && s.accounts[q].reservation.id !in o.adapter.open)
  }

  lemma FinalizeCalls(s: Relays.Relay, q: Relays.RequestKey, r: Relays.Record, call: Call, l: Ledger, hookOk: bool)
    requires Unfinished(s, q) && (q in s.records ==> r.started == s.records[q].started)
    ensures Called(s, q, Perform(l, s.run, s.adapter, s.accounts[q].reservation.id, call, hookOk),
                   Relays.Finalize(Relays.Put(s, q, r), q, call, l, hookOk))
  {
  }

  lemma FinalizeIdles(s: Relays.Relay, q: Relays.RequestKey, r: Relays.Record, call: Call, l: Ledger, hookOk: bool)
    requires !Unfinished(s, q) && (q in s.records ==> r.started == s.records[q].started)
    ensures var s' := Relays.Finalize(Relays.Put(s, q, r), q, call, l, hookOk);
      Idled(s, s') && s'.run == s.run
  {
  }

  /** The record with which a step makes its call. */
  function Moved(s: Relays.Relay, st: Relays.Step): Relays.Record
    requires Relays.Enabled(s, st) && CallOf(s, st).Some?
  {
    var r := s.records[st.q];
    match st
    case Sweep(_, _, _) => r.(sweeps := r.sweeps - 1)
    case Respond(_, _, _, _) => r.(phase := Relays.Closing(true))
    case _ => r.(phase := Relays.Closing(false))
  }

  lemma CallIsFinalize(s: Relays.Relay, st: Relays.Step)
    requires Relays.Enabled(s, st) && CallOf(s, st).Some? && (st.Resume? || st.Sweep? ==> st.q in s.accounts)
    ensures LedgerOf(st).Some?
    ensures Relays.Next(s, st)
         == Relays.Finalize(Relays.Put(s, st.q, Moved(s, st)), st.q, CallOf(s, st).value, LedgerOf(st).value, HookOf(st))
  {
  }

  lemma CallMoves(s: Relays.Relay, st: Relays.Step)
    requires Relays.Enabled(s, st) && CallOf(s, st).Some? && Unfinished(s, st.q)
    ensures LedgerOf(st).Some?
    ensures Called(s, st.q, Perform(LedgerOf(st).value, s.run, s.adapter, s.accounts[st.q].reservation.id, CallOf(s, st).value, HookOf(st)),
                   Relays.Next(s, st))
  {
    CallIsFinalize(s, st);
    FinalizeCalls(s, st.q, Moved(s, st), CallOf(s, st).value, LedgerOf(st).value, HookOf(st));
  }

  lemma QuietIdles(s: Relays.Relay, st: Relays.Step)
    requires Relays.Enabled(s, st) && Relays.Quiet(st)
    ensures Idled(s, Relays.Next(s, st)) && Relays.Next(s, st).run == s.run
  {
    Relays.QuietStepNoCall(s, st);
  }

  lemma NoCallIdles(s: Relays.Relay, st: Relays.Step)
    requires Relays.Enabled(s, st) && !Relays.Quiet(st) && !st.Ask? && !st.CloseBudget? && !Fetches(s, st)
    requires CallOf(s, st).Some? ==> !Unfinished(s, st.q)
    ensures Idled(s, Relays.Next(s, st)) && Relays.Next(s, st).run == s.run
  {
    if CallOf(s, st).Some? && (st.Resume? || st.Sweep? ==> st.q in s.accounts) {
      CallIsFinalize(s, st);
      FinalizeIdles(s, st.q, Moved(s, st), CallOf(s, st).value, LedgerOf(st).value, HookOf(st));
    }
  }

  lemma FetchMoves(s: Relays.Relay, st: Relays.Step)
    requires Relays.Enabled(s, st) && Fetches(s, st)
    ensures var s' := Relays.Next(s, st);
      && s'.accounts == s.accounts && s'.run == s.run && s'.serials == s.serials
      && st.q in s'.records && s'.records[st.q].started
      && forall p :: p in s.records && p != st.q ==> p in s'.records && s'.records[p].started == s.records[p].started
  {
  }

  lemma CloseMoves(s: Relays.Relay, l: Ledger)
    ensures var s' := Relays.Next(s, Relays.CloseBudget(l));
      Idled(s, s') && s'.run == RelayBudgetRules.Close(l, s.run, s.adapter).run
  {
  }

  /** The admission of a step that asks. */
  ghost function Admission(s: Relays.Relay, st: Relays.Step): ReserveOutcome
    requires st.Ask? && st.bytes >= 0
  {
    Reserve(st.ledger, s.run, st.today, st.durable, PromptBound(BodyAsMessages(st.bytes)), st.request, st.hookOk)
  }

  lemma AskMoves(s: Relays.Relay, st: Relays.Step)
    requires Relays.Enabled(s, st) && st.Ask?
    ensures SameStarted(s, Relays.Next(s, st))
    ensures var s' := Relays.Next(s, st);
      if Asks(s, st) then
        var o := Admission(s, st);
        && s'.run == o.run && s'.serials == o.ledger.nextSerial
        && s'.accounts == (if o.result.Reserved? then s.accounts[st.q := Relays.Account(o.result.reservation, None)] else s.accounts)
      else s'.run == s.run && s'.serials <= st.ledger.nextSerial && s'.accounts == s.accounts
  {
  }

  // --------------------------------------------------------- what the durable side does

  lemma DurableReserve(s: Spend.Sys, b: Spend.Step)
    requires Spend.EnabledStep(s, b) && b.Reserve?
    ensures var run := s.books.runs[b.key];
      var o := Reserve(s.books.ledger, run, b.today, Spend.BaseSeen(s, b), b.input, b.request, Spend.HookOk(s, b));
      && Spend.NextSys(s, b).books == Books.Books(o.ledger, s.books.runs[b.key := o.run])
      && Spend.NextSys(s, b).incurred == s.incurred
  {
  }

  lemma DurableSettle(s: Spend.Sys, b: Spend.Step)
    requires Spend.EnabledStep(s, b) && b.Settle?
    ensures var o := Settle(s.books.ledger, s.books.runs[b.key], b.r, b.usage, Spend.HookOk(s, b));
      && Spend.NextSys(s, b).books == Books.Books(o.ledger, s.books.runs[b.key := o.run])
      && o.ledger.nextSerial == s.books.ledger.nextSerial
  {
  }

  lemma DurableCancel(s: Spend.Sys, b: Spend.Step)
    requires Spend.EnabledStep(s, b) && b.Cancel?
    ensures var o := Cancel(s.books.ledger, s.books.runs[b.key], b.r, Spend.HookOk(s, b));
      && Spend.NextSys(s, b).books == Books.Books(o.ledger, s.books.runs[b.key := o.run])
      && o.ledger.nextSerial == s.books.ledger.nextSerial
  {
  }

  /** What the adapter leaves of the ledger and the run is what the ledger's own operation leaves. */
  lemma PerformIs(l: Ledger, run: Run, a: Adapter, r: Reservation, call: Call, hookOk: bool)
    requires r.id in a.open && a.open[r.id] == r
    ensures var o := Perform(l, run, a, r.id, call, hookOk);
      var own := match Settles(call, r) case None => Cancel(l, run, r, hookOk) case Some(s) => Settle(l, run, r, s.usage, hookOk);
      o.ledger == own.ledger && o.run == own.run
  {
  }

  /** A budget call and its durable step do the same to the ledger and the run. */
  lemma DurableCall(s: Spend.Sys, k: Books.RunKey, a: Adapter, r: Reservation, call: Call, writable: bool)
    requires k in s.books.runs && r.id in a.open && a.open[r.id] == r && Spend.EnabledStep(s, CallStep(k, r, call, writable))
    ensures var b := CallStep(k, r, call, writable);
      var o := Perform(s.books.ledger, s.books.runs[k], a, r.id, call, Spend.HookOk(s, b));
      && Spend.NextSys(s, b).books == Books.Books(o.ledger, s.books.runs[k := o.run])
      && o.ledger.nextSerial == s.books.ledger.nextSerial
  {
    var b := CallStep(k, r, call, writable);
    PerformIs(s.books.ledger, s.books.runs[k], a, r, call, Spend.HookOk(s, b));
    if b.Settle? { DurableSettle(s, b); } else { DurableCancel(s, b); }
  }

  lemma DurableCallIncurred(s: Spend.Sys, k: Books.RunKey, r: Reservation, call: Call, writable: bool)
    requires Spend.EnabledStep(s, CallStep(k, r, call, writable))
    ensures var b := CallStep(k, r, call, writable);
      && (forall key :: key != KeyOf(r) ==> (key in Spend.NextSys(s, b).incurred <==> key in s.incurred))
      && (!Spend.HookOk(s, b) ==> Spend.NextSys(s, b).incurred == s.incurred)
  {
  }

  lemma DurableClose(s: Spend.Sys, k: Books.RunKey)
    requires k in s.books.runs
    ensures var b, o := Spend.Local(Books.DoClose(k)), Books.CloseRun(s.books.ledger, s.books.runs[k]);
      Spend.EnabledStep(s, b) && Spend.NextSys(s, b) == s.(books := Books.Books(o.0, s.books.runs[k := o.1]))
      && o.0.nextSerial == s.books.ledger.nextSerial
  {
  }

  // -------------------------------------------------------------- the two stay coupled

  /** The ledger and the run after an admission, on the relay and on disk. */
  lemma AdmittedTogether(w: World, k: Books.RunKey, step: Step)
    requires Inv(w, k) && Enabled(w, k, step) && step.OfRelay? && Asks(w.relay, step.st)
    ensures var o := Admission(w.relay, step.st);
      Next(w, k, step).sys.books == Books.Books(o.ledger, w.sys.books.runs[k := o.run])
  {
    DurableReserve(w.sys, DurableStep(w.relay, k, step).value);
  }

  lemma AskCoupled(w: World, k: Books.RunKey, step: Step)
    requires Inv(w, k) && Enabled(w, k, step) && step.OfRelay? && step.st.Ask?
    ensures Coupled(Next(w, k, step), k)
  {
    AskMoves(w.relay, step.st);
    if Asks(w.relay, step.st) {
      AdmittedTogether(w, k, step);
    }
  }

  /** What the call does, with the relay's answer and the disk's as one. */
  ghost function Made(w: World, step: Step): CallOutcome
    requires step.OfRelay? && Relays.Enabled(w.relay, step.st) && CallOf(w.relay, step.st).Some? && Unfinished(w.relay, step.st.q)
  {
    Perform(w.sys.books.ledger, w.relay.run, w.relay.adapter, w.relay.accounts[step.st.q].reservation.id,
            CallOf(w.relay, step.st).value, HookOf(step.st))
  }

  lemma CallOnRelay(w: World, k: Books.RunKey, step: Step)
    requires Inv(w, k) && Enabled(w, k, step) && step.OfRelay? && CallOf(w.relay, step.st).Some? && Unfinished(w.relay, step.st.q)
    ensures Called(w.relay, step.st.q, Made(w, step), Next(w, k, step).relay)
    ensures HookOf(step.st) ==> Relays.Took(Next(w, k, step).relay.accounts[step.st.q])
  {
    OpenIsDurable(w, k, step.st.q);
    CallMoves(w.relay, step.st);
    PerformInStep(w.sys.books.ledger, w.relay.run, w.relay.adapter, w.relay.accounts[step.st.q].reservation.id,
                  CallOf(w.relay, step.st).value, HookOf(step.st));
  }

  /** The durable side of the call is the settlement or cancel that it stands for, and its hook is the disk's answer. */
  lemma CallAfter(w: World, k: Books.RunKey, step: Step)
    requires Inv(w, k) && Enabled(w, k, step) && step.OfRelay? && CallOf(w.relay, step.st).Some? && Unfinished(w.relay, step.st.q)
    ensures var b := CallStep(k, w.relay.accounts[step.st.q].reservation, CallOf(w.relay, step.st).value, step.writable);
      Spend.EnabledStep(w.sys, b) && Next(w, k, step).sys == Spend.NextSys(w.sys, b) && HookOf(step.st) == Spend.HookOk(w.sys, b)
  {
    CallIsEnabled(w, k, step);
    CallIsDurable(w.relay, k, step);
    assert Sees(w, k, step);
  }

  lemma CallBooks(w: World, k: Books.RunKey, step: Step)
    requires Inv(w, k) && Enabled(w, k, step) && step.OfRelay? && CallOf(w.relay, step.st).Some? && Unfinished(w.relay, step.st.q)
    ensures Next(w, k, step).sys.books == Books.Books(Made(w, step).ledger, w.sys.books.runs[k := Made(w, step).run])
    ensures Made(w, step).ledger.nextSerial == w.sys.books.ledger.nextSerial
  {
    OpenIsDurable(w, k, step.st.q);
    CallAfter(w, k, step);
    DurableCall(w.sys, k, w.relay.adapter, w.relay.accounts[step.st.q].reservation, CallOf(w.relay, step.st).value, step.writable);
  }

  lemma CallIncurred(w: World, k: Books.RunKey, step: Step)
    requires Inv(w, k) && Enabled(w, k, step) && step.OfRelay? && CallOf(w.relay, step.st).Some? && Unfinished(w.relay, step.st.q)
    ensures var y', key := Next(w, k, step).sys, KeyOf(w.relay.accounts[step.st.q].reservation);
      && (forall other :: other != key ==> (other in y'.incurred <==> other in w.sys.incurred))
      && (!HookOf(step.st) ==> y'.incurred == w.sys.incurred)
  {
    CallAfter(w, k, step);
    DurableCallIncurred(w.sys, k, w.relay.accounts[step.st.q].reservation, CallOf(w.relay, step.st).value, step.writable);
  }

  lemma CallStepCoupled(w: World, k: Books.RunKey, step: Step)
    requires Inv(w, k) && Enabled(w, k, step) && step.OfRelay? && CallOf(w.relay, step.st).Some? && Unfinished(w.relay, step.st.q)
    ensures Coupled(Next(w, k, step), k)
  {
    CallOnRelay(w, k, step);
    CallBooks(w, k, step);
    LandTogether(w, k, Next(w, k, step).relay, Next(w, k, step).sys, Made(w, step));
  }

  lemma LandTogether(w: World, k: Books.RunKey, s': Relays.Relay, y': Spend.Sys, o: CallOutcome)
    requires Coupled(w, k) && s'.run == o.run && s'.serials == w.relay.serials
    requires y'.books == Books.Books(o.ledger, w.sys.books.runs[k := o.run]) && o.ledger.nextSerial == w.sys.books.ledger.nextSerial
    ensures Coupled(World(s', y'), k)
  {
  }

  lemma CloseCoupled(w: World, k: Books.RunKey, step: Step)
    requires Inv(w, k) && Enabled(w, k, step) && step.OfRelay? && step.st.CloseBudget?
    ensures Coupled(Next(w, k, step), k)
  {
    CloseMoves(w.relay, step.st.ledger);
    DurableClose(w.sys, k);
  }

  lemma StayCoupled(w: World, k: Books.RunKey, s': Relays.Relay, y': Spend.Sys)
    requires Coupled(w, k) && s'.run == w.relay.run && s'.serials == w.relay.serials && y'.books == w.sys.books
    ensures Coupled(World(s', y'), k)
  {
  }

  lemma IdleCoupled(w: World, k: Books.RunKey, step: Step)
    requires Inv(w, k) && Enabled(w, k, step) && step.OfRelay? && !step.st.Ask? && !step.st.CloseBudget? && !Fetches(w.relay, step.st)
    requires CallOf(w.relay, step.st).Some? ==> !Unfinished(w.relay, step.st.q)
    ensures Coupled(Next(w, k, step), k)
  {
    if Relays.Quiet(step.st) {
      QuietIdles(w.relay, step.st);
    } else {
      NoCallIdles(w.relay, step.st);
    }
    StayCoupled(w, k, Relays.Next(w.relay, step.st), w.sys);
  }

  /** The durable side of a fetch is the request that it sends. */
  lemma FetchAfter(w: World, k: Books.RunKey, step: Step)
    requires Inv(w, k) && Enabled(w, k, step) && step.OfRelay? && Fetches(w.relay, step.st)
    ensures var y', r := Next(w, k, step).sys, w.relay.accounts[step.st.q].reservation;
      y' == w.sys.(incurred := w.sys.incurred[KeyOf(r) := step.cost])
  {
    FetchIsDurable(w.relay, k, step);
    SendIsEnabled(w, k, step.st, step.cost);
  }

  lemma FetchCoupled(w: World, k: Books.RunKey, step: Step)
    requires Inv(w, k) && Enabled(w, k, step) && step.OfRelay? && Fetches(w.relay, step.st)
    ensures Coupled(Next(w, k, step), k)
  {
    FetchMoves(w.relay, step.st);
    FetchAfter(w, k, step);
    StayCoupled(w, k, Next(w, k, step).relay, Next(w, k, step).sys);
  }

  lemma RelayStepCoupled(w: World, k: Books.RunKey, step: Step)
    requires Inv(w, k) && Enabled(w, k, step) && step.OfRelay?
    ensures Coupled(Next(w, k, step), k)
  {
    if step.st.Ask? {
      AskCoupled(w, k, step);
    } else if step.st.CloseBudget? {
      CloseCoupled(w, k, step);
    } else if CallOf(w.relay, step.st).Some? && Unfinished(w.relay, step.st.q) {
      CallStepCoupled(w, k, step);
    } else if Fetches(w.relay, step.st) {
      FetchCoupled(w, k, step);
    } else {
      IdleCoupled(w, k, step);
    }
  }

  // ------------------------------------------------------- sent exactly if started

  /** Nothing that matters to this request has changed. */
  lemma StaysSent(w: World, w': World, p: Relays.RequestKey)
    requires p in w.relay.accounts && SentIffStarted(w, p)
    requires p in w'.relay.accounts && w'.relay.accounts[p] == w.relay.accounts[p]
    requires p in w.relay.records ==> p in w'.relay.records && w'.relay.records[p].started == w.relay.records[p].started
    requires KeyOf(w.relay.accounts[p].reservation) in w'.sys.incurred <==> KeyOf(w.relay.accounts[p].reservation) in w.sys.incurred
    ensures SentIffStarted(w', p)
  {
  }

  lemma AllStaySent(w: World, s': Relays.Relay, y': Spend.Sys)
    requires AllSent(w) && Idled(w.relay, s') && y'.incurred == w.sys.incurred
    ensures AllSent(World(s', y'))
  {
    forall p | p in s'.accounts ensures SentIffStarted(World(s', y'), p) {
      StaysSent(w, World(s', y'), p);
    }
  }

  /** Different requests have different names on disk. */
  lemma KeysDiffer(w: World, p: Relays.RequestKey, q: Relays.RequestKey)
    requires Relays.MoneyOk(w.relay) && p in w.relay.accounts && q in w.relay.accounts && p != q
    ensures KeyOf(w.relay.accounts[p].reservation) != KeyOf(w.relay.accounts[q].reservation)
  {
    if KeyOf(w.relay.accounts[p].reservation) == KeyOf(w.relay.accounts[q].reservation) {
      Spend.NameInjective(w.relay.accounts[p].reservation.id, w.relay.accounts[q].reservation.id);
    }
  }

  /** A new reservation's name was not active on disk, so nothing has been sent under it. */
  lemma NewIsUnsent(s: Spend.Sys, st: Spend.Step)
    requires Spend.SysInv(s) && Spend.EnabledStep(s, st) && st.Reserve? && Spend.HookOk(s, st)
    ensures KeyOf(Spend.Built(s, st).value) !in s.incurred
  {
    var t := Spend.TicketOf(Spend.Built(s, st).value);
    assert !Disk.ActiveSomewhere(s.disk, t.id);
  }

  /** What the ledger grants is what its hook was shown. */
  lemma GrantedIsBuilt(s: Spend.Sys, b: Spend.Step)
    requires Spend.EnabledStep(s, b) && b.Reserve?
    requires var run := s.books.runs[b.key];
      Reserve(s.books.ledger, run, b.today, Spend.BaseSeen(s, b), b.input, b.request, Spend.HookOk(s, b)).result.Reserved?
    ensures Spend.HookOk(s, b)
    ensures var run := s.books.runs[b.key];
      var o := Reserve(s.books.ledger, run, b.today, Spend.BaseSeen(s, b), b.input, b.request, Spend.HookOk(s, b));
      Spend.Built(s, b) == Some(o.result.reservation)
  {
  }

  lemma AskSent(w: World, k: Books.RunKey, step: Step)
    requires Inv(w, k) && Enabled(w, k, step) && step.OfRelay? && step.st.Ask?
    ensures AllSent(Next(w, k, step))
  {
    var q, s' := step.st.q, Relays.Next(w.relay, step.st);
    AskMoves(w.relay, step.st);
    if Asks(w.relay, step.st) {
      var b := DurableStep(w.relay, k, step).value;
      DurableReserve(w.sys, b);
      if Admission(w.relay, step.st).result.Reserved? {
        GrantedIsBuilt(w.sys, b);
        NewIsUnsent(w.sys, b);
      }
    }
    AskedSent(w, q, s', SysAfter(w.sys, DurableStep(w.relay, k, step)));
  }

  lemma AskedSent(w: World, q: Relays.RequestKey, s': Relays.Relay, y': Spend.Sys)
    requires AllSent(w) && Relays.RequestsOk(w.relay) && q in w.relay.records && w.relay.records[q].phase.Reading?
    requires SameStarted(w.relay, s') && y'.incurred == w.sys.incurred
    requires s'.accounts == w.relay.accounts || (q in s'.accounts && s'.accounts == w.relay.accounts[q := s'.accounts[q]]
                                                 && KeyOf(s'.accounts[q].reservation) !in w.sys.incurred)
    ensures AllSent(World(s', y'))
  {
    assert Relays.RequestOk(w.relay.records[q], Relays.AccountOf(w.relay, q), w.relay.cancelled, w.relay.swept);
    forall p | p in s'.accounts ensures SentIffStarted(World(s', y'), p) {
      if p != q || s'.accounts == w.relay.accounts {
        StaysSent(w, World(s', y'), p);
      }
    }
  }

  lemma CallStepSent(w: World, k: Books.RunKey, step: Step)
    requires Inv(w, k) && Enabled(w, k, step) && step.OfRelay? && CallOf(w.relay, step.st).Some? && Unfinished(w.relay, step.st.q)
    ensures AllSent(Next(w, k, step))
  {
    CallOnRelay(w, k, step);
    CallIncurred(w, k, step);
    CalledSent(w, step.st.q, Next(w, k, step).relay, Next(w, k, step).sys, HookOf(step.st), Made(w, step));
  }

  lemma CalledSent(w: World, q: Relays.RequestKey, s': Relays.Relay, y': Spend.Sys, hookOk: bool, o: CallOutcome)
    requires AllSent(w) && Relays.MoneyOk(w.relay) && Unfinished(w.relay, q) && Called(w.relay, q, o, s')
    requires forall key :: key != KeyOf(w.relay.accounts[q].reservation) ==> (key in y'.incurred <==> key in w.sys.incurred)
    requires if hookOk then Relays.Took(s'.accounts[q]) else y'.incurred == w.sys.incurred
    ensures AllSent(World(s', y'))
  {
    assert SentIffStarted(w, q);
    forall p | p in s'.accounts ensures SentIffStarted(World(s', y'), p) {
      if p != q {
        KeysDiffer(w, p, q);
        StaysSent(w, World(s', y'), p);
      }
    }
  }

  lemma FetchSent(w: World, k: Books.RunKey, step: Step)
    requires Inv(w, k) && Enabled(w, k, step) && step.OfRelay? && Fetches(w.relay, step.st)
    ensures AllSent(Next(w, k, step))
  {
    FetchMoves(w.relay, step.st);
    FetchAfter(w, k, step);
    FetchedSent(w, step.st.q, Next(w, k, step).relay, Next(w, k, step).sys, step.cost);
  }

  lemma FetchedSent(w: World, q: Relays.RequestKey, s': Relays.Relay, y': Spend.Sys, cost: nat)
    requires AllSent(w) && Relays.MoneyOk(w.relay) && q in w.relay.accounts && s'.accounts == w.relay.accounts
    requires q in s'.records && s'.records[q].started
    requires forall p :: p in w.relay.records && p != q ==> p in s'.records && s'.records[p].started == w.relay.records[p].started
    requires y'.incurred == w.sys.incurred[KeyOf(w.relay.accounts[q].reservation) := cost]
    ensures AllSent(World(s', y'))
  {
    forall p | p in s'.accounts ensures SentIffStarted(World(s', y'), p) {
      if p != q {
        KeysDiffer(w, p, q);
        StaysSent(w, World(s', y'), p);
      }
    }
  }

  lemma CloseSent(w: World, k: Books.RunKey, step: Step)
    requires Inv(w, k) && Enabled(w, k, step) && step.OfRelay? && step.st.CloseBudget?
    ensures AllSent(Next(w, k, step))
  {
    CloseMoves(w.relay, step.st.ledger);
    DurableClose(w.sys, k);
    AllStaySent(w, Relays.Next(w.relay, step.st), SysAfter(w.sys, DurableStep(w.relay, k, step)));
  }

  lemma IdleSent(w: World, k: Books.RunKey, step: Step)
    requires Inv(w, k) && Enabled(w, k, step) && step.OfRelay? && !step.st.Ask? && !step.st.CloseBudget? && !Fetches(w.relay, step.st)
    requires CallOf(w.relay, step.st).Some? ==> !Unfinished(w.relay, step.st.q)
    ensures AllSent(Next(w, k, step))
  {
    if Relays.Quiet(step.st) {
      QuietIdles(w.relay, step.st);
    } else {
      NoCallIdles(w.relay, step.st);
    }
    AllStaySent(w, Relays.Next(w.relay, step.st), w.sys);
  }

  lemma RelayStepSent(w: World, k: Books.RunKey, step: Step)
    requires Inv(w, k) && Enabled(w, k, step) && step.OfRelay?
    ensures AllSent(Next(w, k, step))
  {
    if step.st.Ask? {
      AskSent(w, k, step);
    } else if step.st.CloseBudget? {
      CloseSent(w, k, step);
    } else if Fetches(w.relay, step.st) {
      FetchSent(w, k, step);
    } else if CallOf(w.relay, step.st).Some? && Unfinished(w.relay, step.st.q) {
      CallStepSent(w, k, step);
    } else {
      IdleSent(w, k, step);
    }
  }

  // ------------------------------------------------------------------------ other runs

  lemma OtherRunsKeepRun(w: World, k: Books.RunKey, st: Spend.Step)
    requires Coupled(w, k) && Spend.EnabledStep(w.sys, st) && OfAnother(w, k, st)
    ensures var s' := Spend.NextSys(w.sys, st);
      k in s'.books.runs && s'.books.runs[k] == w.sys.books.runs[k] && w.sys.books.ledger.nextSerial <= s'.books.ledger.nextSerial
  {
    match st
    case Local(op) =>
    case Reserve(j, today, input, request, _, _) =>
      ReserveShape(w.sys.books.ledger, w.sys.books.runs[j], today, Spend.BaseSeen(w.sys, st), input, request,
                   Spend.HookOk(w.sys, st));
    case Send(_, _, _) =>
    case Settle(_, _, _, _) =>
    case Cancel(_, _, _) =>
  }

  /** Another run neither sends under nor settles a reservation of this one. */
  lemma OtherRunsKeepKey(w: World, k: Books.RunKey, st: Spend.Step, q: Relays.RequestKey)
    requires Inv(w, k) && Spend.EnabledStep(w.sys, st) && OfAnother(w, k, st)
    requires q in w.relay.accounts && !Relays.Took(w.relay.accounts[q])
    ensures var key := KeyOf(w.relay.accounts[q].reservation);
      key in Spend.NextSys(w.sys, st).incurred <==> key in w.sys.incurred
  {
    OpenIsDurable(w, k, q);
    if st.Settle? {
      OtherIdDiffers(w.sys, k, st.key, w.relay.accounts[q].reservation, st.r);
    }
    KeyKept(w.sys, st, KeyOf(w.relay.accounts[q].reservation));
  }

  lemma KeyKept(s: Spend.Sys, st: Spend.Step, key: Spend.Key)
    requires Spend.EnabledStep(s, st) && (st.Send? ==> key != (st.day, st.id)) && (st.Settle? ==> key != KeyOf(st.r))
    ensures key in Spend.NextSys(s, st).incurred <==> key in s.incurred
  {
  }

  lemma OtherIdDiffers(s: Spend.Sys, k: Books.RunKey, j: Books.RunKey, r: Reservation, other: Reservation)
    requires Spend.SysInv(s) && j != k && Spend.LiveIn(s, k, r) && Spend.LiveIn(s, j, other)
    ensures KeyOf(r) != KeyOf(other)
  {
    if KeyOf(r) == KeyOf(other) {
      Spend.NameInjective(r.id, other.id);
    }
  }

  lemma OtherStepKeepsInv(w: World, k: Books.RunKey, st: Spend.Step)
    requires Inv(w, k) && Spend.EnabledStep(w.sys, st) && OfAnother(w, k, st)
    ensures Inv(w.(sys := Spend.NextSys(w.sys, st)), k)
  {
    var w' := w.(sys := Spend.NextSys(w.sys, st));
    Spend.StepKeepsSysInv(w.sys, st);
    OtherRunsKeepRun(w, k, st);
    forall q | q in w.relay.accounts ensures SentIffStarted(w', q) {
      assert SentIffStarted(w, q);
      if !Relays.Took(w.relay.accounts[q]) {
        OtherRunsKeepKey(w, k, st, q);
      }
    }
  }

  // ------------------------------------------------------------------- over whole runs

  lemma StepKeepsInv(w: World, k: Books.RunKey, step: Step)
    requires Inv(w, k) && Enabled(w, k, step)
    ensures Inv(Next(w, k, step), k)
  {
    if step.OfOthers? {
      OtherStepKeepsInv(w, k, step.other);
    } else {
      StepIsEnabled(w, k, step);
      Relays.StepKeepsRequests(w.relay, step.st);
      Relays.StepKeepsMoney(w.relay, step.st);
      RelayStepCoupled(w, k, step);
      RelayStepSent(w, k, step);
      var b := DurableStep(w.relay, k, step);
      if b.Some? {
        Spend.StepKeepsSysInv(w.sys, b.value);
      }
    }
  }

  /** The relay starts over a run that was just opened, in any state the ledger and the disk have got to. */
  ghost predicate Opens(before: seq<Spend.Step>, k: Books.RunKey) {
    && Spend.ExecSys(before).Some?
    && k in Spend.ExecSys(before).value.books.runs && Relays.Opened(Spend.ExecSys(before).value.books.runs[k])
  }

  ghost function Exec(before: seq<Spend.Step>, k: Books.RunKey, steps: seq<Step>): Option<World>
    requires Opens(before, k)
  {
    if steps == [] then
      var s := Spend.ExecSys(before).value;
      Some(World(Relays.NewRelay(s.books.runs[k]), s))
    else
      var w := Exec(before, k, steps[..|steps| - 1]);
      if w.None? || !Enabled(w.value, k, steps[|steps| - 1]) then None else Some(Next(w.value, k, steps[|steps| - 1]))
  }

  lemma {:induction false} InvAlways(before: seq<Spend.Step>, k: Books.RunKey, steps: seq<Step>)
    requires Opens(before, k) && Exec(before, k, steps).Some?
    ensures Inv(Exec(before, k, steps).value, k)
  {
    if steps == [] {
      Spend.SysInvAlways(before);
    } else {
      InvAlways(before, k, steps[..|steps| - 1]);
      StepKeepsInv(Exec(before, k, steps[..|steps| - 1]).value, k, steps[|steps| - 1]);
    }
  }

  ghost predicate Reached(before: seq<Spend.Step>, k: Books.RunKey, steps: seq<Step>, w: World) {
    Opens(before, k) && Exec(before, k, steps) == Some(w)
  }

  /**
   The relay keeps its side of the bargain: whatever its handlers, disconnects and cancels
   do, every reservation, request, settlement and cancel is one the durable ledger allows.
   A settlement covers what the provider charged, and only what was never sent is erased.
   */
  lemma BargainIsKept(before: seq<Spend.Step>, k: Books.RunKey, steps: seq<Step>, w: World, step: Step)
    requires Reached(before, k, steps, w) && Enabled(w, k, step) && step.OfRelay?
    ensures DurableStep(w.relay, k, step).Some? ==> Spend.EnabledStep(w.sys, DurableStep(w.relay, k, step).value)
    ensures Coupled(Next(w, k, step), k)
  {
    InvAlways(before, k, steps);
    StepIsEnabled(w, k, step);
    RelayStepCoupled(w, k, step);
  }

  /**
   End to end: at any point of any run of the relay and the other runs, and so after a crash
   there, a new ledger starts a day from at least everything the provider has charged on it.
   */
  lemma ProviderIsCovered(before: seq<Spend.Step>, k: Books.RunKey, steps: seq<Step>, w: World, d: Day)
    requires Reached(before, k, steps, w) && d !in w.sys.lost
    ensures Spend.ProviderTotal(w.sys, d) <= Disk.TodayTotal(w.sys.disk, d)
    ensures ValidDay(d) ==> Spend.BaseRead(Spend.NextSys(w.sys, Spend.Crash), d) == Some(Disk.TodayTotal(w.sys.disk, d))
  {
    InvAlways(before, k, steps);
    Spend.DiskCoversProvider(w.sys, d);
  }
}
