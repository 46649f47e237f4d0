/**
 The inference relay as a step machine. A step is the code one request handler, one
 cancel sweep or one event runs between two awaits, and any interleaving of steps
 is a run. `Ask` to `Finish` are the handler of one request; `Disconnect` is its
 client going away; `CancelAll` is a call of cancel, which leaves one waiting sweep
 on every active record, and `Sweep` is such a sweep resuming. The ledger is shared
 with other runs, so every budget call sees an arbitrary ledger whose serial
 numbers have not gone back.
 */
module RelayRuns {
  import opened Prelude
  import opened Sums
  import opened BudgetDays
  import opened BudgetRules
  import opened RelayBudgetRules

  type RequestKey = nat

  datatype Phase =
    | Reading                   // the body is being read; nothing is reserved
    | Admitting                 // waiting for the record's admission promise
    | Fetching                  // the provider request is in flight
    | Failing                   // waiting for the response reader to cancel
    | Closing(settling: bool)   // waiting for the record's finalization
    | Done

  datatype Admission = Unasked | Pending | Resolved

  datatype Record = Record(
    phase: Phase, admission: Admission, disconnected: bool, started: bool,
    active: bool, sweeps: nat, returned: bool)

  /** The one budget call made for a record: whether it took effect and whether it threw. */
  datatype Finalization = Finalization(call: Call, took: bool, threw: bool)

  /** A record's reservation and its finalization promise. */
  datatype Account = Account(reservation: Reservation, finalization: Option<Finalization>)

  datatype Relay = Relay(
    records: map<RequestKey, Record>,
    accounts: map<RequestKey, Account>,
    run: Run,
    adapter: Adapter,
    cancelled: bool,
    swept: bool,
    serials: nat,
    calls: multiset<ReservationId>)

  datatype Step =
    | Arrive(q: RequestKey)
    | Reject(q: RequestKey)
    | Ask(q: RequestKey, gone: bool, bytes: int, request: real, ledger: Ledger, today: Day, durable: Option<nat>, hookOk: bool)
    | Resolve(q: RequestKey)
    | Resume(q: RequestKey, acceptable: bool, ledger: Ledger, hookOk: bool)
    | Respond(q: RequestKey, usage: RawUsage, ledger: Ledger, hookOk: bool)
    | Break(q: RequestKey)
    | GiveUp(q: RequestKey, ledger: Ledger, hookOk: bool)
    | CallReturns(q: RequestKey)
    | Finish(q: RequestKey)
    | Disconnect(q: RequestKey)
    | CancelAll
    | Sweep(q: RequestKey, ledger: Ledger, hookOk: bool)
    | ServerFails
    | CloseBudget(ledger: Ledger)

  function NewRelay(run: Run): Relay {
    Relay(map[], map[], run, NewAdapter, false, false, 0, multiset{})
  }

  predicate Enabled(s: Relay, st: Step) {
    match st
    case Arrive(q) => q !in s.records
    case Reject(q) => q in s.records && s.records[q].phase.Reading?
    case Ask(q, _, _, _, l, _, _, _) => q in s.records && s.records[q].phase.Reading? && s.serials <= l.nextSerial
    case Resolve(q) => q in s.records && s.records[q].admission.Pending?
    case Resume(q, _, _, _) => q in s.records && s.records[q].phase.Admitting? && s.records[q].admission.Resolved?
    case Respond(q, _, _, _) => q in s.records && s.records[q].phase.Fetching?
    case Break(q) => q in s.records && s.records[q].phase.Fetching?
    case GiveUp(q, _, _) => q in s.records && s.records[q].phase.Failing?
    case CallReturns(q) =>
      q in s.records && q in s.accounts && s.accounts[q].finalization.Some? && !s.records[q].returned
    case Finish(q) => q in s.records && s.records[q].phase.Closing? && s.records[q].returned
    case Disconnect(q) => q in s.records && !s.records[q].phase.Reading?
    case CancelAll => true
    case Sweep(q, _, _) => q in s.records && s.records[q].sweeps > 0 && s.records[q].admission.Resolved?
    case ServerFails => true
    case CloseBudget(_) => true
  }

  function Put(s: Relay, q: RequestKey, r: Record): Relay {
    s.(records := s.records[q := r])
  }

  /** Make the record's budget call, unless it has no reservation or a call was already made. */
  function Finalize(s: Relay, q: RequestKey, call: Call, l: Ledger, hookOk: bool): Relay {
    if q !in s.accounts || s.accounts[q].finalization.Some? then s
    else
      var id := s.accounts[q].reservation.id;
      var o := Perform(l, s.run, s.adapter, id, call, hookOk);
      var f := Finalization(call, id in s.adapter.open && id !in o.adapter.open, o.threw);
      s.(accounts := s.accounts[q := s.accounts[q].(finalization := Some(f))],
         run := o.run, adapter := o.adapter, calls := s.calls + multiset{id})
  }

  function SweepAll(s: Relay): map<RequestKey, Record> {
    map q | q in s.records :: if s.records[q].active then s.records[q].(sweeps := s.records[q].sweeps + 1) else s.records[q]
  }

  /** The request waits for its admission; its reservation, if any, is already made. */
  function Asked(s: Relay, q: RequestKey, o: AskOutcome): Relay
    requires q in s.records
  {
    var s1 := Put(s, q, s.records[q].(phase := Admitting, admission := Pending, active := true));
    s1.(run := o.run, adapter := o.adapter, serials := o.ledger.nextSerial,
        accounts := if o.grant.Some? then s.accounts[q := Account(o.grant.value, None)] else s.accounts)
  }

  /** The last check before admission, and the reservation made with it. */
  ghost function AskNext(s: Relay, st: Step): Relay
    requires st.Ask? && Enabled(s, st)
  {
    if s.cancelled || st.gone then Put(s, st.q, s.records[st.q].(phase := Done))
    else
      Asked(s, st.q, RelayBudgetRules.Ask(st.ledger, s.run, s.adapter, st.bytes, st.request, st.today, st.durable, st.hookOk))
  }

  /** The handler after admission: refused, stopped before the provider call, or fetching. */
  function ResumeNext(s: Relay, q: RequestKey, acceptable: bool, l: Ledger, hookOk: bool): Relay
    requires q in s.records
  {
    if q !in s.accounts then Put(s, q, s.records[q].(phase := Done, active := false))
    else if s.cancelled || s.records[q].disconnected || !acceptable
    then Finalize(Put(s, q, s.records[q].(phase := Closing(false))), q, CancelCall(false), l, hookOk)
    else Put(s, q, s.records[q].(phase := Fetching, started := true))
  }

  /** A failed settlement falls into the handler's error path; any other failure stops the relay. */
  function FinishNext(s: Relay, q: RequestKey): Relay
    requires q in s.records && s.records[q].phase.Closing?
  {
    if q in s.accounts && s.accounts[q].finalization.Some? && s.accounts[q].finalization.value.threw then
      if s.records[q].phase.settling then Put(s, q, s.records[q].(phase := Failing))
      else Put(s, q, s.records[q].(phase := Done)).(cancelled := true)
    else Put(s, q, s.records[q].(phase := Done))
  }

  function RespondNext(s: Relay, q: RequestKey, usage: RawUsage, l: Ledger, hookOk: bool): Relay
    requires q in s.records
  {
    Finalize(Put(s, q, s.records[q].(phase := Closing(true))), q, SettleCall(usage, NormalizeUsage(usage).Some?), l, hookOk)
  }

  function GiveUpNext(s: Relay, q: RequestKey, l: Ledger, hookOk: bool): Relay
    requires q in s.records
  {
    Finalize(Put(s, q, s.records[q].(phase := Closing(false))), q, CancelCall(s.records[q].started), l, hookOk)
  }

  function SweepNext(s: Relay, q: RequestKey, l: Ledger, hookOk: bool): Relay
    requires q in s.records && s.records[q].sweeps > 0
  {
    var r := s.records[q].(sweeps := s.records[q].sweeps - 1);
    if q !in s.accounts then Put(s, q, r.(active := false))
    else Finalize(Put(s, q, r), q, CancelCall(r.started), l, hookOk)
  }

  /** Steps that make no budget call. */
  predicate Quiet(st: Step) {
    || st.Arrive? || st.Reject? || st.Resolve? || st.Break? || st.CallReturns? || st.Finish? || st.Disconnect?
    || st.CancelAll? || st.ServerFails?
  }

  function QuietNext(s: Relay, st: Step): Relay
    requires Quiet(st) && Enabled(s, st)
  {
    match st
    case Arrive(q) =>
      Put(s, q, Record(if s.cancelled then Done else Reading, Unasked, false, false, false, 0, false))
    case Reject(q) => Put(s, q, s.records[q].(phase := Done))
    case Resolve(q) => Put(s, q, s.records[q].(admission := Resolved))
    case Break(q) => Put(s, q, s.records[q].(phase := Failing))
    case CallReturns(q) => Put(s, q, s.records[q].(returned := true, active := false))
    case Finish(q) => FinishNext(s, q)
    case Disconnect(q) => Put(s, q, s.records[q].(disconnected := true))
    case CancelAll => s.(records := SweepAll(s), cancelled := true, swept := true)
    case ServerFails => s.(cancelled := true)
  }

  ghost function Next(s: Relay, st: Step): Relay
    requires Enabled(s, st)
  {
    if Quiet(st) then QuietNext(s, st)
    else match st
      case Ask(_, _, _, _, _, _, _, _) => AskNext(s, st)
      case Resume(q, acceptable, l, hookOk) => ResumeNext(s, q, acceptable, l, hookOk)
      case Respond(q, usage, l, hookOk) => RespondNext(s, q, usage, l, hookOk)
      case GiveUp(q, l, hookOk) => GiveUpNext(s, q, l, hookOk)
      case Sweep(q, l, hookOk) => SweepNext(s, q, l, hookOk)
      case CloseBudget(l) =>
        var o := Close(l, s.run, s.adapter);
        s.(run := o.run, adapter := o.adapter)
  }

  // ------------------------------------------- what holds of one request's record

  /** The record and account of one request, under the relay's two flags. */
  ghost predicate RequestOk(r: Record, a: Option<Account>, cancelled: bool, swept: bool) {
    var made := a.Some? && a.value.finalization.Some?;
    && (r.phase.Reading? ==> r.admission.Unasked?)
    && (r.admission.Unasked? ==> a.None? && !r.active && r.sweeps == 0 && (r.phase.Reading? || r.phase.Done?))
    && (r.admission.Pending? ==> r.phase.Admitting? && !made)
    && (r.phase.Admitting? ==> !r.started && !r.admission.Unasked?)
    && (r.phase.Fetching? || r.phase.Failing? ==> r.started)
    && (r.started ==> a.Some? && r.admission.Resolved?)
    && (r.phase.Closing? ==> made && (r.phase.settling ==> r.started))
    && (r.phase.Done? && a.Some? ==> made)
    && (a.Some? && !made ==> r.active)
    && (r.admission.Pending? ==> r.active)
    && (r.returned ==> made)
    && (r.sweeps > 0 ==> swept)
    && (made ==> CallFits(a.value.finalization.value.call, r.started))
    && (made && r.phase.Admitting? ==> cancelled)
    && (swept && r.admission.Pending? ==> r.sweeps > 0)
    && (swept && a.Some? && !made ==> r.sweeps > 0)
  }

  /** Only a request that never reached the provider is erased; only one that did is settled. */
  ghost predicate CallFits(call: Call, started: bool) {
    match call
    case SettleCall(usage, trusted) => started && (trusted <==> NormalizeUsage(usage).Some?)
    case CancelCall(ambiguous) => ambiguous == started
  }

  ghost function AccountOf(s: Relay, q: RequestKey): Option<Account> {
    if q in s.accounts then Some(s.accounts[q]) else None
  }

  ghost predicate RequestsOk(s: Relay) {
    && s.accounts.Keys <= s.records.Keys
    && (s.swept ==> s.cancelled)
    && forall q :: q in s.records ==> RequestOk(s.records[q], AccountOf(s, q), s.cancelled, s.swept)
  }

  /** A step of one request moves only that request. */
  ghost predicate OthersSame(s: Relay, q: RequestKey, s': Relay) {
    && s'.records.Keys == s.records.Keys + {q}
    && s.accounts.Keys <= s'.accounts.Keys <= s.accounts.Keys + {q}
    && (forall p :: p != q && p in s.records ==> s'.records[p] == s.records[p])
    && (forall p :: p != q && p in s.accounts ==> s'.accounts[p] == s.accounts[p])
  }

  /** A budget call concerns one account, and only if none was made for it before. */
  lemma FinalizeOnce(s: Relay, q: RequestKey, call: Call, l: Ledger, hookOk: bool)
    ensures var s' := Finalize(s, q, call, l, hookOk);
      && s'.records == s.records && s'.cancelled == s.cancelled && s'.swept == s.swept
      && s'.accounts.Keys == s.accounts.Keys
      && (forall p :: p in s.accounts && p != q ==> s'.accounts[p] == s.accounts[p])
      && (q in s.accounts ==>
            && s'.accounts[q].reservation == s.accounts[q].reservation
            && if s.accounts[q].finalization.Some? then s' == s
               else s'.accounts[q].finalization.Some? && s'.accounts[q].finalization.value.call == call)
  {
  }

  /** What a step of one request has to keep. */
  ghost predicate StepOk(s: Relay, q: RequestKey, s': Relay) {
    && OthersSame(s, q, s')
    && s'.swept == s.swept && (s.cancelled ==> s'.cancelled)
    && q in s'.records && RequestOk(s'.records[q], AccountOf(s', q), s'.cancelled, s'.swept)
  }

  /** A step that only rewrites one record. */
  lemma PutStepOk(s: Relay, q: RequestKey, r: Record, cancelled: bool)
    requires RequestsOk(s) && (q in s.accounts ==> q in s.records)
    requires RequestOk(r, AccountOf(s, q), s.cancelled || cancelled, s.swept)
    ensures StepOk(s, q, Put(s, q, r).(cancelled := s.cancelled || cancelled))
  {
  }

  lemma QuietStepOk(s: Relay, st: Step)
    requires RequestsOk(s) && Enabled(s, st)
    requires Quiet(st) && !st.Finish? && !st.CancelAll? && !st.ServerFails?
    ensures StepOk(s, st.q, QuietNext(s, st))
  {
    assert st.q in s.records ==> RequestOk(s.records[st.q], AccountOf(s, st.q), s.cancelled, s.swept);
  }

  lemma AskStepOk(s: Relay, st: Step)
    requires RequestsOk(s) && Enabled(s, st) && st.Ask?
    ensures StepOk(s, st.q, AskNext(s, st))
  {
    assert RequestOk(s.records[st.q], AccountOf(s, st.q), s.cancelled, s.swept);
  }

  /** A new record, then its budget call if none was made before. */
  lemma CallStepOk(s: Relay, q: RequestKey, r: Record, call: Call, l: Ledger, hookOk: bool)
    requires RequestsOk(s) && q in s.accounts && CallFits(call, r.started)
    requires var a := s.accounts[q];
      RequestOk(r, Some(if a.finalization.Some? then a else a.(finalization := Some(Finalization(call, true, true)))),
                s.cancelled, s.swept)
    ensures StepOk(s, q, Finalize(Put(s, q, r), q, call, l, hookOk))
  {
    FinalizeOnce(Put(s, q, r), q, call, l, hookOk);
  }

  lemma ResumeStepOk(s: Relay, st: Step)
    requires RequestsOk(s) && Enabled(s, st) && st.Resume?
    ensures StepOk(s, st.q, ResumeNext(s, st.q, st.acceptable, st.ledger, st.hookOk))
  {
    var r := s.records[st.q];
    assert RequestOk(r, AccountOf(s, st.q), s.cancelled, s.swept);
    if st.q in s.accounts && (s.cancelled || r.disconnected || !st.acceptable) {
      CallStepOk(s, st.q, r.(phase := Closing(false)), CancelCall(false), st.ledger, st.hookOk);
    }
  }

  lemma FinishStepOk(s: Relay, q: RequestKey)
    requires RequestsOk(s) && Enabled(s, Finish(q))
    ensures StepOk(s, q, FinishNext(s, q))
  {
    var r := s.records[q];
    assert RequestOk(r, AccountOf(s, q), s.cancelled, s.swept);
    if !s.accounts[q].finalization.value.threw {
      PutStepOk(s, q, r.(phase := Done), false);
    } else if r.phase.settling {
      PutStepOk(s, q, r.(phase := Failing), false);
    } else {
      PutStepOk(s, q, r.(phase := Done), true);
    }
  }

  lemma SweepStepOk(s: Relay, st: Step)
    requires RequestsOk(s) && Enabled(s, st) && st.Sweep?
    ensures StepOk(s, st.q, SweepNext(s, st.q, st.ledger, st.hookOk))
  {
    var r := s.records[st.q];
    assert RequestOk(r, AccountOf(s, st.q), s.cancelled, s.swept);
    if st.q in s.accounts {
      CallStepOk(s, st.q, r.(sweeps := r.sweeps - 1), CancelCall(r.started), st.ledger, st.hookOk);
    } else {
      PutStepOk(s, st.q, r.(sweeps := r.sweeps - 1, active := false), false);
    }
  }

  /** The fetch has ended: settle with what the stream said, or give up after an error. */
  lemma FetchEndStepOk(s: Relay, st: Step)
    requires RequestsOk(s) && Enabled(s, st) && (st.Respond? || st.GiveUp?)
    ensures StepOk(s, st.q, Next(s, st))
  {
    var r := s.records[st.q];
    assert RequestOk(r, AccountOf(s, st.q), s.cancelled, s.swept);
    if st.Respond? {
      CallStepOk(s, st.q, r.(phase := Closing(true)), SettleCall(st.usage, NormalizeUsage(st.usage).Some?), st.ledger, st.hookOk);
    } else {
      CallStepOk(s, st.q, r.(phase := Closing(false)), CancelCall(r.started), st.ledger, st.hookOk);
    }
  }

  lemma OneRequestStep(s: Relay, st: Step)
    requires RequestsOk(s) && Enabled(s, st) && !st.CancelAll? && !st.ServerFails? && !st.CloseBudget?
    ensures StepOk(s, st.q, Next(s, st))
  {
    if st.Ask? { AskStepOk(s, st); }
    else if st.Resume? { ResumeStepOk(s, st); }
    else if st.Respond? || st.GiveUp? { FetchEndStepOk(s, st); }
    else if st.Sweep? { SweepStepOk(s, st); }
    else if st.Finish? { FinishStepOk(s, st.q); }
    else { QuietStepOk(s, st); }
  }

  lemma GlobalStepKeepsRequests(s: Relay, st: Step)
    requires RequestsOk(s) && (st.CancelAll? || st.ServerFails? || st.CloseBudget?)
    ensures RequestsOk(Next(s, st))
  {
    var s' := Next(s, st);
    forall q | q in s'.records ensures RequestOk(s'.records[q], AccountOf(s', q), s'.cancelled, s'.swept) {
      assert RequestOk(s.records[q], AccountOf(s, q), s.cancelled, s.swept);
    }
  }

  lemma OthersStayOk(s: Relay, q: RequestKey, s': Relay)
    requires RequestsOk(s) && StepOk(s, q, s')
    ensures RequestsOk(s')
  {
    forall p | p in s'.records && p != q ensures RequestOk(s'.records[p], AccountOf(s', p), s'.cancelled, s'.swept) {
      assert RequestOk(s.records[p], AccountOf(s, p), s.cancelled, s.swept);
      assert AccountOf(s', p) == AccountOf(s, p);
    }
  }

  lemma StepKeepsRequests(s: Relay, st: Step)
    requires RequestsOk(s) && Enabled(s, st)
    ensures RequestsOk(Next(s, st))
  {
    if st.CancelAll? || st.ServerFails? || st.CloseBudget? {
      GlobalStepKeepsRequests(s, st);
    } else {
      OneRequestStep(s, st);
      OthersStayOk(s, st.q, Next(s, st));
    }
  }

  // ------------------------------------------------------------ where the money is

  ghost predicate Took(a: Account) {
    a.finalization.Some? && a.finalization.value.took
  }

  /** What the account's call charged: nothing while no call has taken effect. */
  ghost function Charged(a: Account): nat {
    if Took(a) then Charge(a.finalization.value.call, a.reservation) else 0
  }

  ghost function ChargedTo(accounts: map<RequestKey, Account>, q: RequestKey): int {
    if q in accounts then Charged(accounts[q]) else 0
  }

  ghost function TotalCharged(accounts: map<RequestKey, Account>): int {
    Sum(accounts.Keys, q => ChargedTo(accounts, q))
  }

  ghost predicate Names(accounts: map<RequestKey, Account>, q: RequestKey, id: ReservationId) {
    q in accounts && accounts[q].reservation.id == id
  }

  /** One account against the run it draws on. */
  ghost predicate AccountOk(a: Account, runId: string, serials: nat,
                            open: map<ReservationId, Reservation>, calls: multiset<ReservationId>)
  {
    var r := a.reservation;
    && r.id.runId == runId && r.id.serial < serials && r.reserved == WorstCase(r.inputBound, r.maxOutput)
    && (if Took(a) then r.id !in open else r.id in open && open[r.id] == r)
    && calls[r.id] == (if a.finalization.Some? then 1 else 0)
    && (a.finalization.Some? && !Took(a) ==> a.finalization.value.threw)
  }

  ghost predicate AccountsOk(s: Relay) {
    forall q :: q in s.accounts ==> AccountOk(s.accounts[q], s.run.id, s.serials, s.adapter.open, s.calls)
  }

  /** Every open reservation, and every call made, belongs to some account. */
  ghost predicate AllNamed(s: Relay) {
    forall id :: id in s.adapter.open || id in s.calls ==> exists q :: Names(s.accounts, q, id)
  }

  ghost predicate IdsDistinct(accounts: map<RequestKey, Account>) {
    forall p, q :: p in accounts && q in accounts && accounts[p].reservation.id == accounts[q].reservation.id ==> p == q
  }

  ghost predicate MoneyOk(s: Relay) {
    && InStep(s.run, s.adapter) && IdsDistinct(s.accounts)
    && AccountsOk(s) && AllNamed(s)
    && s.run.settled == TotalCharged(s.accounts)
  }

  lemma TotalAfter(accounts: map<RequestKey, Account>, q: RequestKey, a: Account)
    ensures TotalCharged(accounts[q := a]) == TotalCharged(accounts) - ChargedTo(accounts, q) + Charged(a)
  {
    var before := x => ChargedTo(accounts, x);
    var after := x => ChargedTo(accounts[q := a], x);
    assert accounts[q := a].Keys == accounts.Keys + {q};
    if q in accounts {
      assert accounts.Keys + {q} == accounts.Keys;
      Change(accounts.Keys, before, after, q);
    } else {
      Pick(accounts.Keys + {q}, after, q);
      assert accounts.Keys + {q} - {q} == accounts.Keys;
      Same(accounts.Keys, before, after);
    }
  }

  /** A budget call for one account: its whole effect, or none and an exception. */
  ghost predicate CallMade(s: Relay, q: RequestKey, f: Finalization, s': Relay) {
    && q in s.accounts && s.accounts[q].finalization.None?
    && var r := s.accounts[q].reservation;
    && s'.accounts == s.accounts[q := Account(r, Some(f))]
    && s'.serials == s.serials && s'.calls == s.calls + multiset{r.id}
    && s'.run.id == s.run.id && InStep(s'.run, s'.adapter)
    && s'.adapter.open == (if f.took then s.adapter.open - {r.id} else s.adapter.open)
    && s'.run.settled == s.run.settled + (if f.took then Charge(f.call, r) else 0)
    && (!f.took ==> f.threw)
  }

  lemma FinalizeCalls(s: Relay, q: RequestKey, call: Call, l: Ledger, hookOk: bool)
    requires MoneyOk(s) && q in s.accounts && s.accounts[q].finalization.None?
    ensures var s' := Finalize(s, q, call, l, hookOk);
      s'.accounts[q].finalization.Some? && CallMade(s, q, s'.accounts[q].finalization.value, s')
  {
    var a := s.accounts[q];
    assert AccountOk(a, s.run.id, s.serials, s.adapter.open, s.calls);
    PerformInStep(l, s.run, s.adapter, a.reservation.id, call, hookOk);
  }

  lemma CallKeepsNames(s: Relay, q: RequestKey, f: Finalization, s': Relay)
    requires AllNamed(s) && CallMade(s, q, f, s')
    ensures AllNamed(s')
  {
    forall id | id in s'.adapter.open || id in s'.calls ensures exists p :: Names(s'.accounts, p, id) {
      if id == s.accounts[q].reservation.id {
        assert Names(s'.accounts, q, id);
      } else {
        var p :| Names(s.accounts, p, id);
        assert Names(s'.accounts, p, id);
      }
    }
  }

  lemma CallKeepsAccounts(s: Relay, q: RequestKey, f: Finalization, s': Relay)
    requires IdsDistinct(s.accounts) && AccountsOk(s) && CallMade(s, q, f, s')
    ensures IdsDistinct(s'.accounts) && AccountsOk(s')
  {
    forall p | p in s'.accounts ensures AccountOk(s'.accounts[p], s'.run.id, s'.serials, s'.adapter.open, s'.calls) {
      assert AccountOk(s.accounts[p], s.run.id, s.serials, s.adapter.open, s.calls);
      assert AccountOk(s.accounts[q], s.run.id, s.serials, s.adapter.open, s.calls);
    }
  }

  lemma CallKeepsMoney(s: Relay, q: RequestKey, f: Finalization, s': Relay)
    requires MoneyOk(s) && CallMade(s, q, f, s')
    ensures MoneyOk(s')
  {
    CallKeepsNames(s, q, f, s');
    CallKeepsAccounts(s, q, f, s');
    TotalAfter(s.accounts, q, s'.accounts[q]);
  }

  lemma FinalizeKeepsMoney(s: Relay, q: RequestKey, call: Call, l: Ledger, hookOk: bool)
    requires MoneyOk(s)
    ensures MoneyOk(Finalize(s, q, call, l, hookOk))
  {
    if q in s.accounts && s.accounts[q].finalization.None? {
      FinalizeCalls(s, q, call, l, hookOk);
      var s' := Finalize(s, q, call, l, hookOk);
      CallKeepsMoney(s, q, s'.accounts[q].finalization.value, s');
    }
  }

  /** A reservation granted under a fresh id opens one account. */
  ghost predicate AccountOpened(s: Relay, q: RequestKey, r: Reservation, s': Relay) {
    && q !in s.accounts && s'.accounts == s.accounts[q := Account(r, None)]
    && s.serials <= r.id.serial < s'.serials && r.id.runId == s.run.id == s'.run.id
    && r.reserved == WorstCase(r.inputBound, r.maxOutput)
    && s'.calls == s.calls && InStep(s'.run, s'.adapter)
    && s'.adapter.open == s.adapter.open[r.id := r] && s'.run.settled == s.run.settled
  }

  lemma OpeningKeepsAccounts(s: Relay, q: RequestKey, r: Reservation, s': Relay)
    requires IdsDistinct(s.accounts) && AccountsOk(s) && AllNamed(s) && AccountOpened(s, q, r, s')
    ensures IdsDistinct(s'.accounts) && AccountsOk(s')
  {
    NewIdUnused(s, q, r, s');
    forall p | p in s'.accounts ensures AccountOk(s'.accounts[p], s'.run.id, s'.serials, s'.adapter.open, s'.calls) {
      if p != q {
        OpeningKeepsAccount(s.accounts[p], s, q, r, s');
      }
    }
  }

  /** No account and no call has the new reservation's id. */
  lemma NewIdUnused(s: Relay, q: RequestKey, r: Reservation, s': Relay)
    requires AccountsOk(s) && AllNamed(s) && AccountOpened(s, q, r, s')
    ensures r.id !in s.calls && forall p :: p in s.accounts ==> s.accounts[p].reservation.id != r.id
  {
    forall p | p in s.accounts ensures s.accounts[p].reservation.id != r.id {
      assert AccountOk(s.accounts[p], s.run.id, s.serials, s.adapter.open, s.calls);
    }
    forall id | id in s.calls ensures id != r.id {
      var p :| Names(s.accounts, p, id);
    }
  }

  lemma OpeningKeepsAccount(a: Account, s: Relay, q: RequestKey, r: Reservation, s': Relay)
    requires AccountOk(a, s.run.id, s.serials, s.adapter.open, s.calls) && AccountOpened(s, q, r, s')
    requires a.reservation.id != r.id
    ensures AccountOk(a, s'.run.id, s'.serials, s'.adapter.open, s'.calls)
  {
  }

  lemma OpeningKeepsNames(s: Relay, q: RequestKey, r: Reservation, s': Relay)
    requires AllNamed(s) && AccountOpened(s, q, r, s')
    ensures AllNamed(s')
  {
    forall id | id in s'.adapter.open || id in s'.calls ensures exists p :: Names(s'.accounts, p, id) {
      if id == r.id {
        assert Names(s'.accounts, q, id);
      } else {
        var p :| Names(s.accounts, p, id);
        assert Names(s'.accounts, p, id);
      }
    }
  }

  lemma OpeningKeepsMoney(s: Relay, q: RequestKey, r: Reservation, s': Relay)
    requires MoneyOk(s) && AccountOpened(s, q, r, s')
    ensures MoneyOk(s')
  {
    OpeningKeepsAccounts(s, q, r, s');
    OpeningKeepsNames(s, q, r, s');
    TotalAfter(s.accounts, q, Account(r, None));
  }

  lemma AskKeepsMoney(s: Relay, st: Step)
    requires MoneyOk(s) && st.Ask? && Enabled(s, st) && st.q !in s.accounts
    ensures MoneyOk(AskNext(s, st))
  {
    if !s.cancelled && !st.gone {
      AskInStep(st.ledger, s.run, s.adapter, st.bytes, st.request, st.today, st.durable, st.hookOk);
      var o := RelayBudgetRules.Ask(st.ledger, s.run, s.adapter, st.bytes, st.request, st.today, st.durable, st.hookOk);
      if o.grant.Some? {
        OpeningKeepsMoney(s, st.q, o.grant.value, AskNext(s, st));
      }
    }
  }

  /** Steps that leave the accounts alone leave the money alone. */
  lemma AccountsUntouched(s: Relay, s': Relay)
    requires MoneyOk(s) && InStep(s'.run, s'.adapter)
    requires s'.accounts == s.accounts && s'.calls == s.calls && s'.serials == s.serials
    requires s'.adapter.open == s.adapter.open && s'.run.settled == s.run.settled && s'.run.id == s.run.id
    ensures MoneyOk(s')
  {
    forall q | q in s'.accounts ensures AccountOk(s'.accounts[q], s'.run.id, s'.serials, s'.adapter.open, s'.calls) {
      assert AccountOk(s.accounts[q], s.run.id, s.serials, s.adapter.open, s.calls);
    }
  }

  lemma PutFinalizeKeepsMoney(s: Relay, q: RequestKey, r: Record, call: Call, l: Ledger, hookOk: bool)
    requires MoneyOk(s)
    ensures MoneyOk(Put(s, q, r)) && MoneyOk(Finalize(Put(s, q, r), q, call, l, hookOk))
  {
    AccountsUntouched(s, Put(s, q, r));
    FinalizeKeepsMoney(Put(s, q, r), q, call, l, hookOk);
  }

  lemma ResumeKeepsMoney(s: Relay, q: RequestKey, acceptable: bool, l: Ledger, hookOk: bool)
    requires MoneyOk(s) && q in s.records
    ensures MoneyOk(ResumeNext(s, q, acceptable, l, hookOk))
  {
    var r := s.records[q];
    PutFinalizeKeepsMoney(s, q, r.(phase := Closing(false)), CancelCall(false), l, hookOk);
    AccountsUntouched(s, Put(s, q, r.(phase := Done, active := false)));
    AccountsUntouched(s, Put(s, q, r.(phase := Fetching, started := true)));
  }

  lemma SweepKeepsMoney(s: Relay, q: RequestKey, l: Ledger, hookOk: bool)
    requires MoneyOk(s) && q in s.records && s.records[q].sweeps > 0
    ensures MoneyOk(SweepNext(s, q, l, hookOk))
  {
    var r := s.records[q].(sweeps := s.records[q].sweeps - 1);
    PutFinalizeKeepsMoney(s, q, r, CancelCall(r.started), l, hookOk);
    AccountsUntouched(s, Put(s, q, r.(active := false)));
  }

  lemma CloseKeepsMoney(s: Relay, l: Ledger)
    requires MoneyOk(s)
    ensures MoneyOk(Next(s, CloseBudget(l)))
  {
    AccountsUntouched(s, Next(s, CloseBudget(l)));
  }

  lemma QuietStepNoCall(s: Relay, st: Step)
    requires Enabled(s, st) && Quiet(st)
    ensures var s' := QuietNext(s, st);
      s'.accounts == s.accounts && s'.run == s.run && s'.adapter == s.adapter && s'.serials == s.serials && s'.calls == s.calls
  {
  }

  lemma QuietStepKeepsMoney(s: Relay, st: Step)
    requires MoneyOk(s) && Enabled(s, st) && Quiet(st)
    ensures MoneyOk(QuietNext(s, st))
  {
    QuietStepNoCall(s, st);
    AccountsUntouched(s, QuietNext(s, st));
  }

  lemma StepKeepsMoney(s: Relay, st: Step)
    requires RequestsOk(s) && MoneyOk(s) && Enabled(s, st)
    ensures MoneyOk(Next(s, st))
  {
    if st.Resume? {
      ResumeKeepsMoney(s, st.q, st.acceptable, st.ledger, st.hookOk);
    } else if st.Respond? {
      PutFinalizeKeepsMoney(s, st.q, s.records[st.q].(phase := Closing(true)),
                            SettleCall(st.usage, NormalizeUsage(st.usage).Some?), st.ledger, st.hookOk);
    } else if st.GiveUp? {
      PutFinalizeKeepsMoney(s, st.q, s.records[st.q].(phase := Closing(false)),
                            CancelCall(s.records[st.q].started), st.ledger, st.hookOk);
    } else if st.Sweep? {
      SweepKeepsMoney(s, st.q, st.ledger, st.hookOk);
    } else if st.Ask? {
      assert RequestOk(s.records[st.q], AccountOf(s, st.q), s.cancelled, s.swept);
      AskKeepsMoney(s, st);
    } else if st.CloseBudget? {
      CloseKeepsMoney(s, st.ledger);
    } else {
      QuietStepKeepsMoney(s, st);
    }
  }

  // ------------------------------------------------------------- over whole runs

  ghost function Exec(run: Run, steps: seq<Step>): Option<Relay> {
    if steps == [] then Some(NewRelay(run))
    else
      var before := Exec(run, steps[..|steps| - 1]);
      if before.None? || !Enabled(before.value, steps[|steps| - 1]) then None
      else Some(Next(before.value, steps[|steps| - 1]))
  }

  /** A run just opened: nothing reserved, nothing settled. */
  predicate Opened(run: Run) {
    run.live == map[] && run.settled == 0 && !run.closed
  }

  lemma {:induction false} AlwaysOk(run: Run, steps: seq<Step>)
    requires Opened(run) && Exec(run, steps).Some?
    ensures RequestsOk(Exec(run, steps).value) && MoneyOk(Exec(run, steps).value)
  {
    if steps != [] {
      AlwaysOk(run, steps[..|steps| - 1]);
      var s := Exec(run, steps[..|steps| - 1]).value;
      StepKeepsRequests(s, steps[|steps| - 1]);
      StepKeepsMoney(s, steps[|steps| - 1]);
    }
  }

  /**
   Over every interleaving, a reservation receives at most one budget call, and
   exactly one by the time its handler is done.
   */
  lemma OneCallPerReservation(run: Run, steps: seq<Step>, q: RequestKey)
    requires Opened(run) && Exec(run, steps).Some?
    ensures var s := Exec(run, steps).value;
      && (forall id :: s.calls[id] <= 1)
      && (q in s.accounts ==> q in s.records)
      && (q in s.accounts && s.records[q].phase.Done? ==> s.calls[s.accounts[q].reservation.id] == 1)
  {
    AlwaysOk(run, steps);
    var s := Exec(run, steps).value;
    forall id ensures s.calls[id] <= 1 {
      if id in s.calls {
        var p :| Names(s.accounts, p, id);
        assert AccountOk(s.accounts[p], s.run.id, s.serials, s.adapter.open, s.calls);
      }
    }
    if q in s.accounts {
      assert RequestOk(s.records[q], AccountOf(s, q), s.cancelled, s.swept);
      assert AccountOk(s.accounts[q], s.run.id, s.serials, s.adapter.open, s.calls);
    }
  }

  /**
   A call erases the charge exactly when the provider request was never started.
   Otherwise the charge is the trusted usage the response reported, or the full
   worst case the reservation holds.
   */
  lemma StartedIsCharged(run: Run, steps: seq<Step>, q: RequestKey)
    requires Opened(run) && Exec(run, steps).Some?
    requires q in Exec(run, steps).value.accounts && Exec(run, steps).value.accounts[q].finalization.Some?
    ensures var s := Exec(run, steps).value;
      var a := s.accounts[q];
      var call := a.finalization.value.call;
      && q in s.records
      && (s.records[q].started <==> call != CancelCall(false))
      && Charge(call, a.reservation) ==
           (if !s.records[q].started then 0
            else if call.SettleCall? && NormalizeUsage(call.usage).Some? then CostOf(NormalizeUsage(call.usage).value)
            else a.reservation.reserved)
  {
    AlwaysOk(run, steps);
    var s := Exec(run, steps).value;
    assert RequestOk(s.records[q], AccountOf(s, q), s.cancelled, s.swept);
    assert AccountOk(s.accounts[q], s.run.id, s.serials, s.adapter.open, s.calls);
  }

  /** Whatever the provider really charged, up to the worst case, is covered by the call. */
  lemma IncurredIsCovered(run: Run, steps: seq<Step>, q: RequestKey, incurred: nat)
    requires Opened(run) && Exec(run, steps).Some?
    requires q in Exec(run, steps).value.accounts && Exec(run, steps).value.accounts[q].finalization.Some?
    requires var s := Exec(run, steps).value;
      var call := s.accounts[q].finalization.value.call;
      && (incurred > 0 ==> q in s.records && s.records[q].started)
      && incurred <= s.accounts[q].reservation.reserved
      && (call.SettleCall? && NormalizeUsage(call.usage).Some? ==> incurred <= CostOf(NormalizeUsage(call.usage).value))
    ensures var a := Exec(run, steps).value.accounts[q];
      incurred <= Charge(a.finalization.value.call, a.reservation)
  {
    StartedIsCharged(run, steps, q);
  }

  /**
   The run has settled exactly the sum of what took effect, and holds exactly the
   reservations for which no call has.
   */
  lemma RunMatchesRequests(run: Run, steps: seq<Step>)
    requires Opened(run) && Exec(run, steps).Some?
    ensures var s := Exec(run, steps).value;
      && s.run.settled == s.adapter.cost == TotalCharged(s.accounts)
      && s.run.live.Keys == set q | q in s.accounts && !Took(s.accounts[q]) :: s.accounts[q].reservation.id
  {
    AlwaysOk(run, steps);
    var s := Exec(run, steps).value;
    forall id ensures id in s.run.live <==> exists q :: Names(s.accounts, q, id) && !Took(s.accounts[q]) {
      forall q | Names(s.accounts, q, id) ensures id in s.run.live <==> !Took(s.accounts[q]) {
        assert AccountOk(s.accounts[q], s.run.id, s.serials, s.adapter.open, s.calls);
      }
    }
  }

  lemma StoppedStep(s: Relay, st: Step)
    requires Enabled(s, st) && s.cancelled
    ensures Next(s, st).accounts.Keys == s.accounts.Keys && Next(s, st).cancelled
  {
  }

  /** Once the relay is stopped, however the run goes on, no new reservation is made. */
  lemma {:induction false} NothingReservedAfterStop(run: Run, steps: seq<Step>, more: seq<Step>)
    requires Exec(run, steps).Some? && Exec(run, steps).value.cancelled && Exec(run, steps + more).Some?
    ensures Exec(run, steps + more).value.cancelled
    ensures Exec(run, steps + more).value.accounts.Keys == Exec(run, steps).value.accounts.Keys
    decreases |more|
  {
    if more == [] {
      assert steps + more == steps;
    } else {
      var fewer := more[..|more| - 1];
      assert (steps + more)[..|steps + more| - 1] == steps + fewer;
      NothingReservedAfterStop(run, steps, fewer);
      StoppedStep(Exec(run, steps + fewer).value, more[|more| - 1]);
    }
  }

  /**
   Once cancel has been called and its sweeps have all run, every reservation ever
   granted has had its call, whatever the handlers are still doing; if the calls
   took effect, nothing is left open and the budget closes.
   */
  lemma CancelDrains(run: Run, steps: seq<Step>, l: Ledger)
    requires Opened(run) && Exec(run, steps).Some?
    requires var s := Exec(run, steps).value; s.swept && forall q :: q in s.records ==> s.records[q].sweeps == 0
    ensures var s := Exec(run, steps).value;
      && (forall q :: q in s.accounts ==> s.accounts[q].finalization.Some?)
      && ((forall q :: q in s.accounts ==> Took(s.accounts[q])) ==>
            s.run.live == map[] && !Close(l, s.run, s.adapter).threw)
  {
    AlwaysOk(run, steps);
    RunMatchesRequests(run, steps);
    var s := Exec(run, steps).value;
    forall q | q in s.accounts ensures s.accounts[q].finalization.Some? {
      assert RequestOk(s.records[q], AccountOf(s, q), s.cancelled, s.swept);
    }
    if forall q :: q in s.accounts ==> Took(s.accounts[q]) {
      assert s.run.live.Keys == {};
    }
  }
}
