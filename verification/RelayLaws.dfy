/** What a request costs, in numbers, and that one which nothing disturbs goes through. */
module RelayLaws {
  import opened Prelude
  import opened BudgetDays
  import opened BudgetRules
  import opened RelayBudgetRules
  import opened RelayRuns

  // --------------------------------------------------------- what a request reserves

  /** The reservation of a request stays with it. */
  lemma ReservationStays(s: Relay, st: Step, q: RequestKey)
    requires RequestsOk(s) && Enabled(s, st) && q in s.accounts
    ensures q in Next(s, st).accounts && Next(s, st).accounts[q].reservation == s.accounts[q].reservation
  {
    assert RequestOk(s.records[q], AccountOf(s, q), s.cancelled, s.swept);
    if !st.CancelAll? && !st.ServerFails? && !st.CloseBudget? && st.q != q {
      OneRequestStep(s, st);
    } else if Quiet(st) {
      QuietStepNoCall(s, st);
    } else if !st.Ask? && !st.CloseBudget? {
      CallKeepsReservation(s, st);
    }
  }

  lemma CallKeepsReservation(s: Relay, st: Step)
    requires Enabled(s, st) && (st.Resume? || st.Respond? || st.GiveUp? || st.Sweep?) && st.q in s.accounts
    ensures st.q in Next(s, st).accounts && Next(s, st).accounts[st.q].reservation == s.accounts[st.q].reservation
  {
    var q, r := st.q, s.records[st.q];
    match st
    case Resume(_, _, l, hookOk) =>
      FinalizeOnce(Put(s, q, r.(phase := Closing(false))), q, CancelCall(false), l, hookOk);
    case Respond(_, usage, l, hookOk) =>
      FinalizeOnce(Put(s, q, r.(phase := Closing(true))), q, SettleCall(usage, NormalizeUsage(usage).Some?), l, hookOk);
    case GiveUp(_, l, hookOk) =>
      FinalizeOnce(Put(s, q, r.(phase := Closing(false))), q, CancelCall(r.started), l, hookOk);
    case Sweep(_, l, hookOk) =>
      FinalizeOnce(Put(s, q, r.(sweeps := r.sweeps - 1)), q, CancelCall(r.started), l, hookOk);
  }

  /** The body counts as one token per byte, with four for the role and sixteen for the message. */
  lemma BodyBound(bytes: nat)
    ensures PromptBound(BodyAsMessages(bytes)) == bytes + 20
  {
    assert BodyAsMessages(bytes)[..0] == [];
  }

  /** Step `k` asked for the request, and was granted its reservation. */
  ghost predicate AskedAt(run: Run, steps: seq<Step>, k: nat, q: RequestKey)
    requires k < |steps|
  {
    && steps[k].Ask? && steps[k].q == q
    && Exec(run, steps[..k]).Some? && Enabled(Exec(run, steps[..k]).value, steps[k])
    && q !in Exec(run, steps[..k]).value.accounts && q in Next(Exec(run, steps[..k]).value, steps[k]).accounts
  }

  /** The reservation covers every byte of the body and every token it may be answered with. */
  predicate CoversBody(r: Reservation, bytes: int) {
    r.inputBound == bytes + 20 && 1 <= r.maxOutput <= 4096 && r.reserved == 44 * (bytes + 20) + 132 * r.maxOutput
  }

  lemma AskCovers(s: Relay, st: Step)
    requires st.Ask? && Enabled(s, st) && st.q !in s.accounts && st.q in Next(s, st).accounts
    ensures CoversBody(Next(s, st).accounts[st.q].reservation, st.bytes)
  {
    BodyBound(st.bytes);
    var bound := PromptBound(BodyAsMessages(st.bytes));
    assert Reserve(st.ledger, s.run, st.today, st.durable, bound, st.request, st.hookOk).result.Reserved?;
    GrantFitsBothCeilings(st.ledger, s.run, st.today, st.durable, bound, st.request, st.hookOk);
  }

  /** Over every run: the reservation of a request covers the body with which it was asked for, to the end. */
  lemma {:induction false} ReservationCoversBody(run: Run, steps: seq<Step>, k: nat, q: RequestKey)
    requires Opened(run) && Exec(run, steps).Some? && k < |steps| && AskedAt(run, steps, k, q)
    ensures q in Exec(run, steps).value.accounts
    ensures CoversBody(Exec(run, steps).value.accounts[q].reservation, steps[k].bytes)
    decreases |steps|
  {
    var n := |steps| - 1;
    var s := Exec(run, steps[..n]).value;
    if k == n {
      AskCovers(s, steps[n]);
    } else {
      assert steps[..n][..k] == steps[..k];
      ReservationCoversBody(run, steps[..n], k, q);
      AlwaysOk(run, steps[..n]);
      ReservationStays(s, steps[n], q);
    }
  }

  /** What the call for a request charges, in the numbers of its body and its answer. */
  lemma StartedCosts(run: Run, steps: seq<Step>, k: nat, q: RequestKey)
    requires Opened(run) && Exec(run, steps).Some? && k < |steps| && AskedAt(run, steps, k, q)
    requires q in Exec(run, steps).value.accounts && Exec(run, steps).value.accounts[q].finalization.Some?
    ensures var s := Exec(run, steps).value;
      var a := s.accounts[q];
      var call := a.finalization.value.call;
      && q in s.records
      && (!s.records[q].started ==> Charge(call, a.reservation) == 0)
      && (s.records[q].started && !(call.SettleCall? && NormalizeUsage(call.usage).Some?) ==>
            Charge(call, a.reservation) == 44 * (steps[k].bytes + 20) + 132 * a.reservation.maxOutput)
      && (s.records[q].started && call.SettleCall? && NormalizeUsage(call.usage).Some? ==>
            call.usage.Reported? && Charge(call, a.reservation) == 44 * call.usage.prompt + 132 * call.usage.completion)
  {
    StartedIsCharged(run, steps, q);
    ReservationCoversBody(run, steps, k, q);
  }

  // --------------------------------------------------------------------- when a call throws

  /** A call throws exactly if nothing is open under its name, its hook fails, or it settles trusted usage beyond the bounds. */
  lemma ThrowsIff(l: Ledger, run: Run, a: Adapter, id: ReservationId, call: Call, hookOk: bool)
    requires InStep(run, a) && (id in a.open ==> a.open[id].id == id)
    ensures Perform(l, run, a, id, call, hookOk).threw
       <==> id !in a.open || !hookOk
            || (call.SettleCall? && call.trusted && NormalizeUsage(call.usage).Some?
                && (call.usage.prompt > a.open[id].inputBound || call.usage.completion > a.open[id].maxOutput))
  {
    PerformInStep(l, run, a, id, call, hookOk);
  }

  /** The budget closes exactly when nothing is open, and then it grants nothing more. */
  lemma ClosesIff(l: Ledger, run: Run, a: Adapter, bytes: int, request: real, today: Day, durable: Option<nat>, hookOk: bool)
    requires InStep(run, a)
    ensures !Close(l, run, a).threw <==> a.open == map[]
    ensures var o := Close(l, run, a);
      InStep(o.run, o.adapter) && o.adapter.closed == (a.open == map[])
      && (!o.threw ==> RelayBudgetRules.Ask(o.ledger, o.run, o.adapter, bytes, request, today, durable, hookOk).grant.None?)
  {
  }

  /** The handler of this request has ended with a call that threw only if the relay is stopped. */
  ghost predicate StopsFor(s: Relay, q: RequestKey) {
    (q in s.records && q in s.accounts && s.records[q].phase.Done? && s.accounts[q].finalization.Some?
     && s.accounts[q].finalization.value.threw) ==> s.cancelled
  }

  lemma CallStops(s: Relay, st: Step)
    requires RequestsOk(s) && Enabled(s, st) && (st.Resume? || st.Respond? || st.GiveUp? || st.Sweep?) && StopsFor(s, st.q)
    ensures StopsFor(Next(s, st), st.q)
  {
    var q, r := st.q, s.records[st.q];
    assert RequestOk(r, AccountOf(s, q), s.cancelled, s.swept);
    match st
    case Resume(_, _, l, hookOk) =>
      FinalizeOnce(Put(s, q, r.(phase := Closing(false))), q, CancelCall(false), l, hookOk);
    case Respond(_, usage, l, hookOk) =>
      FinalizeOnce(Put(s, q, r.(phase := Closing(true))), q, SettleCall(usage, NormalizeUsage(usage).Some?), l, hookOk);
    case GiveUp(_, l, hookOk) =>
      FinalizeOnce(Put(s, q, r.(phase := Closing(false))), q, CancelCall(r.started), l, hookOk);
    case Sweep(_, l, hookOk) =>
      FinalizeOnce(Put(s, q, r.(sweeps := r.sweeps - 1)), q, CancelCall(r.started), l, hookOk);
  }

  lemma StepStops(s: Relay, st: Step, q: RequestKey)
    requires RequestsOk(s) && Enabled(s, st) && StopsFor(s, q)
    ensures StopsFor(Next(s, st), q)
  {
    if st.CancelAll? || st.ServerFails? || st.CloseBudget? {
    } else if st.q != q {
      OneRequestStep(s, st);
    } else if Quiet(st) {
      assert q in s.records ==> RequestOk(s.records[q], AccountOf(s, q), s.cancelled, s.swept);
    } else if !st.Ask? {
      CallStops(s, st);
    } else {
      assert RequestOk(s.records[q], AccountOf(s, q), s.cancelled, s.swept);
    }
  }

  /** Over every run: no handler ends with a call that threw and lets the relay go on. */
  lemma {:induction false} FailedCallStopsTheRelay(run: Run, steps: seq<Step>, q: RequestKey)
    requires Opened(run) && Exec(run, steps).Some?
    ensures StopsFor(Exec(run, steps).value, q)
  {
    if steps != [] {
      FailedCallStopsTheRelay(run, steps[..|steps| - 1], q);
      AlwaysOk(run, steps[..|steps| - 1]);
      StepStops(Exec(run, steps[..|steps| - 1]).value, steps[|steps| - 1], q);
    }
  }

  // ------------------------------------------------------------------ the totals it reports

  predicate Priced(a: Adapter) {
    a.cost == 44 * a.input + 132 * a.output
  }

  lemma PerformPriced(l: Ledger, run: Run, a: Adapter, id: ReservationId, call: Call, hookOk: bool)
    requires Priced(a)
    ensures Priced(Perform(l, run, a, id, call, hookOk).adapter)
  {
  }

  lemma StepPriced(s: Relay, st: Step)
    requires Enabled(s, st) && Priced(s.adapter)
    ensures Priced(Next(s, st).adapter)
  {
    if Quiet(st) {
      QuietStepNoCall(s, st);
    } else if !st.CloseBudget? && !st.Ask? && st.q in s.accounts {
      CallPriced(s, st);
    }
  }

  lemma CallPriced(s: Relay, st: Step)
    requires Enabled(s, st) && Priced(s.adapter) && (st.Resume? || st.Respond? || st.GiveUp? || st.Sweep?) && st.q in s.accounts
    ensures Priced(Next(s, st).adapter)
  {
    var id, r := s.accounts[st.q].reservation.id, s.records[st.q];
    match st
    case Resume(_, _, l, hookOk) => PerformPriced(l, s.run, s.adapter, id, CancelCall(false), hookOk);
    case Respond(_, usage, l, hookOk) =>
      PerformPriced(l, s.run, s.adapter, id, SettleCall(usage, NormalizeUsage(usage).Some?), hookOk);
    case GiveUp(_, l, hookOk) => PerformPriced(l, s.run, s.adapter, id, CancelCall(r.started), hookOk);
    case Sweep(_, l, hookOk) => PerformPriced(l, s.run, s.adapter, id, CancelCall(r.started), hookOk);
  }

  /** Over every run the cost the budget reports is the price of the tokens it reports. */
  lemma {:induction false} TotalsArePriced(run: Run, steps: seq<Step>)
    requires Exec(run, steps).Some?
    ensures Exec(run, steps).value.adapter.cost
         == 44 * Exec(run, steps).value.adapter.input + 132 * Exec(run, steps).value.adapter.output
  {
    if steps != [] {
      TotalsArePriced(run, steps[..|steps| - 1]);
      StepPriced(Exec(run, steps[..|steps| - 1]).value, steps[|steps| - 1]);
    }
  }

  // ------------------------------------------------------ a request that nothing disturbs

  /** The budget has room for the request and its hooks work. */
  ghost predicate Admissible(s: Relay, bytes: int, request: real, l: Ledger, today: Day, durable: Option<nat>) {
    && !s.cancelled && !s.adapter.closed && 0 <= bytes <= MAX_REQUEST_BYTES && s.serials <= l.nextSerial
    && Reserve(l, s.run, today, durable, PromptBound(BodyAsMessages(bytes)), request, true).result.Reserved?
  }

  /** Where the handler of a request stands with its reservation. */
  ghost predicate Waiting(s: Relay, q: RequestKey, phase: Phase, bytes: int, settled: int) {
    && RequestsOk(s) && MoneyOk(s) && !s.cancelled && s.run.settled == settled && !s.run.closed
    && q in s.records && q in s.accounts && s.accounts[q].finalization.None? && !s.records[q].disconnected
    && s.records[q].phase == phase && CoversBody(s.accounts[q].reservation, bytes)
  }

  lemma ArrivesAndAsks(s: Relay, q: RequestKey, bytes: int, request: real, l: Ledger, today: Day, durable: Option<nat>)
    returns (s': Relay)
    requires RequestsOk(s) && MoneyOk(s) && q !in s.records && Admissible(s, bytes, request, l, today, durable)
    ensures Enabled(s, Arrive(q)) && Enabled(Next(s, Arrive(q)), RelayRuns.Ask(q, false, bytes, request, l, today, durable, true))
    ensures s' == Next(Next(s, Arrive(q)), RelayRuns.Ask(q, false, bytes, request, l, today, durable, true))
    ensures Waiting(s', q, Admitting, bytes, s.run.settled) && s'.records[q].admission.Pending?
  {
    var s1, ask := Next(s, Arrive(q)), RelayRuns.Ask(q, false, bytes, request, l, today, durable, true);
    StepKeepsRequests(s, Arrive(q));
    StepKeepsMoney(s, Arrive(q));
    StepKeepsRequests(s1, ask);
    StepKeepsMoney(s1, ask);
    s' := Next(s1, ask);
    AskCovers(s1, ask);
  }

  lemma IsFetched(s: Relay, q: RequestKey, bytes: int, l: Ledger, hookOk: bool) returns (s': Relay)
    requires Waiting(s, q, Admitting, bytes, s.run.settled) && s.records[q].admission.Pending?
    ensures Enabled(s, Resolve(q)) && Enabled(Next(s, Resolve(q)), Resume(q, true, l, hookOk))
    ensures s' == Next(Next(s, Resolve(q)), Resume(q, true, l, hookOk)) && Waiting(s', q, Fetching, bytes, s.run.settled)
  {
    var s1 := Next(s, Resolve(q));
    StepKeepsRequests(s, Resolve(q));
    StepKeepsMoney(s, Resolve(q));
    StepKeepsRequests(s1, Resume(q, true, l, hookOk));
    StepKeepsMoney(s1, Resume(q, true, l, hookOk));
    s' := Next(s1, Resume(q, true, l, hookOk));
  }

  /** The call took effect: the run has paid `cost`, and the reservation is gone. */
  ghost predicate Paid(s: Relay, q: RequestKey, settling: bool, settled: int) {
    && !s.cancelled && s.run.settled == settled && q in s.records && s.records[q].phase == Closing(settling) && !s.records[q].returned
    && q in s.accounts && Took(s.accounts[q]) && !s.accounts[q].finalization.value.threw
    && s.accounts[q].reservation.id !in s.run.live
  }

  lemma AnswerIsSettled(s: Relay, q: RequestKey, bytes: int, p: nat, c: nat, l: Ledger) returns (s': Relay)
    requires Waiting(s, q, Fetching, bytes, s.run.settled)
    requires WithinBounds(Usage(p, c), s.accounts[q].reservation) && p + c <= MAX_SAFE_INTEGER
    ensures Enabled(s, Respond(q, Reported(p, c, p + c), l, true))
    ensures s' == Next(s, Respond(q, Reported(p, c, p + c), l, true)) && Paid(s', q, true, s.run.settled + 44 * p + 132 * c)
  {
    s' := Next(s, Respond(q, Reported(p, c, p + c), l, true));
    assert AccountOk(s.accounts[q], s.run.id, s.serials, s.adapter.open, s.calls);
  }

  lemma FailureIsCharged(s: Relay, q: RequestKey, bytes: int, l: Ledger) returns (s': Relay)
    requires Waiting(s, q, Fetching, bytes, s.run.settled)
    ensures Enabled(s, Break(q)) && Enabled(Next(s, Break(q)), GiveUp(q, l, true))
    ensures s' == Next(Next(s, Break(q)), GiveUp(q, l, true))
    ensures Paid(s', q, false, s.run.settled + 44 * (bytes + 20) + 132 * s.accounts[q].reservation.maxOutput)
  {
    s' := Next(Next(s, Break(q)), GiveUp(q, l, true));
    assert AccountOk(s.accounts[q], s.run.id, s.serials, s.adapter.open, s.calls);
    assert RequestOk(s.records[q], AccountOf(s, q), s.cancelled, s.swept);
  }

  lemma GoneIsErased(s: Relay, q: RequestKey, bytes: int, acceptable: bool, l: Ledger) returns (s': Relay)
    requires Waiting(s, q, Admitting, bytes, s.run.settled) && s.records[q].admission.Pending?
    ensures Enabled(s, Disconnect(q)) && Enabled(Next(s, Disconnect(q)), Resolve(q))
    ensures Enabled(Next(Next(s, Disconnect(q)), Resolve(q)), Resume(q, acceptable, l, true))
    ensures s' == Next(Next(Next(s, Disconnect(q)), Resolve(q)), Resume(q, acceptable, l, true)) && Paid(s', q, false, s.run.settled)
  {
    s' := Next(Next(Next(s, Disconnect(q)), Resolve(q)), Resume(q, acceptable, l, true));
    assert AccountOk(s.accounts[q], s.run.id, s.serials, s.adapter.open, s.calls);
  }

  lemma PaidIsDone(s: Relay, q: RequestKey, settling: bool, settled: int) returns (s': Relay)
    requires Paid(s, q, settling, settled)
    ensures Enabled(s, CallReturns(q)) && Enabled(Next(s, CallReturns(q)), Finish(q))
    ensures s' == Next(Next(s, CallReturns(q)), Finish(q))
    ensures s'.records[q].phase.Done? && !s'.records[q].active && !s'.cancelled && s'.run.settled == settled
  {
    s' := Next(Next(s, CallReturns(q)), Finish(q));
  }

  lemma Follow(run: Run, steps: seq<Step>, s: Relay, st: Step)
    requires Exec(run, steps) == Some(s) && Enabled(s, st)
    ensures Exec(run, steps + [st]) == Some(Next(s, st))
  {
    assert (steps + [st])[..|steps|] == steps;
  }

  lemma FollowTwo(run: Run, steps: seq<Step>, s: Relay, first: Step, second: Step) returns (more: seq<Step>)
    requires Exec(run, steps) == Some(s) && Enabled(s, first) && Enabled(Next(s, first), second)
    ensures steps <= more && Exec(run, more) == Some(Next(Next(s, first), second))
  {
    Follow(run, steps, s, first);
    Follow(run, steps + [first], Next(s, first), second);
    more := steps + [first] + [second];
  }

  /** The run goes on from `before` to a state in which the handler has ended, the relay goes on, and this much is paid. */
  ghost predicate EndsWell(run: Run, before: seq<Step>, after: seq<Step>, q: RequestKey, paid: int) {
    && before <= after && Exec(run, before).Some? && Exec(run, after).Some?
    && var s := Exec(run, after).value;
       q in s.records && s.records[q].phase.Done? && !s.records[q].active && !s.cancelled
       && s.run.settled == Exec(run, before).value.run.settled + paid
  }

  ghost function Granted(s: Relay, bytes: nat, request: real, l: Ledger, today: Day, durable: Option<nat>): Reservation
    requires Admissible(s, bytes, request, l, today, durable)
  {
    Reserve(l, s.run, today, durable, PromptBound(BodyAsMessages(bytes)), request, true).result.reservation
  }

  /** Ask for the request, in any reachable state with room for it. */
  lemma Asking(run: Run, before: seq<Step>, q: RequestKey, bytes: int, request: real, l: Ledger, today: Day, durable: Option<nat>)
    returns (after: seq<Step>, s: Relay)
    requires Opened(run) && Exec(run, before).Some? && q !in Exec(run, before).value.records
    requires Admissible(Exec(run, before).value, bytes, request, l, today, durable)
    ensures before <= after && Exec(run, after) == Some(s) && s.run.settled == Exec(run, before).value.run.settled
    ensures Waiting(s, q, Admitting, bytes, s.run.settled) && s.records[q].admission.Pending?
    ensures s.accounts[q].reservation == Granted(Exec(run, before).value, bytes, request, l, today, durable)
  {
    AlwaysOk(run, before);
    var start := Exec(run, before).value;
    s := ArrivesAndAsks(start, q, bytes, request, l, today, durable);
    after := FollowTwo(run, before, start, Arrive(q), RelayRuns.Ask(q, false, bytes, request, l, today, durable, true));
  }

  /** And send it. */
  lemma Sending(run: Run, before: seq<Step>, q: RequestKey, bytes: int, request: real, l: Ledger, today: Day, durable: Option<nat>)
    returns (after: seq<Step>, s: Relay)
    requires Opened(run) && Exec(run, before).Some? && q !in Exec(run, before).value.records
    requires Admissible(Exec(run, before).value, bytes, request, l, today, durable)
    ensures before <= after && Exec(run, after) == Some(s) && s.run.settled == Exec(run, before).value.run.settled
    ensures Waiting(s, q, Fetching, bytes, s.run.settled)
    ensures s.accounts[q].reservation == Granted(Exec(run, before).value, bytes, request, l, today, durable)
  {
    var asking, asked := Asking(run, before, q, bytes, request, l, today, durable);
    s := IsFetched(asked, q, bytes, l, true);
    after := FollowTwo(run, asking, asked, Resolve(q), Resume(q, true, l, true));
    ReservationStays(asked, Resolve(q), q);
    StepKeepsRequests(asked, Resolve(q));
    ReservationStays(Next(asked, Resolve(q)), Resume(q, true, l, true), q);
  }

  lemma Ending(run: Run, before: seq<Step>, so_far: seq<Step>, s: Relay, q: RequestKey, settling: bool) returns (after: seq<Step>)
    requires Exec(run, before).Some? && before <= so_far && Exec(run, so_far) == Some(s) && Paid(s, q, settling, s.run.settled)
    ensures EndsWell(run, before, after, q, s.run.settled - Exec(run, before).value.run.settled)
  {
    var end := PaidIsDone(s, q, settling, s.run.settled);
    after := FollowTwo(run, so_far, s, CallReturns(q), Finish(q));
  }

  /**
   In every reachable state: a request the budget has room for, which nothing disturbs, is
   sent, and its answer is settled at the tokens it reports.
   */
  lemma AnswerGoesThrough(run: Run, before: seq<Step>, q: RequestKey, bytes: int, request: real, l: Ledger, today: Day,
                          durable: Option<nat>, p: nat, c: nat) returns (after: seq<Step>)
    requires Opened(run) && Exec(run, before).Some? && q !in Exec(run, before).value.records
    requires Admissible(Exec(run, before).value, bytes, request, l, today, durable) && p + c <= MAX_SAFE_INTEGER
    requires WithinBounds(Usage(p, c), Granted(Exec(run, before).value, bytes, request, l, today, durable))
    ensures EndsWell(run, before, after, q, 44 * p + 132 * c)
  {
    var fetching, fetched := Sending(run, before, q, bytes, request, l, today, durable);
    var settled := AnswerIsSettled(fetched, q, bytes, p, c, l);
    var respond := Respond(q, Reported(p, c, p + c), l, true);
    Follow(run, fetching, fetched, respond);
    after := Ending(run, before, fetching + [respond], settled, q, true);
  }

  /** If the provider fails instead, the whole body and output are charged. */
  lemma FailureGoesThrough(run: Run, before: seq<Step>, q: RequestKey, bytes: int, request: real, l: Ledger, today: Day,
                           durable: Option<nat>) returns (after: seq<Step>)
    requires Opened(run) && Exec(run, before).Some? && q !in Exec(run, before).value.records
    requires Admissible(Exec(run, before).value, bytes, request, l, today, durable)
    ensures EndsWell(run, before, after, q,
                     44 * (bytes + 20) + 132 * Granted(Exec(run, before).value, bytes, request, l, today, durable).maxOutput)
  {
    var fetching, fetched := Sending(run, before, q, bytes, request, l, today, durable);
    var charged := FailureIsCharged(fetched, q, bytes, l);
    var charging := FollowTwo(run, fetching, fetched, Break(q), GiveUp(q, l, true));
    after := Ending(run, before, charging, charged, q, false);
  }

  /** If the client is gone before the request is sent, it costs nothing. */
  lemma GoneGoesThrough(run: Run, before: seq<Step>, q: RequestKey, bytes: int, request: real, l: Ledger, today: Day,
                        durable: Option<nat>) returns (after: seq<Step>)
    requires Opened(run) && Exec(run, before).Some? && q !in Exec(run, before).value.records
    requires Admissible(Exec(run, before).value, bytes, request, l, today, durable)
    ensures EndsWell(run, before, after, q, 0)
  {
    var asking, s := Asking(run, before, q, bytes, request, l, today, durable);
    var erased := GoneIsErased(s, q, bytes, true, l);
    Follow(run, asking, s, Disconnect(q));
    var erasing := FollowTwo(run, asking + [Disconnect(q)], Next(s, Disconnect(q)), Resolve(q), Resume(q, true, l, true));
    after := Ending(run, before, erasing, erased, q, false);
  }
}
