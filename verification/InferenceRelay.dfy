/**
 The inference relay as an object over request objects. A request object is what one
 handler keeps across its awaits. A method is the code between two awaits, and each is
 proved to take the step of `RelayRuns` with the same name, on the ledger as it is then.
 */
module InferenceRelays {
  import opened Prelude
  import opened BudgetDays
  import opened BudgetRules
  import opened RelayBudgetRules
  import opened RelayBudgets
  import opened RelayRuns

  class Request {
    ghost const key: RequestKey
    var reservation: Option<Reservation>
    var finalization: Option<Finalization>
    var upstreamStarted: bool
    var disconnected: bool
    // where the handler, its admission, its waiting sweeps and its finalization stand
    ghost var phase: Phase
    ghost var admission: Admission
    ghost var sweeps: nat
    ghost var returned: bool

    constructor (ghost key: RequestKey, ghost phase: Phase)
      ensures this.key == key && reservation.None? && finalization.None?
      ensures View(false) == Record(phase, Unasked, false, false, false, 0, false)
    {
      this.key, this.phase := key, phase;
      reservation, finalization, upstreamStarted, disconnected := None, None, false, false;
      admission, sweeps, returned := Unasked, 0, false;
    }

    ghost function View(active: bool): Record
      reads this
    {
      Record(phase, admission, disconnected, upstreamStarted, active, sweeps, returned)
    }
  }

  class InferenceRelay {
    const budget: RelayBudget
    var active: set<Request>
    var cancelled: bool
    ghost var requests: map<RequestKey, Request>
    ghost var swept: bool
    ghost var serials: nat
    ghost var calls: multiset<ReservationId>

    constructor (budget: RelayBudget)
      requires budget.View() == NewAdapter
      ensures this.budget == budget && Valid() && View() == NewRelay(budget.run.View())
    {
      this.budget := budget;
      active, cancelled := {}, false;
      requests, swept, serials, calls := map[], false, 0, multiset{};
    }

    ghost predicate Valid()
      reads this
    {
      && active <= requests.Values
      && forall q :: q in requests ==> requests[q].key == q
    }

    ghost function Ledger(): BudgetRules.Ledger
      reads budget.run.ledger
    {
      budget.run.ledger.View()
    }

    ghost function Records(): map<RequestKey, Record>
      reads this, requests.Values
    {
      map q | q in requests :: requests[q].View(requests[q] in active)
    }

    ghost function Accounts(): map<RequestKey, Account>
      reads this, requests.Values
    {
      map q | q in requests && requests[q].reservation.Some? :: Account(requests[q].reservation.value, requests[q].finalization)
    }

    ghost function View(): Relay
      reads this, requests.Values, budget, budget.run, budget.run.ledger
    {
      Relay(Records(), Accounts(), budget.run.View(), budget.View(), cancelled, swept, serials, calls)
    }

    ghost predicate Ours(r: Request)
      reads this
    {
      r.key in requests && requests[r.key] == r
    }

    // ---------------------------------------------------------------- one request

    /** Only this request and its place among the active ones changed. */
    twostate predicate OnlyChanged(r: Request)
      reads this, requests.Values
    {
      && old(Valid()) && requests == old(requests) && Ours(r)
      && (forall p :: p in requests.Values && p != r ==> unchanged(p) && (p in active <==> p in old(active)))
    }

    twostate lemma RecordsAfter(r: Request)
      requires OnlyChanged(r)
      ensures Records() == old(Records())[r.key := r.View(r in active)]
    {
      forall q | q in requests && q != r.key ensures Records()[q] == old(Records())[q] {
        assert requests[q] in requests.Values && requests[q] != r;
      }
    }

    twostate lemma AccountsAfter(r: Request)
      requires OnlyChanged(r)
      ensures r.reservation.Some? ==> Accounts() == old(Accounts())[r.key := Account(r.reservation.value, r.finalization)]
      ensures r.reservation == old(r.reservation) && r.finalization == old(r.finalization) ==> Accounts() == old(Accounts())
    {
      forall q | q in requests && q != r.key
        ensures (q in Accounts() <==> q in old(Accounts())) && (q in Accounts() ==> Accounts()[q] == old(Accounts())[q])
      {
        assert requests[q] in requests.Values && requests[q] != r;
      }
    }

    /** The record of a request after its handler moved on. */
    method Move(r: Request, ghost phase: Phase, upstreamStarted: bool, stays: bool)
      requires Valid() && Ours(r)
      modifies this`active, r`phase, r`upstreamStarted
      ensures Valid()
      ensures View() == Put(old(View()), r.key,
                            old(r.View(r in active)).(phase := phase, started := upstreamStarted, active := r in active))
      ensures r.upstreamStarted == upstreamStarted && (r in active <==> stays && r in old(active))
    {
      r.phase := phase;
      r.upstreamStarted := upstreamStarted;
      if !stays { active := active - {r}; }
      RecordsAfter(r);
      AccountsAfter(r);
    }

    /** The budget call itself: it touches no request. */
    method CallBudget(id: ReservationId, call: Call, hookOk: bool) returns (threw: bool, took: bool)
      requires Valid()
      modifies budget, budget.run, budget.run.ledger
      ensures Valid()
      ensures var o := Perform(old(Ledger()), old(budget.run.View()), old(budget.View()), id, call, hookOk);
        View() == old(View()).(run := o.run, adapter := o.adapter) && threw == o.threw
      ensures took <==> id in old(budget.View()).open && id !in budget.View().open
    {
      var held := id in budget.open;
      match call {
        case SettleCall(usage, trusted) => threw := budget.SettleReservation(id, usage, trusted, hookOk);
        case CancelCall(ambiguous) => threw := budget.CancelReservation(id, ambiguous, hookOk);
      }
      took := held && id !in budget.open;
    }

    /** Keep the finalization with the request. */
    method NoteCall(r: Request, id: ReservationId, f: Finalization)
      requires Valid() && Ours(r) && r.reservation.Some?
      modifies this`calls, r`finalization
      ensures Valid()
      ensures View() == old(View()).(accounts := old(Accounts())[r.key := Account(r.reservation.value, Some(f))],
                                     calls := old(calls) + multiset{id})
    {
      r.finalization := Some(f);
      calls := calls + multiset{id};
      RecordsAfter(r);
      AccountsAfter(r);
    }

    /** Make the request's one budget call, unless it has no reservation or one was made. */
    method Finalize(r: Request, call: Call, hookOk: bool)
      requires Valid() && Ours(r)
      modifies this`calls, r`finalization, budget, budget.run, budget.run.ledger
      ensures Valid() && View() == RelayRuns.Finalize(old(View()), r.key, call, old(Ledger()), hookOk)
    {
      if r.reservation.None? || r.finalization.Some? { return; }
      var id := r.reservation.value.id;
      var threw, took := CallBudget(id, call, hookOk);
      NoteCall(r, id, Finalization(call, took, threw));
    }

    // --------------------------------------------------------------- the handler

    method Arrive(ghost q: RequestKey) returns (r: Request)
      requires Valid() && q !in requests
      modifies this`requests
      ensures Valid() && Ours(r) && r.key == q && r.reservation.None? && r.finalization.None?
      ensures View() == Next(old(View()), Step.Arrive(q))
    {
      r := new Request(q, if cancelled then Done else Reading);
      requests := requests[q := r];
      ArrivalOnly(r);
    }

    /** A new request changes no other. */
    twostate lemma ArrivalOnly(new r: Request)
      requires old(Valid()) && r.key !in old(requests) && requests == old(requests)[r.key := r] && active == old(active)
      requires fresh(r) && r.reservation.None?
      requires forall p :: p in old(requests.Values) ==> unchanged(p)
      ensures Valid() && Accounts() == old(Accounts()) && Records() == old(Records())[r.key := r.View(false)]
    {
      forall q | q in old(requests) ensures requests[q] == old(requests[q]) && requests[q] in old(requests.Values) {
      }
    }

    method Reject(r: Request)
      requires Valid() && Ours(r) && r.phase.Reading?
      modifies this`active, r`phase, r`upstreamStarted
      ensures Valid() && View() == Next(old(View()), Step.Reject(r.key))
    {
      Move(r, Done, r.upstreamStarted, true);
    }

    /** The last check before admission, and the reservation made with it. */
    method Ask(r: Request, gone: bool, bytes: int, request: real, today: Day, durable: Option<nat>, hookOk: bool)
      requires Valid() && Ours(r) && r.phase.Reading? && r.reservation.None? && r.finalization.None?
      requires serials <= Ledger().nextSerial
      modifies this`active, this`serials, r, budget`open, budget.run`live, budget.run.ledger
      ensures Valid()
      ensures View() == Next(old(View()), Step.Ask(r.key, gone, bytes, request, old(Ledger()), today, durable, hookOk))
    {
      if cancelled || gone {
        Move(r, Done, r.upstreamStarted, true);
        return;
      }
      Admit(r, bytes, request, today, durable, hookOk);
    }

    method Admit(r: Request, bytes: int, request: real, today: Day, durable: Option<nat>, hookOk: bool)
      requires Valid() && Ours(r) && r.reservation.None? && r.finalization.None?
      modifies this`active, this`serials, r, budget`open, budget.run`live, budget.run.ledger
      ensures Valid()
      ensures View() == Asked(old(View()), r.key, RelayBudgetRules.Ask(old(Ledger()), old(budget.run.View()), old(budget.View()),
                                                                       bytes, request, today, durable, hookOk))
    {
      BeginAdmission(r);
      var grant := AskBudget(bytes, request, today, durable, hookOk);
      NoteReservation(r, grant);
      NoteSerial(Ledger().nextSerial);
    }

    ghost method NoteSerial(n: nat)
      requires Valid()
      modifies this`serials
      ensures Valid() && View() == old(View()).(serials := n)
    {
      serials := n;
    }

    /** The request becomes active, and its admission is pending. */
    method BeginAdmission(r: Request)
      requires Valid() && Ours(r)
      modifies this`active, r`phase, r`admission
      ensures Valid()
      ensures View() == Put(old(View()), r.key, old(View()).records[r.key].(phase := Admitting, admission := Pending, active := true))
    {
      active := active + {r};
      r.phase, r.admission := Admitting, Pending;
      RecordsAfter(r);
      AccountsAfter(r);
    }

    /** The budget is asked: it touches no request. */
    method AskBudget(bytes: int, request: real, today: Day, durable: Option<nat>, hookOk: bool) returns (grant: Option<Reservation>)
      requires Valid()
      modifies budget`open, budget.run`live, budget.run.ledger
      ensures Valid()
      ensures var o := RelayBudgetRules.Ask(old(Ledger()), old(budget.run.View()), old(budget.View()), bytes, request, today, durable, hookOk);
        View() == old(View()).(run := o.run, adapter := o.adapter) && grant == o.grant && Ledger() == o.ledger
    {
      grant := budget.Reserve(bytes, request, today, durable, hookOk);
    }

    method NoteReservation(r: Request, grant: Option<Reservation>)
      requires Valid() && Ours(r) && r.reservation.None? && r.finalization.None?
      modifies r`reservation
      ensures Valid()
      ensures View() == old(View()).(accounts := if grant.Some? then old(Accounts())[r.key := Account(grant.value, None)] else old(Accounts()))
    {
      r.reservation := grant;
      RecordsAfter(r);
      AccountsAfter(r);
    }

    ghost method Resolve(r: Request)
      requires Valid() && Ours(r) && r.admission.Pending?
      modifies r`admission
      ensures Valid() && View() == Next(old(View()), Step.Resolve(r.key))
    {
      r.admission := Resolved;
      RecordsAfter(r);
      AccountsAfter(r);
    }

    /** The handler after admission: refused, stopped before the provider call, or fetching. */
    method Resume(r: Request, acceptable: bool, hookOk: bool)
      requires Valid() && Ours(r) && r.phase.Admitting? && r.admission.Resolved?
      modifies this`active, this`calls, r, budget, budget.run, budget.run.ledger
      ensures Valid() && View() == Next(old(View()), Step.Resume(r.key, acceptable, old(Ledger()), hookOk))
    {
      if r.reservation.None? {
        Move(r, Done, r.upstreamStarted, false);
      } else if cancelled || r.disconnected || !acceptable {
        Move(r, Closing(false), r.upstreamStarted, true);
        Finalize(r, CancelCall(false), hookOk);
      } else {
        Move(r, Fetching, true, true);
      }
    }

    /** The stream has ended: settle with the usage it reported. */
    method Respond(r: Request, usage: RawUsage, hookOk: bool)
      requires Valid() && Ours(r) && r.phase.Fetching?
      modifies this`active, this`calls, r, budget, budget.run, budget.run.ledger
      ensures Valid() && View() == Next(old(View()), Step.Respond(r.key, usage, old(Ledger()), hookOk))
    {
      Move(r, Closing(true), r.upstreamStarted, true);
      Finalize(r, SettleCall(usage, NormalizeUsage(usage).Some?), hookOk);
    }

    method Break(r: Request)
      requires Valid() && Ours(r) && r.phase.Fetching?
      modifies this`active, r`phase, r`upstreamStarted
      ensures Valid() && View() == Next(old(View()), Step.Break(r.key))
    {
      Move(r, Failing, r.upstreamStarted, true);
    }

    /** The error path, once the response reader is cancelled. */
    method GiveUp(r: Request, hookOk: bool)
      requires Valid() && Ours(r) && r.phase.Failing?
      modifies this`active, this`calls, r, budget, budget.run, budget.run.ledger
      ensures Valid() && View() == Next(old(View()), Step.GiveUp(r.key, old(Ledger()), hookOk))
    {
      Move(r, Closing(false), r.upstreamStarted, true);
      Finalize(r, CancelCall(r.upstreamStarted), hookOk);
    }

    /** The budget call has returned or thrown; either way the request is no longer active. */
    method CallReturned(r: Request)
      requires Valid() && Ours(r) && r.reservation.Some? && r.finalization.Some? && !r.returned
      modifies this`active, r`returned
      ensures Valid() && View() == Next(old(View()), CallReturns(r.key))
    {
      r.returned := true;
      active := active - {r};
      RecordsAfter(r);
      AccountsAfter(r);
    }

    /** The handler resumes after its finalization. */
    method Finish(r: Request, settling: bool)
      requires Valid() && Ours(r) && r.phase == Closing(settling) && r.returned
      modifies this`active, this`cancelled, r`phase, r`upstreamStarted
      ensures Valid() && View() == Next(old(View()), Step.Finish(r.key))
    {
      var threw := Threw(r);
      if threw { FinishFailed(r, settling); } else { Move(r, Done, r.upstreamStarted, true); }
    }

    /** A failed settlement falls into the error path; any other failure stops the relay. */
    method FinishFailed(r: Request, settling: bool)
      requires Valid() && Ours(r)
      modifies this`active, this`cancelled, r`phase, r`upstreamStarted
      ensures Valid()
      ensures View() == Put(old(View()), r.key, old(View()).records[r.key].(phase := if settling then Failing else Done))
                          .(cancelled := !settling || old(cancelled))
    {
      Move(r, if settling then Failing else Done, r.upstreamStarted, true);
      if !settling { cancelled := true; }
    }

    /** The request's budget call threw. */
    method Threw(r: Request) returns (threw: bool)
      requires Valid() && Ours(r)
      ensures threw <==> (r.key in Accounts() && Accounts()[r.key].finalization.Some? && Accounts()[r.key].finalization.value.threw)
    {
      threw := r.reservation.Some? && r.finalization.Some? && r.finalization.value.threw;
    }

    // ------------------------------------------------------------ from outside

    method Disconnect(r: Request)
      requires Valid() && Ours(r) && !r.phase.Reading?
      modifies r`disconnected
      ensures Valid() && View() == Next(old(View()), Step.Disconnect(r.key))
    {
      r.disconnected := true;
      RecordsAfter(r);
      AccountsAfter(r);
    }

    /** Stop the relay, and leave a waiting sweep on every active request. */
    method Cancel()
      requires Valid()
      modifies this`cancelled, this`swept, active`sweeps
      ensures Valid() && View() == Next(old(View()), CancelAll)
    {
      cancelled := true;
      swept := true;
      SweepActive();
      SweptAll();
    }

    method SweepActive()
      modifies active`sweeps
      ensures forall r :: r in active ==> r.sweeps == old(r.sweeps) + 1
    {
      var work := active;
      while work != {}
        invariant work <= active
        invariant forall r :: r in active ==> r.sweeps == old(r.sweeps) + if r in work then 0 else 1
      {
        var r :| r in work;
        r.sweeps := r.sweeps + 1;
        work := work - {r};
      }
    }

    twostate lemma SweptAll()
      requires old(Valid()) && requests == old(requests) && active == old(active)
      requires forall r :: r in active ==> r.View(true) == old(r.View(true)).(sweeps := old(r.sweeps) + 1)
      requires forall r :: r in active ==> r.reservation == old(r.reservation) && r.finalization == old(r.finalization)
      requires forall r :: r in requests.Values && r !in active ==> unchanged(r)
      ensures Records() == SweepAll(old(View())) && Accounts() == old(Accounts())
    {
    }

    /** A sweep resumes after the request's admission is known. */
    method Sweep(r: Request, hookOk: bool)
      requires Valid() && Ours(r) && r.sweeps > 0 && r.admission.Resolved?
      modifies this`active, this`calls, r, budget, budget.run, budget.run.ledger
      ensures Valid() && View() == Next(old(View()), Step.Sweep(r.key, old(Ledger()), hookOk))
    {
      ghost var s := View();
      assert r.key in s.accounts <==> r.reservation.Some?;
      Awake(r, r.reservation.Some?);
      if r.reservation.Some? {
        Finalize(r, CancelCall(r.upstreamStarted), hookOk);
      }
    }

    /** One waiting sweep fewer. */
    method Awake(r: Request, stays: bool)
      requires Valid() && Ours(r) && r.sweeps > 0
      modifies this`active, r`sweeps
      ensures Valid() && (r in active <==> stays && r in old(active))
      ensures View() == Put(old(View()), r.key, old(r.View(r in active)).(sweeps := old(r.sweeps) - 1, active := r in active))
    {
      if !stays { active := active - {r}; }
      r.sweeps := r.sweeps - 1;
      RecordsAfter(r);
      AccountsAfter(r);
    }

    /** Something failed that no request can answer for: the relay takes nothing new. */
    method MarkFailed()
      requires Valid()
      modifies this`cancelled
      ensures Valid() && View() == Next(old(View()), ServerFails)
    {
      cancelled := true;
    }

    method CloseBudget() returns (threw: bool)
      requires Valid()
      modifies budget`closed, budget.run`closed, budget.run.ledger`activeRunIds
      ensures Valid() && View() == Next(old(View()), Step.CloseBudget(old(Ledger())))
    {
      threw := budget.Close();
    }
  }
}
