/**
 The relay's view of one budget run: every request of the harness shares the run's
 ceiling. A response without trusted usage, and a request whose outcome is
 ambiguous, is charged at the reservation's worst case.
 */
module RelayBudgetRules {
  import opened Prelude
  import opened BudgetDays
  import opened BudgetRules
  import BudgetRuns

  const MAX_REQUEST_BYTES: int := 1024 * 1024

  datatype Adapter = Adapter(
    open: map<ReservationId, Reservation>, input: nat, output: nat, cost: nat, closed: bool)

  const NewAdapter := Adapter(map[], 0, 0, 0, false)

  datatype AskOutcome = AskOutcome(ledger: Ledger, run: Run, adapter: Adapter, grant: Option<Reservation>)

  /** The request body is admitted as one user message of that many bytes. */
  function BodyAsMessages(bytes: nat): seq<Message> {
    [Message(4, bytes)]
  }

  ghost function Ask(l: Ledger, run: Run, a: Adapter, bytes: int, request: real,
                     today: Day, durable: Option<nat>, hookOk: bool): AskOutcome
  {
    if a.closed || !(0 <= bytes <= MAX_REQUEST_BYTES) then AskOutcome(l, run, a, None)
    else
      var o := Reserve(l, run, today, durable, PromptBound(BodyAsMessages(bytes)), request, hookOk);
      if o.result.Reserved?
      then AskOutcome(o.ledger, o.run, a.(open := a.open[o.result.reservation.id := o.result.reservation]),
                      Some(o.result.reservation))
      else AskOutcome(o.ledger, o.run, a, None)
  }

  datatype Call = SettleCall(usage: RawUsage, trusted: bool) | CancelCall(ambiguous: bool)

  /** The usage a call settles the reservation with; None erases the reservation instead. */
  function Settles(call: Call, r: Reservation): Option<Settlement> {
    match call
    case SettleCall(usage, trusted) => Some(UsageForReservation(if trusted then usage else Missing, r))
    case CancelCall(ambiguous) => if ambiguous then Some(UsageForReservation(Missing, r)) else None
  }

  function Charge(call: Call, r: Reservation): nat {
    if Settles(call, r).Some? then CostOf(Settles(call, r).value.usage) else 0
  }

  datatype CallOutcome = CallOutcome(ledger: Ledger, run: Run, adapter: Adapter, threw: bool)

  function Perform(l: Ledger, run: Run, a: Adapter, id: ReservationId, call: Call, hookOk: bool): CallOutcome {
    if id !in a.open then CallOutcome(l, run, a, true)
    else
      var s := Settles(call, a.open[id]);
      if s.None? then
        var o := Cancel(l, run, a.open[id], hookOk);
        if o.result.Cancelled? then CallOutcome(o.ledger, o.run, a.(open := a.open - {id}), false)
        else CallOutcome(o.ledger, o.run, a, true)
      else
        var o := Settle(l, run, a.open[id], s.value.usage, hookOk);
        if !o.result.Settled? then CallOutcome(o.ledger, o.run, a, true)
        else CallOutcome(o.ledger, o.run,
          Adapter(a.open - {id}, a.input + s.value.usage.prompt, a.output + s.value.usage.completion,
                  a.cost + o.result.cost, a.closed),
          call.SettleCall? && s.value.exceededBounds)
  }

  /** Closing is refused while a reservation is open. */
  function Close(l: Ledger, run: Run, a: Adapter): CallOutcome {
    if a.closed then CallOutcome(l, run, a, false)
    else if a.open != map[] then CallOutcome(l, run, a, true)
    else
      var o := BudgetRuns.CloseRun(l, run);
      CallOutcome(o.0, o.1, a.(closed := true), false)
  }

  /** The adapter and its run agree on what is open and on what was charged. */
  ghost predicate InStep(run: Run, a: Adapter) {
    run.live == a.open && run.settled == a.cost && run.closed == a.closed && (a.closed ==> a.open == map[])
  }

  /** A call either takes its whole effect on both sides or none on either. */
  lemma PerformInStep(l: Ledger, run: Run, a: Adapter, id: ReservationId, call: Call, hookOk: bool)
    requires InStep(run, a) && (id in a.open ==> a.open[id].id == id)
    ensures var o := Perform(l, run, a, id, call, hookOk);
      && InStep(o.run, o.adapter)
      && o.run.id == run.id
      && (if id in a.open && hookOk
          then o.adapter.open == a.open - {id} && o.adapter.cost == a.cost + Charge(call, a.open[id])
          else o.threw && o.adapter == a && o.run == run)
  {
  }

  /** A reservation adds one live entry under the next serial number, or changes nothing of the run. */
  lemma ReserveShape(l: Ledger, run: Run, today: Day, durable: Option<nat>, input: nat, request: real, hookOk: bool)
    ensures var o := Reserve(l, run, today, durable, input, request, hookOk);
      && l.nextSerial <= o.ledger.nextSerial
      && (if !o.result.Reserved? then o.run == run
          else var r := o.result.reservation;
               !run.closed && r.id == ReservationId(run.id, l.nextSerial) && r.reserved == WorstCase(r.inputBound, r.maxOutput)
               && o.run == run.(live := run.live[r.id := r]) && o.ledger.nextSerial == l.nextSerial + 1)
  {
  }

  lemma AskInStep(l: Ledger, run: Run, a: Adapter, bytes: int, request: real,
                  today: Day, durable: Option<nat>, hookOk: bool)
    requires InStep(run, a)
    ensures var o := Ask(l, run, a, bytes, request, today, durable, hookOk);
      && InStep(o.run, o.adapter) && o.run.id == run.id && o.adapter.cost == a.cost
      && l.nextSerial <= o.ledger.nextSerial
      && (if o.grant.None? then o.adapter == a && o.run == run
          else var r := o.grant.value;
               r.id == ReservationId(run.id, l.nextSerial) && r.reserved == WorstCase(r.inputBound, r.maxOutput)
               && o.adapter.open == a.open[r.id := r] && o.ledger.nextSerial == l.nextSerial + 1 && !a.closed)
  {
    if !a.closed && 0 <= bytes <= MAX_REQUEST_BYTES {
      ReserveShape(l, run, today, durable, PromptBound(BodyAsMessages(bytes)), request, hookOk);
    }
  }
}
