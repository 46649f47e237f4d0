/** The relay's budget capability as an object over one open run. */
module RelayBudgets {
  import opened Prelude
  import opened BudgetDays
  import opened BudgetRules
  import opened BudgetLedgers
  import opened RelayBudgetRules

  class RelayBudget {
    const run: BudgetRun
    var open: map<ReservationId, Reservation>
    var inputTokens: nat
    var outputTokens: nat
    var cost: nat
    var closed: bool

    constructor (run: BudgetRun)
      ensures this.run == run && View() == NewAdapter
    {
      this.run := run;
      open, inputTokens, outputTokens, cost, closed := map[], 0, 0, 0, false;
    }

    ghost function View(): Adapter
      reads this
    {
      Adapter(open, inputTokens, outputTokens, cost, closed)
    }

    method Reserve(requestBytes: int, maxOutputTokens: real, today: Day, durable: Option<nat>, hookOk: bool)
      returns (grant: Option<Reservation>)
      modifies this`open, run`live, run.ledger
      ensures AskOutcome(run.ledger.View(), run.View(), View(), grant)
           == Ask(old(run.ledger.View()), old(run.View()), old(View()), requestBytes, maxOutputTokens, today, durable, hookOk)
    {
      if closed || requestBytes < 0 || requestBytes > MAX_REQUEST_BYTES { return None; }
      var r := run.Reserve(today, durable, BodyAsMessages(requestBytes), maxOutputTokens, hookOk);
      match r {
        case Reserved(reservation) =>
          open := open[reservation.id := reservation];
          grant := Some(reservation);
        case RunClosed => grant := None;
        case DayRollover => grant := None;
        case BaseUnavailable => grant := None;
        case NoBudget(_) => grant := None;
        case HookFailed => grant := None;
      }
    }

    /** Settle the run with a usage and add it to the totals. */
    method ChargeUsage(reservation: Reservation, usage: Usage, hookOk: bool) returns (done: bool)
      modifies this`inputTokens, this`outputTokens, this`cost, run, run.ledger
      ensures var o := Settle(old(run.ledger.View()), old(run.View()), reservation, usage, hookOk);
        && done == o.result.Settled?
        && run.ledger.View() == o.ledger && run.View() == o.run
        && (if done then View() == old(View()).(input := old(inputTokens) + usage.prompt,
                                                output := old(outputTokens) + usage.completion,
                                                cost := old(cost) + o.result.cost)
            else View() == old(View()))
    {
      var result := run.Settle(reservation, usage, hookOk);
      if !result.Settled? { return false; }
      inputTokens := inputTokens + usage.prompt;
      outputTokens := outputTokens + usage.completion;
      cost := cost + result.cost;
      done := true;
    }

    method SettleReservation(id: ReservationId, usage: RawUsage, trusted: bool, hookOk: bool) returns (threw: bool)
      modifies this, run, run.ledger
      ensures CallOutcome(run.ledger.View(), run.View(), View(), threw)
           == Perform(old(run.ledger.View()), old(run.View()), old(View()), id, SettleCall(usage, trusted), hookOk)
    {
      if id !in open { return true; }
      var reservation := open[id];
      var settlement := UsageForReservation(if trusted then usage else Missing, reservation);
      var done := ChargeUsage(reservation, settlement.usage, hookOk);
      if !done { return true; }
      open := open - {id};
      threw := settlement.exceededBounds;
    }

    method CancelReservation(id: ReservationId, ambiguous: bool, hookOk: bool) returns (threw: bool)
      modifies this, run, run.ledger
      ensures CallOutcome(run.ledger.View(), run.View(), View(), threw)
           == Perform(old(run.ledger.View()), old(run.View()), old(View()), id, CancelCall(ambiguous), hookOk)
    {
      if id !in open { return true; }
      var reservation := open[id];
      if ambiguous {
        var done := ChargeUsage(reservation, UsageForReservation(Missing, reservation).usage, hookOk);
        if !done { return true; }
      } else {
        var result := run.Cancel(reservation, hookOk);
        if !result.Cancelled? { return true; }
      }
      open := open - {id};
      threw := false;
    }

    method Close() returns (threw: bool)
      modifies this`closed, run`closed, run.ledger`activeRunIds
      ensures CallOutcome(run.ledger.View(), run.View(), View(), threw)
           == RelayBudgetRules.Close(old(run.ledger.View()), old(run.View()), old(View()))
    {
      if closed { return false; }
      if open != map[] { return true; }
      run.Close();
      closed := true;
      threw := false;
    }
  }
}
