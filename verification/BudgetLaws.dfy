/** What the numbers of the ledger stand for. */
module BudgetLaws {
  import opened Prelude
  import opened Sums
  import opened BudgetDays
  import opened BudgetRules
  import opened BudgetRuns

  // ------------------------------------------------------------------------- the input bound

  function Indices(n: nat): (indices: set<int>)
    ensures forall i :: i in indices <==> 0 <= i < n
  {
    if n == 0 then {} else Indices(n - 1) + {n - 1}
  }

  ghost function RoleBytes(messages: seq<Message>): int -> int {
    i => if 0 <= i < |messages| then messages[i].roleBytes else 0
  }

  ghost function ContentBytes(messages: seq<Message>): int -> int {
    i => if 0 <= i < |messages| then messages[i].contentBytes else 0
  }

  lemma OneMore(n: nat, f: int -> int, g: int -> int)
    requires forall i :: 0 <= i < n ==> f(i) == g(i)
    ensures Sum(Indices(n + 1), f) == Sum(Indices(n), g) + f(n)
  {
    Pick(Indices(n + 1), f, n);
    assert Indices(n + 1) - {n} == Indices(n);
    Same(Indices(n), f, g);
  }

  /** The bound counts every byte of every role and content, and sixteen for each message. */
  lemma {:induction false} PromptBoundCountsAll(messages: seq<Message>)
    ensures PromptBound(messages)
         == Sum(Indices(|messages|), RoleBytes(messages)) + Sum(Indices(|messages|), ContentBytes(messages)) + 16 * |messages|
  {
    if messages == [] {
      assert Indices(0) == {};
    } else {
      var n := |messages| - 1;
      PromptBoundCountsAll(messages[..n]);
      OneMore(n, RoleBytes(messages), RoleBytes(messages[..n]));
      OneMore(n, ContentBytes(messages), ContentBytes(messages[..n]));
    }
  }

  // -------------------------------------------------------------------------------- prices

  /** A usage object is believed exactly when its three counts are safe integers that add up, and it costs 44 and 132 a token. */
  lemma ReportedUsageCosts(p: int, c: int, total: int)
    ensures NormalizeUsage(Reported(p, c, total)).Some? <==>
      0 <= p <= MAX_SAFE_INTEGER && 0 <= c <= MAX_SAFE_INTEGER && total <= MAX_SAFE_INTEGER && total == p + c
    ensures NormalizeUsage(Reported(p, c, total)).Some? ==> CostOf(NormalizeUsage(Reported(p, c, total)).value) == 44 * p + 132 * c
    ensures NormalizeUsage(Missing).None?
  {
  }

  /** Usage that is not believed is charged at the bounds of the reservation, and never counts as exceeding them. */
  lemma UnbelievedCostsTheBounds(raw: RawUsage, r: Reservation)
    requires NormalizeUsage(raw).None?
    ensures CostOf(UsageForReservation(raw, r).usage) == 44 * r.inputBound + 132 * r.maxOutput
    ensures !UsageForReservation(raw, r).exceededBounds && !UsageForReservation(raw, r).trusted
  {
  }

  /** A whole number of tokens in range is asked for as it is; what is out of range is moved to the nearest one. */
  lemma RequestedIsNearest(n: nat)
    ensures Requested(n as real) == if n == 0 || n > 4096 then 4096 else n
  {
    assert (n as real).Floor == n;
  }

  lemma RequestedBetween(n: nat, request: real)
    requires 0 < n < 4096 && n as real <= request < (n + 1) as real
    ensures Requested(request) == n
  {
    assert request.Floor == n;
  }

  lemma RequestedBelowOne(request: real)
    requires request < 1.0 && request != 0.0
    ensures Requested(request) == 1
  {
  }

  // ------------------------------------------------------------------------ what succeeds

  /** A reservation is made exactly when nothing stands against it. */
  lemma ReservedIff(l: Ledger, run: Run, today: Day, durable: Option<nat>, input: nat, request: real, hookOk: bool)
    ensures Reserve(l, run, today, durable, input, request, hookOk).result.Reserved? <==>
      !run.closed && today == run.day && WithBase(l, run.day, durable).Some?
      && Affordable(WithBase(l, run.day, durable).value, run, input, 1) && hookOk
  {
    if !run.closed && today == run.day && WithBase(l, run.day, durable).Some? {
      GrantIsLargestAffordable(l, run, today, durable, input, request, hookOk);
    }
  }

  /** Settling gives back what was reserved and takes what was used, from the run and from its day. */
  lemma SettleMoves(b: Books, k: RunKey, r: Reservation, usage: Usage)
    requires Inv(b) && k in b.runs && IsLive(b.runs[k], r) && !b.runs[k].closed
    ensures var o := Settle(b.ledger, b.runs[k], r, usage, true);
      && o.result.Settled? && o.result.cost == 44 * usage.prompt + 132 * usage.completion
      && o.run.settled == b.runs[k].settled + o.result.cost && RunHeld(o.run) == RunHeld(b.runs[k]) - r.reserved
      && DayTotal(o.ledger, b.runs[k].day) == DayTotal(b.ledger, b.runs[k].day) - r.reserved + o.result.cost
      && !IsLive(o.run, r)
  {
    RunHeldRemove(b.runs[k], r);
    ClampNeverActs(b, k, r);
  }

  /** Cancelling gives back what was reserved. */
  lemma CancelMoves(b: Books, k: RunKey, r: Reservation)
    requires Inv(b) && k in b.runs && IsLive(b.runs[k], r) && !b.runs[k].closed
    ensures var o := Cancel(b.ledger, b.runs[k], r, true);
      && o.result.Cancelled? && o.run.settled == b.runs[k].settled && RunHeld(o.run) == RunHeld(b.runs[k]) - r.reserved
      && DayTotal(o.ledger, b.runs[k].day) == DayTotal(b.ledger, b.runs[k].day) - r.reserved
      && !IsLive(o.run, r)
  {
    RunHeldRemove(b.runs[k], r);
    ClampNeverActs(b, k, r);
  }

  /** Usage inside the bounds exceeds nothing: the flags of a settlement are only raised by a provider that reports more. */
  lemma BoundedExceedsNothing(b: Books, k: RunKey, r: Reservation, usage: Usage)
    requires Inv(b) && Ceilings(b) && k in b.runs && IsLive(b.runs[k], r) && !b.runs[k].closed && WithinBounds(usage, r)
    ensures var result := Settle(b.ledger, b.runs[k], r, usage, true).result;
      result.Settled? && !result.exceededReservation && !result.exceededRunLimit
  {
    SettleMoves(b, k, r, usage);
    assert RunSane(b.runs[k], b.ledger.nextSerial);
    CostMonotone(usage, r);
    assert RunWithinLimit(b.runs[k]);
    RunHeldRemove(b.runs[k], r);
    RunHeldNonNegative(Settle(b.ledger, b.runs[k], r, usage, true).run);
  }

  // --------------------------------------------------------------- what is refused, and why

  /** Each refusal has its own reason, and the first that applies is given. */
  lemma RefusedBecause(l: Ledger, run: Run, today: Day, durable: Option<nat>, input: nat, request: real, hookOk: bool)
    ensures var result := Reserve(l, run, today, durable, input, request, hookOk).result;
      var known := run.day in l.base || durable.Some?;
      && (result.RunClosed? <==> run.closed)
      && (result.DayRollover? <==> !run.closed && today != run.day)
      && (result.BaseUnavailable? <==> !run.closed && today == run.day && !known)
      && (result.NoBudget? <==>
            !run.closed && today == run.day && known && !Affordable(WithBase(l, run.day, durable).value, run, input, 1))
  {
    if !run.closed && today == run.day && WithBase(l, run.day, durable).Some? {
      GrantIsLargestAffordable(l, run, today, durable, input, request, hookOk);
    }
  }

  /** A refusal for budget names a ceiling that one more output token would break, the run's when that is no looser. */
  lemma RefusalNamesItsCeiling(l: Ledger, run: Run, today: Day, durable: Option<nat>, input: nat, request: real, hookOk: bool)
    requires Reserve(l, run, today, durable, input, request, hookOk).result.NoBudget?
    ensures var l1 := WithBase(l, run.day, durable).value;
      var least := 44 * input + 132;
      match Reserve(l, run, today, durable, input, request, hookOk).result.scope
      case PerRun => run.settled + RunHeld(run) + least > run.runLimit
      case Daily =>
        DayTotal(l1, run.day) + least > run.dayLimit
        && run.runLimit - run.settled - RunHeld(run) > run.dayLimit - DayTotal(l1, run.day)
  {
    GrantIsLargestAffordable(l, run, today, durable, input, request, hookOk);
  }

  /** The durable spend of a day is asked for once; from then on the first answer stands. */
  lemma BaseIsReadOnce(l: Ledger, d: Day, first: nat, later: Option<nat>)
    requires d !in l.base
    ensures WithBase(l, d, Some(first)).Some?
    ensures var l1 := WithBase(l, d, Some(first)).value;
      WithBase(l1, d, later) == Some(l1) && DayTotal(l1, d) == DayTotal(l, d) + first
  {
  }

  /** The three flags of a settlement say what the amounts after it are. */
  lemma FlagsTellTheTruth(l: Ledger, run: Run, r: Reservation, usage: Usage)
    requires IsLive(run, r) && !run.closed
    ensures var o := Settle(l, run, r, usage, true);
      && o.result.Settled?
      && (o.result.exceededReservation <==> 44 * usage.prompt + 132 * usage.completion > r.reserved)
      && (o.result.exceededRunLimit <==> o.run.settled > run.runLimit)
      && (o.result.exceededDayLimit <==> DayTotal(o.ledger, run.day) - At(o.ledger.held, run.day) > run.dayLimit)
  {
  }

  /** A settlement or a cancel of something that is not live, or whose hook refuses, changes nothing. */
  lemma OnlyLiveIsEnded(l: Ledger, run: Run, r: Reservation, usage: Usage, hookOk: bool)
    requires run.closed || !IsLive(run, r) || !hookOk
    ensures var o := Settle(l, run, r, usage, hookOk); o.ledger == l && o.run == run && !o.result.Settled?
    ensures var o := Cancel(l, run, r, hookOk); o.ledger == l && o.run == run && !o.result.Cancelled?
  {
  }

  /** A name can be used for a run exactly while none of that name is open; */
  lemma BeginIff(l: Ledger, id: string, runLimit: int, dayLimit: int, day: Day)
    ensures BeginRun(l, id, runLimit, dayLimit, day).Some? <==> id != "" && id !in l.activeRunIds && runLimit > 0 && dayLimit > 0
    ensures BeginRun(l, id, runLimit, dayLimit, day).Some? ==>
      var (l1, run) := BeginRun(l, id, runLimit, dayLimit, day).value;
      && id in l1.activeRunIds && RunHeld(run) == 0 && run.settled == 0 && !run.closed
      && run.id == id && run.runLimit == runLimit && run.dayLimit == dayLimit && run.day == day
      && BeginRun(l1, id, runLimit, dayLimit, day).None?
  {
    var none: map<ReservationId, Reservation> := map[];
    assert none.Keys == {};
  }

  /** a run closes exactly when nothing is reserved, and then its name is free again. */
  lemma CloseIff(l: Ledger, run: Run, runLimit: int, dayLimit: int, day: Day)
    requires !run.closed && run.id != "" && run.id in l.activeRunIds && runLimit > 0 && dayLimit > 0
    ensures CloseRun(l, run).1.closed <==> run.live == map[]
    ensures BeginRun(CloseRun(l, run).0, run.id, runLimit, dayLimit, day).Some? <==> run.live == map[]
    ensures CloseRun(l, run).1.settled == run.settled && CloseRun(l, run).1.live == run.live
  {
  }
}
