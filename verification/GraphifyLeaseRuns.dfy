/** Whole runs of the lease store, with crashes at any step. */
module GraphifyLeaseRuns {
  import opened GraphifyLeaseRules

  /** An acknowledgement comes with the committed runs it finds. */
  datatype Act = Reserving(sel: Selection, op: OperationId) | Acking(sel: Selection, op: OperationId, runs: seq<Run>)

  datatype Outcome = Died | Reserved(id: Result<OperationId>) | Acknowledged(done: Result<bool>)

  /** One call, how it ended, and the private root it left. */
  datatype Event = Event(act: Act, outcome: Outcome, after: Root)

  /**
   Each call returns, throws, or dies after any of its file-system steps. What it may leave
   behind is what the methods of `GraphifyLeases` are proved to.
   */
  ghost predicate Follows(before: Root, e: Event) {
    match e.act
    case Reserving(sel, op) =>
      (match e.outcome
       case Died => e.after == before || ReserveVisits(before, sel, op, e.after)
       case Reserved(r) => ReserveReturns(before, sel, op, e.after, r)
       case Acknowledged(_) => false)
    case Acking(sel, op, runs) =>
      (match e.outcome
       case Died => e.after == before || AckVisits(before, sel, op, Completed(runs, sel, op), e.after)
       case Reserved(_) => false
       case Acknowledged(r) => AckReturns(before, sel, op, Completed(runs, sel, op), e.after, r))
  }

  /** The private root before event `i`. */
  function At(run: seq<Event>, i: nat): Root
    requires i <= |run|
  {
    if i == 0 then map[] else run[i - 1].after
  }

  ghost predicate FollowsAt(run: seq<Event>, i: nat)
    requires i < |run|
  {
    Follows(At(run, i), run[i])
  }

  ghost predicate IsRun(run: seq<Event>) {
    forall i: nat :: i < |run| ==> FollowsAt(run, i)
  }

  /** The call moved the lease of a completed operation to the acknowledged record: held before it, acknowledged after it. */
  predicate Acknowledges(before: Root, e: Event, sel: Selection, op: OperationId) {
    && e.act.Acking? && e.act.sel == sel && e.act.op == op && Completed(e.act.runs, sel, op)
    && Holds(before, sel, op) && !Holds(e.after, sel, op) && HasAcked(e.after, sel, op)
  }

  predicate AcknowledgesAt(run: seq<Event>, k: nat, sel: Selection, op: OperationId)
    requires k < |run|
  {
    Acknowledges(At(run, k), run[k], sel, op)
  }

  lemma {:induction false} InvAlways(run: seq<Event>, i: nat)
    requires IsRun(run) && i <= |run|
    ensures Inv(At(run, i))
  {
    if i > 0 {
      InvAlways(run, i - 1);
      assert FollowsAt(run, i - 1);
    }
  }

  /** In no state a crash can leave is a selection both active and claimed, or claimed twice. */
  lemma NeverActiveAndClaimed(run: seq<Event>, i: nat, sel: Selection)
    requires IsRun(run) && i <= |run|
    ensures forall op :: Claim(sel, op) in At(run, i) ==> Active(sel) !in At(run, i)
    ensures forall a, b :: Claim(sel, a) in At(run, i) && Claim(sel, b) in At(run, i) ==> a == b
  {
    InvAlways(run, i);
    assert forall op :: Claim(sel, op) in At(run, i) ==> GoodEntry(At(run, i), Claim(sel, op));
  }

  /** One call, even one that dies between its renames, keeps every lease but the one it acknowledges. */
  lemma LeaseKept(before: Root, e: Event, sel: Selection, op: OperationId)
    requires Inv(before) && Follows(before, e) && Holds(before, sel, op)
    ensures Holds(e.after, sel, op) || Acknowledges(before, e, sel, op)
  {
    if e.act.sel != sel {
      assert SameHeld(before, e.after, sel);
    } else if e.act.Reserving? {
      assert !NothingHeld(before, sel);
      if e.after != before {
        assert SameHeld(before, e.after, sel);
      }
    } else if !Holds(e.after, sel, op) {
      assert !SameHeld(before, e.after, sel);
      OneHeld(before, sel, op, e.act.op);
    }
  }

  /** No crash loses a lease: it stays until a completed operation's acknowledgement takes it. */
  lemma {:induction false} LeaseStays(run: seq<Event>, i: nat, j: nat, sel: Selection, op: OperationId)
    requires IsRun(run) && i <= j <= |run| && Holds(At(run, i), sel, op)
    ensures Holds(At(run, j), sel, op) || exists k :: i <= k < j && AcknowledgesAt(run, k, sel, op)
  {
    if i < j {
      LeaseStays(run, i, j - 1, sel, op);
      if Holds(At(run, j - 1), sel, op) {
        InvAlways(run, j - 1);
        assert FollowsAt(run, j - 1);
        LeaseKept(At(run, j - 1), run[j - 1], sel, op);
        assert Holds(At(run, j), sel, op) || AcknowledgesAt(run, j - 1, sel, op);
      }
    }
  }

  predicate Returns(e: Event, sel: Selection, id: OperationId) {
    e.act.Reserving? && e.act.sel == sel && e.outcome == Reserved(Ok(id))
  }

  /** Reserving keeps returning the same id until that id is acknowledged. */
  lemma SameIdUntilAcknowledged(run: seq<Event>, i: nat, j: nat, sel: Selection, first: OperationId, later: OperationId)
    requires IsRun(run) && i < j < |run| && Returns(run[i], sel, first) && Returns(run[j], sel, later)
    ensures first == later || exists k :: i < k < j && AcknowledgesAt(run, k, sel, first)
  {
    assert FollowsAt(run, i) && FollowsAt(run, j);
    assert Holds(At(run, i + 1), sel, first);
    LeaseStays(run, i + 1, j, sel, first);
    if Holds(At(run, j), sel, first) {
      InvAlways(run, j);
      OneHeld(At(run, j), sel, first, later);
    }
  }

  lemma NewlyAcked(before: Root, e: Event, sel: Selection, op: OperationId)
    requires Inv(before) && Follows(before, e) && HasAcked(e.after, sel, op) && !HasAcked(before, sel, op)
    ensures Acknowledges(before, e, sel, op)
  {
    OnlyAckingAcks(before, e, sel);
    assert GoodEntry(e.after, Acked(sel));
  }

  lemma OnlyAckingAcks(before: Root, e: Event, sel: Selection)
    requires Follows(before, e)
    ensures SameAcked(before, e.after, sel) || (e.act.Acking? && e.act.sel == sel)
  {
    if e.act.Reserving? && e.after != before {
      assert ReserveVisits(before, e.act.sel, e.act.op, e.after);
      if SameView(before, e.after) {
        assert SameHeld(before, e.after, sel) && SameAcked(before, e.after, sel);
      }
    }
  }

  /** An acknowledged record was put there by the acknowledgement of a completed operation. */
  lemma {:induction false} AckedWasCompleted(run: seq<Event>, i: nat, sel: Selection, op: OperationId)
    requires IsRun(run) && i <= |run| && HasAcked(At(run, i), sel, op)
    ensures exists k :: 0 <= k < i && AcknowledgesAt(run, k, sel, op)
  {
    var before, e := At(run, i - 1), run[i - 1];
    assert FollowsAt(run, i - 1);
    if HasAcked(before, sel, op) {
      AckedWasCompleted(run, i - 1, sel, op);
    } else {
      InvAlways(run, i - 1);
      NewlyAcked(before, e, sel, op);
      assert AcknowledgesAt(run, i - 1, sel, op);
    }
  }

  /**
   Acknowledging answers true only for an operation whose acknowledgement, now or in an
   earlier call, saw a completed run and no pending one while the operation held the lease.
   */
  lemma AckedOnlyWhenCompleted(run: seq<Event>, i: nat)
    requires IsRun(run) && i < |run| && run[i].outcome == Acknowledged(Ok(true))
    ensures run[i].act.Acking?
    ensures exists k :: 0 <= k <= i && AcknowledgesAt(run, k, run[i].act.sel, run[i].act.op)
  {
    assert FollowsAt(run, i);
    AckedWasCompleted(run, i + 1, run[i].act.sel, run[i].act.op);
  }

  // ------------------------------------------------------------------ with fresh ids

  /** Ids are drawn at random, so no two reservations draw the same one. */
  predicate FreshIds(run: seq<Event>) {
    forall i, j :: 0 <= i < j < |run| && run[i].act.Reserving? && run[j].act.Reserving? ==> run[i].act.op != run[j].act.op
  }

  /** A lease, held or acknowledged, was drawn by an earlier reservation. */
  lemma {:induction false} LeaseWasDrawn(run: seq<Event>, i: nat, sel: Selection, op: OperationId)
    requires IsRun(run) && i <= |run| && (Holds(At(run, i), sel, op) || HasAcked(At(run, i), sel, op))
    ensures exists k :: 0 <= k < i && run[k].act == Reserving(sel, op)
  {
    var before, e := At(run, i - 1), run[i - 1];
    assert FollowsAt(run, i - 1);
    if Holds(before, sel, op) || HasAcked(before, sel, op) {
      LeaseWasDrawn(run, i - 1, sel, op);
    } else {
      InvAlways(run, i - 1);
      InvAlways(run, i);
      assert e.act == Reserving(sel, op) by { OnlyDrawingAdds(before, e, sel, op); }
    }
  }

  /** Only a reservation that drew an id can make it held or acknowledged. */
  lemma OnlyDrawingAdds(before: Root, e: Event, sel: Selection, op: OperationId)
    requires Inv(before) && Inv(e.after) && Follows(before, e)
    requires Holds(e.after, sel, op) || HasAcked(e.after, sel, op)
    ensures Holds(before, sel, op) || HasAcked(before, sel, op) || e.act == Reserving(sel, op)
  {
    if e.after != before {
      if e.act.sel != sel {
        OthersUntouched(before, e, sel);
      } else if e.act.Acking? {
        AckAddsNothing(before, e, op);
      } else {
        ReserveAddsOnlyItsOwn(before, e, op);
      }
    }
  }

  lemma OthersUntouched(before: Root, e: Event, sel: Selection)
    requires Follows(before, e) && e.act.sel != sel
    ensures SameHeld(before, e.after, sel) && SameAcked(before, e.after, sel)
  {
    if e.act.Reserving? && e.after != before {
      assert ReserveVisits(before, e.act.sel, e.act.op, e.after);
    }
  }

  lemma AckAddsNothing(before: Root, e: Event, op: OperationId)
    requires Inv(before) && Follows(before, e) && e.act.Acking?
    requires Holds(e.after, e.act.sel, op) || HasAcked(e.after, e.act.sel, op)
    ensures Holds(before, e.act.sel, op) || HasAcked(before, e.act.sel, op)
  {
  }

  lemma ReserveAddsOnlyItsOwn(before: Root, e: Event, op: OperationId)
    requires Inv(before) && Follows(before, e) && e.act.Reserving? && Inv(e.after)
    requires Holds(e.after, e.act.sel, op) || HasAcked(e.after, e.act.sel, op)
    ensures Holds(before, e.act.sel, op) || HasAcked(before, e.act.sel, op) || op == e.act.op
  {
    if !SameView(before, e.after) && Holds(e.after, e.act.sel, op) {
      OneHeld(e.after, e.act.sel, op, e.act.op);
    } else {
      assert SameView(before, e.after) ==> SameHeld(before, e.after, e.act.sel) && SameAcked(before, e.after, e.act.sel);
    }
  }

  /** After an id has been acknowledged, no later reservation returns it again. */
  lemma AcknowledgedIdsAreSpent(run: seq<Event>, i: nat, j: nat, sel: Selection, op: OperationId)
    requires IsRun(run) && FreshIds(run) && i < j < |run|
    requires run[i].act.Acking? && run[i].act.sel == sel && run[i].act.op == op && run[i].outcome == Acknowledged(Ok(true))
    ensures !Returns(run[j], sel, op)
  {
    assert FollowsAt(run, i);
    LeaseWasDrawn(run, i + 1, sel, op);
    NeverHeldAgain(run, i + 1, j + 1, sel, op);
    assert FollowsAt(run, j);
  }

  /** An acknowledgement never makes anything held, and a reservation only what it drew. */
  lemma NotHeldKept(before: Root, e: Event, sel: Selection, op: OperationId)
    requires Inv(before) && Inv(e.after) && Follows(before, e)
    requires !Holds(before, sel, op) && e.act != Reserving(sel, op)
    ensures !Holds(e.after, sel, op)
  {
    if e.after != before {
      if e.act.sel != sel {
        OthersUntouched(before, e, sel);
      } else if e.act.Reserving? && Holds(e.after, sel, op) {
        assert SameView(before, e.after) ==> SameHeld(before, e.after, sel);
        OneHeld(e.after, sel, op, e.act.op);
      }
    }
  }

  lemma {:induction false} NeverHeldAgain(run: seq<Event>, i: nat, j: nat, sel: Selection, op: OperationId)
    requires IsRun(run) && FreshIds(run) && i <= j <= |run| && !Holds(At(run, i), sel, op)
    requires exists k :: 0 <= k < i && run[k].act == Reserving(sel, op)
    ensures !Holds(At(run, j), sel, op)
  {
    if i < j {
      NeverHeldAgain(run, i, j - 1, sel, op);
      InvAlways(run, j - 1);
      InvAlways(run, j);
      assert FollowsAt(run, j - 1);
      NotHeldKept(At(run, j - 1), run[j - 1], sel, op);
    }
  }
}
