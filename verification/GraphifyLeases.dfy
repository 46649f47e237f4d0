/** Reserving and acknowledging leases, one file-system step at a time. */
module GraphifyLeases {
  import opened Prelude
  import opened GraphifyLeaseRules

  /** The new id can be used: nothing has its name, and it was not acknowledged before. */
  predicate Drawable(root: Root, sel: Selection, op: OperationId, nonce: string) {
    Draft(sel, op, nonce) !in root && !HasAcked(root, sel, op)
  }

  /**
   The private root. Every step either takes its whole effect or throws with none, as
   the environment's `faults` decide. The history lists each state a step has left: a
   process that dies between two steps leaves one of them behind.
   */
  class PrivateRoot {
    var dirs: Root
    var calls: nat
    ghost var history: seq<Root>
    const faults: nat -> bool

    constructor (faults: nat -> bool)
      ensures dirs == map[] && history == [] && this.faults == faults
    {
      dirs, calls, history := map[], 0, [];
      this.faults := faults;
    }

    /** No step fails from now on. */
    ghost predicate Smooth()
      reads this
    {
      forall n :: n >= calls ==> !faults(n)
    }

    method Put(name: Name, content: Content) returns (ok: bool)
      modifies this
      ensures calls >= old(calls) && (old(Smooth()) ==> ok)
      ensures if ok then dirs == old(dirs)[name := content] && history == old(history) + [dirs]
              else dirs == old(dirs) && history == old(history)
    {
      ok := !faults(calls);
      calls := calls + 1;
      if ok {
        dirs := dirs[name := content];
        history := history + [dirs];
      }
    }

    /** Renaming onto an existing directory fails. */
    method Rename(from: Name, to: Name) returns (ok: bool)
      requires from in dirs && from != to
      modifies this
      ensures calls >= old(calls) && (old(Smooth()) ==> (ok <==> to !in old(dirs)))
      ensures if ok then to !in old(dirs) && dirs == old(dirs)[to := old(dirs)[from]] - {from} && history == old(history) + [dirs]
              else dirs == old(dirs) && history == old(history)
      ensures to in old(dirs) ==> !ok
    {
      ok := !faults(calls) && to !in dirs;
      calls := calls + 1;
      if ok {
        dirs := dirs[to := dirs[from]] - {from};
        history := history + [dirs];
      }
    }

    method Remove(name: Name) returns (ok: bool)
      modifies this
      ensures calls >= old(calls) && (old(Smooth()) ==> ok)
      ensures if ok then dirs == old(dirs) - {name} && history == old(history) + [dirs]
              else dirs == old(dirs) && history == old(history)
    {
      ok := !faults(calls);
      calls := calls + 1;
      if ok {
        dirs := dirs - {name};
        history := history + [dirs];
      }
    }

    /** Look for the selection's claim; two of them are an error. */
    method ReadClaim(sel: Selection) returns (claim: Result<Option<OperationId>>)
      requires Inv(dirs)
      ensures claim.Ok?
      ensures match claim.value
        case None => forall op :: Claim(sel, op) !in dirs
        case Some(op) => Claim(sel, op) in dirs
    {
      var left := dirs.Keys;
      var found: Option<OperationId> := None;
      while left != {}
        invariant left <= dirs.Keys
        invariant forall op :: Claim(sel, op) in dirs && Claim(sel, op) !in left ==> found == Some(op)
        invariant found.Some? ==> Claim(sel, found.value) in dirs && Claim(sel, found.value) !in left
        decreases left
      {
        var name :| name in left;
        left := left - {name};
        if name.Claim? && name.sel == sel {
          assert GoodEntry(dirs, name);
          if found.Some? || ReadLease(dirs, name, sel).Fail? { return Fail(Invalid); }
          found := Some(dirs[name].op);
        }
      }
      claim := Ok(found);
    }

    /** Move a claim left by an interrupted acknowledgement back to its active name. */
    method RecoverClaim(sel: Selection) returns (r: Result<Option<OperationId>>)
      requires Inv(dirs)
      modifies this
      ensures Inv(dirs) && SameView(old(dirs), dirs)
      ensures Extends(old(history), history)
           && forall i :: |old(history)| <= i < |history| ==> Inv(history[i]) && SameView(old(dirs), history[i])
      ensures calls >= old(calls) && (old(Smooth()) ==> r.Ok?)
      ensures forall name: Name :: name.Draft? ==> (name in dirs <==> name in old(dirs))
      ensures r.Ok? ==> match r.value
        case None => NothingHeld(dirs, sel) && Active(sel) !in dirs
        case Some(op) => Active(sel) in dirs && dirs[Active(sel)] == Lease(sel, op)
    {
      var active := ReadLease(dirs, Active(sel), sel);
      if active.Fail? { return Fail(Invalid); }
      var claim := ReadClaim(sel);
      if claim.Fail? { return Fail(Invalid); }
      if active.value.Some? && claim.value.Some? { return Fail(Invalid); }
      if claim.value.None? { return active; }
      var op := claim.value.value;
      UnclaimStep(dirs, sel, op);
      var moved := Rename(Claim(sel, op), Active(sel));
      r := if moved then Ok(Some(op)) else Fail(Invalid);
    }

    /** One step on a draft, unseen by any caller. */
    method PutDraft(sel: Selection, op: OperationId, nonce: string, content: Content, ghost start: Root) returns (ok: bool)
      requires Inv(dirs) && SameView(start, dirs) && content in {Empty, Torn, Lease(sel, op)}
      modifies this
      ensures Inv(dirs) && SameView(start, dirs)
      ensures Extends(old(history), history)
           && forall i :: |old(history)| <= i < |history| ==> Inv(history[i]) && SameView(start, history[i])
      ensures if ok then dirs == old(dirs)[Draft(sel, op, nonce) := content] else dirs == old(dirs)
      ensures calls >= old(calls) && (old(Smooth()) ==> ok)
    {
      DraftStep(dirs, Draft(sel, op, nonce), content);
      SameViewTrans(start, dirs, dirs[Draft(sel, op, nonce) := content]);
      ok := Put(Draft(sel, op, nonce), content);
    }

    /** Publish a whole lease record under its active name: draft, write, rename. */
    method Publish(sel: Selection, op: OperationId, nonce: string) returns (ok: bool)
      requires Inv(dirs) && NothingHeld(dirs, sel) && Active(sel) !in dirs && !HasAcked(dirs, sel, op)
      modifies this
      ensures Extends(old(history), history)
           && forall i :: |old(history)| <= i < |history| ==> ReserveVisits(old(dirs), sel, op, history[i])
      ensures if ok then ReserveVisits(old(dirs), sel, op, dirs) && Holds(dirs, sel, op)
              else Inv(dirs) && SameView(old(dirs), dirs)
      ensures calls >= old(calls) && (old(Smooth()) ==> (ok <==> Draft(sel, op, nonce) !in old(dirs)))
    {
      var draft := Draft(sel, op, nonce);
      if draft in dirs { return false; }
      ok := PutDraft(sel, op, nonce, Empty, dirs);
      if !ok { return; }
      ok := PutDraft(sel, op, nonce, Torn, old(dirs));
      if !ok { return; }
      ok := PutDraft(sel, op, nonce, Lease(sel, op), old(dirs));
      if !ok { return; }
      NothingHeldStays(old(dirs), dirs, sel);
      PublishStep(dirs, sel, op, nonce);
      ReserveVisitsLater(old(dirs), dirs, sel, op, dirs[Active(sel) := Lease(sel, op)] - {draft});
      ok := Rename(draft, Active(sel));
    }

    /** Reserve an operation: the unacknowledged one if there is one, else a new one. */
    method Reserve(sel: Selection, op: OperationId, nonce: string) returns (r: Result<OperationId>)
      requires Inv(dirs)
      modifies this
      ensures ReserveReturns(old(dirs), sel, op, dirs, r)
      ensures Extends(old(history), history)
           && forall i :: |old(history)| <= i < |history| ==> ReserveVisits(old(dirs), sel, op, history[i])
      ensures old(Smooth()) ==> (r.Ok? <==> ValidSelection(sel) && (Drawable(old(dirs), sel, op, nonce) || !NothingHeld(old(dirs), sel)))
    {
      if !ValidSelection(sel) { return Fail(Invalid); }
      var existing := RecoverClaim(sel);
      if existing.Fail? { return Fail(existing.error); }
      NothingHeldStays(old(dirs), dirs, sel);
      if existing.value.Some? {
        assert Holds(dirs, sel, existing.value.value);
        return Ok(existing.value.value);
      }
      var acknowledged := ReadLease(dirs, Acked(sel), sel);
      if acknowledged == Ok(Some(op)) { return Fail(Invalid); }
      ghost var recovered, sofar := dirs, history;
      var ok := Publish(sel, op, nonce);
      forall i | |sofar| <= i < |history| ensures ReserveVisits(old(dirs), sel, op, history[i]) {
        ReserveVisitsLater(old(dirs), recovered, sel, op, history[i]);
      }
      ReserveVisitsLater(old(dirs), recovered, sel, op, dirs);
      if ok { return Ok(op); }
      SameViewTrans(old(dirs), recovered, dirs);
      r := Withdraw(sel, op, nonce, old(dirs));
    }

    /** After a failed publication: look again for a lease, and clear the draft away. */
    method Withdraw(sel: Selection, op: OperationId, nonce: string, ghost start: Root) returns (r: Result<OperationId>)
      requires Inv(dirs) && SameView(start, dirs)
      modifies this
      ensures Inv(dirs) && SameView(start, dirs) && r.Fail?
      ensures Extends(old(history), history)
           && forall i :: |old(history)| <= i < |history| ==> Inv(history[i]) && SameView(start, history[i])
    {
      ghost var before := dirs;
      var winner := RecoverClaim(sel);
      forall s | SameView(before, s) ensures SameView(start, s) {
        SameViewTrans(start, before, s);
      }
      DraftStep(dirs, Draft(sel, op, nonce), Empty);
      SameViewTrans(start, dirs, dirs - {Draft(sel, op, nonce)});
      if Draft(sel, op, nonce) in dirs {
        var _ := Remove(Draft(sel, op, nonce));
      }
      r := Fail(if winner.Fail? then winner.error else Io);
    }

    /** Is `op` the acknowledged operation of the selection? */
    method RecoverAcknowledged(sel: Selection, op: OperationId) returns (yes: bool)
      requires Inv(dirs)
      ensures yes <==> HasAcked(dirs, sel, op)
    {
      var acknowledged := ReadLease(dirs, Acked(sel), sel);
      yes := acknowledged == Ok(Some(op));
      assert Acked(sel) in dirs ==> GoodEntry(dirs, Acked(sel));
    }

    /** Find the runs built for the operation: some completed, none pending, all of them intact. */
    static method VerifyCompleted(runs: seq<Run>, sel: Selection, op: OperationId) returns (r: Result<bool>)
      ensures r == Ok(true) <==> Completed(runs, sel, op)
    {
      var pending, completed, intact := false, false, true;
      for i := 0 to |runs|
        invariant pending <==> exists j :: 0 <= j < i && BuiltFor(runs[j], sel, op) && runs[j].projection.value.pending
        invariant completed <==> exists j :: 0 <= j < i && BuiltFor(runs[j], sel, op) && !runs[j].projection.value.pending
        invariant intact <==> forall j :: 0 <= j < i && BuiltFor(runs[j], sel, op) && !runs[j].projection.value.pending ==> runs[j].intact
      {
        if BuiltFor(runs[i], sel, op) {
          if runs[i].projection.value.pending {
            pending := true;
          } else {
            completed := true;
            intact := intact && runs[i].intact;
          }
        }
      }
      if pending || !completed { return Ok(false); }
      r := if intact then Ok(true) else Fail(Invalid);
    }

    /** Claim the lease, then make the claim the acknowledged record in place of the previous one. */
    method Commit(sel: Selection, op: OperationId) returns (ok: bool)
      requires Inv(dirs) && Active(sel) in dirs && dirs[Active(sel)] == Lease(sel, op)
      modifies this
      ensures Extends(old(history), history)
           && forall i :: |old(history)| <= i < |history| ==> AckVisits(old(dirs), sel, op, true, history[i])
      ensures AckVisits(old(dirs), sel, op, true, dirs)
      ensures ok <==> HasAcked(dirs, sel, op)
      ensures !ok ==> SameHeld(old(dirs), dirs, sel)
      ensures calls >= old(calls) && (old(Smooth()) ==> ok)
    {
      assert Holds(dirs, sel, op);
      ClaimStep(dirs, sel, op);
      ok := Rename(Active(sel), Claim(sel, op));
      if !ok { return; }
      ghost var claimed := dirs;
      NothingHeldStays(old(dirs), claimed, sel);
      if Acked(sel) in dirs {
        ForgetAckedStep(dirs, sel);
        ok := Remove(Acked(sel));
        if !ok { return; }
        AckVisitsLater(old(dirs), claimed, sel, op, true, dirs);
      }
      AckStep(dirs, sel, op);
      AckVisitsLater(old(dirs), claimed, sel, op, true, dirs[Acked(sel) := Lease(sel, op)] - {Claim(sel, op)});
      ok := Rename(Claim(sel, op), Acked(sel));
    }

    method Acknowledge(sel: Selection, op: OperationId, runs: seq<Run>) returns (r: Result<bool>)
      requires Inv(dirs)
      modifies this
      ensures AckReturns(old(dirs), sel, op, Completed(runs, sel, op), dirs, r)
      ensures Extends(old(history), history)
           && forall i :: |old(history)| <= i < |history| ==>
                AckVisits(old(dirs), sel, op, Completed(runs, sel, op), history[i])
      ensures old(Smooth()) ==>
        (r == Ok(true) <==> ValidSelection(sel) && ValidOperation(op)
                            && (HasAcked(old(dirs), sel, op) || (Holds(old(dirs), sel, op) && Completed(runs, sel, op))))
    {
      if !ValidSelection(sel) || !ValidOperation(op) { return Fail(Invalid); }
      var lease := RecoverClaim(sel);
      if lease.Fail? { return Fail(lease.error); }
      NothingHeldStays(old(dirs), dirs, sel);
      assert lease.value.Some? ==> Holds(dirs, sel, lease.value.value);
      if lease.value != Some(op) {
        assert !Holds(dirs, sel, op) by {
          if Holds(dirs, sel, op) && lease.value.Some? { OneHeld(dirs, sel, op, lease.value.value); }
        }
        var again := RecoverAcknowledged(sel, op);
        return Ok(again);
      }
      var completed := VerifyCompleted(runs, sel, op);
      if completed.Fail? { return Fail(completed.error); }
      if !completed.value {
        var again := RecoverAcknowledged(sel, op);
        return Ok(again);
      }
      ghost var start, sofar := dirs, history;
      var ok := Commit(sel, op);
      forall i | |sofar| <= i < |history| ensures AckVisits(old(dirs), sel, op, true, history[i]) {
        AckVisitsLater(old(dirs), start, sel, op, true, history[i]);
      }
      AckVisitsLater(old(dirs), start, sel, op, true, dirs);
      if ok { return Ok(true); }
      ghost var failed := dirs;
      var recovered := RecoverClaim(sel);
      forall t | Inv(t) && SameView(failed, t) ensures AckVisits(old(dirs), sel, op, true, t) && SameHeld(old(dirs), t, sel) {
        AckVisitsThen(old(dirs), sel, op, true, failed, t);
      }
      r := Fail(if recovered.Fail? then recovered.error else Uncertain(op));
    }

    /** Every unacknowledged lease, active or claimed; two for one selection would be an error. */
    method ReadLeases() returns (r: Result<set<(Selection, OperationId)>>)
      requires Inv(dirs)
      ensures r.Ok? && forall sel, op :: (sel, op) in r.value <==> Holds(dirs, sel, op)
    {
      var leases: set<(Selection, OperationId)>, selections: set<Selection> := {}, {};
      var left := dirs.Keys;
      while left != {}
        invariant left <= dirs.Keys
        invariant forall lease :: lease in leases ==> Holds(dirs, lease.0, lease.1)
        invariant forall name :: name in dirs && name !in left && IsLease(name) ==> (name.sel, dirs[name].op) in leases
        invariant forall sel :: sel in selections ==> exists name :: name in dirs && name !in left && IsLease(name) && name.sel == sel
        decreases left
      {
        var name :| name in left;
        left := left - {name};
        if IsLease(name) {
          assert GoodEntry(dirs, name);
          var lease := ReadLease(dirs, name, name.sel);
          if name.sel in selections || lease == Ok(None) || lease.Fail? { return Fail(Invalid); }
          selections := selections + {name.sel};
          leases := leases + {(name.sel, lease.value.value)};
        }
      }
      r := Ok(leases);
    }
  }
}
