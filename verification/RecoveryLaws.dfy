/** What the registry does for a worker that lets itself be stopped, and when it gives one up. */
module RecoveryLaws {
  import opened Prelude
  import opened RecoveryRegistry

  // --------------------------------------------------------------- when one is given up

  /** A signal was refused, the exit was not seen after the last one, the proof failed, or there was nothing to stop. */
  predicate GivesUp(s: Registry, st: Step, id: RecordId) {
    && id in s.records
    && match st
       case Recover(task, holder, _, _, signalled) =>
         Mine(s, task, holder) == Some(id)
         && (s.records[id].phase.Finalized? || (s.records[id].phase.Tracked? && !s.records[id].reaped && !signalled))
       case WaitReturns(c, exited, signalled) =>
         c in s.calls && s.calls[c].record == id && !(exited && s.records[id].reaped)
         && (s.calls[c].await_.KillWait? || (!signalled && !s.records[id].reaped))
       case ProofReturns(c, ok) =>
         c in s.calls && s.calls[c].record == id && (!ok || s.records[id].bind.Pending?)
       case _ => false
  }

  /** In every reachable state: a worker that was not quarantined is quarantined by a step exactly when the step gives it up. */
  lemma {:induction false} QuarantinedIffGivenUp(steps: seq<Step>, st: Step, id: RecordId)
    requires Exec(steps).Some? && Enabled(Exec(steps).value, st)
    requires id in Exec(steps).value.records && !Exec(steps).value.records[id].phase.Quarantined?
    ensures id in Next(Exec(steps).value, st).records
    ensures Next(Exec(steps).value, st).records[id].phase.Quarantined? <==> GivesUp(Exec(steps).value, st, id)
  {
    AlwaysInv(steps);
    var s := Exec(steps).value;
    TaskNeverChanges(s, st, id);
    if st.WaitReturns? || st.ProofReturns? {
      WorkingStep(s, st, id);
    } else {
      StartingStep(s, st, id);
    }
  }

  lemma {:induction false} WorkingStep(s: Registry, st: Step, id: RecordId)
    requires Inv(s) && Enabled(s, st) && id in s.records && !s.records[id].phase.Quarantined? && (st.WaitReturns? || st.ProofReturns?)
    ensures id in Next(s, st).records && (Next(s, st).records[id].phase.Quarantined? <==> GivesUp(s, st, id))
  {
  }

  lemma {:induction false} StartingStep(s: Registry, st: Step, id: RecordId)
    requires Inv(s) && Enabled(s, st) && id in s.records && !s.records[id].phase.Quarantined? && !st.WaitReturns? && !st.ProofReturns?
    ensures id in Next(s, st).records && (Next(s, st).records[id].phase.Quarantined? <==> GivesUp(s, st, id))
  {
    assert RecordOk(s.records[id]);
  }

  // ------------------------------------------------------------ when one is let go

  /** The registry after these steps, if each is enabled in its turn. */
  function Follow(s: Registry, steps: seq<Step>): Option<Registry>
    decreases |steps|
  {
    if steps == [] then Some(s)
    else if !Enabled(s, steps[0]) then None
    else Follow(Next(s, steps[0]), steps[1..])
  }

  lemma {:induction false} FollowMore(s: Registry, steps: seq<Step>, more: seq<Step>)
    requires Follow(s, steps).Some?
    ensures Follow(s, steps + more) == Follow(Follow(s, steps).value, more)
    decreases |steps|
  {
    if steps == [] {
      assert steps + more == more;
    } else {
      assert (steps + more)[0] == steps[0] && (steps + more)[1..] == steps[1..] + more;
      FollowMore(Next(s, steps[0]), steps[1..], more);
    }
  }

  lemma FollowOne(s: Registry, st: Step)
    requires Enabled(s, st)
    ensures Follow(s, [st]) == Some(Next(s, st))
  {
    assert [st][1..] == [];
  }

  lemma FollowTwo(s: Registry, a: Step, b: Step)
    requires Enabled(s, a) && Enabled(Next(s, a), b)
    ensures Follow(s, [a, b]) == Some(Next(Next(s, a), b))
  {
    assert [a, b][1..] == [b];
    FollowOne(Next(s, a), b);
  }

  /** This record is the live worker of its task and holder, and its bind can be proved gone. */
  predicate LiveWorker(s: Registry, id: RecordId, task: TaskId, holder: Holder) {
    && Mine(s, task, holder) == Some(id) && s.records[id].task == task
    && s.records[id].phase.Tracked? && s.records[id].child.Some? && !s.records[id].bind.Pending?
  }

  /** The call waits for the proof of this worker, whose exit was seen. */
  predicate ToBeProved(s: Registry, c: CallId, id: RecordId, task: TaskId, at: Await) {
    && c in s.calls && s.calls[c].record == id && s.calls[c].await_ == at && s.calls[c].hasCompletion
    && id in s.records && s.records[id].task == task && s.records[id].reaped && !s.records[id].bind.Pending?
    && (at.FinalProof? || at.RecoverProof?)
  }

  /** The proof succeeds and the completion is durable. */
  function Letting(c: CallId): seq<Step> {
    [ProofReturns(c, true), CompletionReturns(c, true)]
  }

  /** The worker is let go, and the call has returned. */
  lemma ProvedIsForgotten(s: Registry, c: CallId, id: RecordId, task: TaskId, at: Await) returns (proved: Registry, end: Registry)
    requires ToBeProved(s, c, id, task, at)
    ensures Follow(s, [ProofReturns(c, true)]) == Some(proved)
    ensures id in proved.records && proved.records[id].proved
    ensures proved.records[id].phase == if at.FinalProof? then Finalized else Proved
    ensures Follow(s, Letting(c)) == Some(end) && task !in end.tasks && c !in end.calls
  {
    FollowOne(s, ProofReturns(c, true));
    proved := Next(s, ProofReturns(c, true));
    FollowTwo(s, ProofReturns(c, true), CompletionReturns(c, true));
    end := Next(proved, CompletionReturns(c, true));
  }

  /** A worker that ends by itself is finalized and forgotten. */
  lemma FinishedWorkerIsForgotten(s: Registry, id: RecordId, task: TaskId, holder: Holder, c: CallId) returns (end: Registry)
    requires LiveWorker(s, id, task, holder) && c !in s.calls
    ensures Follow(s, [ChildExits(id), Finalize(task, holder, true, c)] + Letting(c)) == Some(end)
    ensures task !in end.tasks && c !in end.calls
  {
    FollowTwo(s, ChildExits(id), Finalize(task, holder, true, c));
    var s' := Next(Next(s, ChildExits(id)), Finalize(task, holder, true, c));
    var proved;
    proved, end := ProvedIsForgotten(s', c, id, task, FinalProof);
    FollowMore(s, [ChildExits(id), Finalize(task, holder, true, c)], Letting(c));
  }

  /** The stop of a live worker, with the exit seen in the first wait, or after a kill in the second. */
  function Stopping(id: RecordId, task: TaskId, holder: Holder, c: CallId, killed: bool): seq<Step> {
    if killed then [Recover(task, holder, true, c, true), WaitReturns(c, false, true)] + [ChildExits(id), WaitReturns(c, true, false)]
    else [Recover(task, holder, true, c, true), ChildExits(id)] + [WaitReturns(c, true, false)]
  }

  lemma TermIsEnough(s: Registry, id: RecordId, task: TaskId, holder: Holder, c: CallId) returns (s': Registry)
    requires LiveWorker(s, id, task, holder) && !s.records[id].reaped && c !in s.calls
    ensures Follow(s, Stopping(id, task, holder, c, false)) == Some(s') && ToBeProved(s', c, id, task, RecoverProof)
  {
    var recover, wait := Recover(task, holder, true, c, true), WaitReturns(c, true, false);
    FollowTwo(s, recover, ChildExits(id));
    var exited := Next(Next(s, recover), ChildExits(id));
    FollowOne(exited, wait);
    FollowMore(s, [recover, ChildExits(id)], [wait]);
    s' := Next(exited, wait);
  }

  lemma KillIsEnough(s: Registry, id: RecordId, task: TaskId, holder: Holder, c: CallId) returns (s': Registry)
    requires LiveWorker(s, id, task, holder) && !s.records[id].reaped && c !in s.calls
    ensures Follow(s, Stopping(id, task, holder, c, true)) == Some(s') && ToBeProved(s', c, id, task, RecoverProof)
  {
    var recover, wait, again := Recover(task, holder, true, c, true), WaitReturns(c, false, true), WaitReturns(c, true, false);
    FollowTwo(s, recover, wait);
    var waiting := Next(Next(s, recover), wait);
    FollowTwo(waiting, ChildExits(id), again);
    FollowMore(s, [recover, wait], [ChildExits(id), again]);
    s' := Next(Next(waiting, ChildExits(id)), again);
  }

  /**
   A live worker whose signals are taken and whose exit is seen, in the wait after the
   SIGTERM or in the one after the SIGKILL, is proved, and its completion forgets it.
   */
  lemma StoppedWorkerIsForgotten(s: Registry, id: RecordId, task: TaskId, holder: Holder, c: CallId, killed: bool)
    returns (proved: Registry, end: Registry)
    requires LiveWorker(s, id, task, holder) && !s.records[id].reaped && c !in s.calls
    ensures Follow(s, Stopping(id, task, holder, c, killed) + [ProofReturns(c, true)]) == Some(proved)
    ensures id in proved.records && proved.records[id].phase.Proved?
    ensures Follow(s, Stopping(id, task, holder, c, killed) + Letting(c)) == Some(end)
    ensures task !in end.tasks && c !in end.calls
  {
    var s';
    if killed { s' := KillIsEnough(s, id, task, holder, c); } else { s' := TermIsEnough(s, id, task, holder, c); }
    FollowMore(s, Stopping(id, task, holder, c, killed), [ProofReturns(c, true)]);
    FollowMore(s, Stopping(id, task, holder, c, killed), Letting(c));
    proved, end := ProvedIsForgotten(s', c, id, task, RecoverProof);
  }

  /** A worker that is found to have exited already is proved without any signal. */
  lemma ExitedWorkerIsForgotten(s: Registry, id: RecordId, task: TaskId, holder: Holder, c: CallId, signalled: bool)
    returns (end: Registry)
    requires LiveWorker(s, id, task, holder) && s.records[id].reaped && c !in s.calls
    ensures Follow(s, [Recover(task, holder, true, c, signalled)] + Letting(c)) == Some(end)
    ensures task !in end.tasks && c !in end.calls
  {
    FollowOne(s, Recover(task, holder, true, c, signalled));
    FollowMore(s, [Recover(task, holder, true, c, signalled)], Letting(c));
    var proved;
    proved, end := ProvedIsForgotten(Next(s, Recover(task, holder, true, c, signalled)), c, id, task, RecoverProof);
  }

  /** What was proved without a completion waits for one: the next call with one forgets it. */
  lemma ProvedWaitsForCompletion(s: Registry, id: RecordId, task: TaskId, holder: Holder, c: CallId) returns (end: Registry)
    requires Mine(s, task, holder) == Some(id) && s.records[id].task == task && c !in s.calls
    requires s.records[id].phase.Proved? || s.records[id].phase.Finalized?
    ensures var call := if s.records[id].phase.Proved? then Recover(task, holder, true, c, false) else Finalize(task, holder, true, c);
      Follow(s, [call, CompletionReturns(c, true)]) == Some(end)
    ensures task !in end.tasks && c !in end.calls
  {
    var call := if s.records[id].phase.Proved? then Recover(task, holder, true, c, false) else Finalize(task, holder, true, c);
    FollowTwo(s, call, CompletionReturns(c, true));
    end := Next(Next(s, call), CompletionReturns(c, true));
  }

  /** A free task can be reserved, its child attached and its bind attested: then it has a live worker. */
  lemma LaunchedIsLive(s: Registry, id: RecordId, task: TaskId, holder: Holder, writable: bool, pid: nat) returns (s': Registry)
    requires task !in s.tasks && id !in s.records
    ensures Follow(s, [Reserve(task, holder, writable, id), Attach(task, holder, id, pid)] + [Attest(task, holder, pid)]) == Some(s')
    ensures LiveWorker(s', id, task, holder) && !s'.records[id].reaped
    ensures s'.records[id].bind == if writable then Writable(pid) else NoBind
  {
    var a, b := Reserve(task, holder, writable, id), Attach(task, holder, id, pid);
    FollowTwo(s, a, b);
    FollowOne(Next(Next(s, a), b), Attest(task, holder, pid));
    FollowMore(s, [a, b], [Attest(task, holder, pid)]);
    s' := Next(Next(Next(s, a), b), Attest(task, holder, pid));
  }

  /** A reservation whose spawn failed can be taken back. */
  lemma AbortedIsFree(s: Registry, id: RecordId, task: TaskId, holder: Holder, writable: bool)
    requires task !in s.tasks && id !in s.records
    ensures Follow(s, [Reserve(task, holder, writable, id), Abort(task, holder, id)]).Some?
    ensures task !in Follow(s, [Reserve(task, holder, writable, id), Abort(task, holder, id)]).value.tasks
  {
    FollowTwo(s, Reserve(task, holder, writable, id), Abort(task, holder, id));
  }
}
