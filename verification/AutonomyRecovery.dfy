/**
 The recovery registry as an object over worker objects. A method runs to the first
 await of the call it models, and a `...Returned` method resumes the call after one.
 Each is proved to take the step of `RecoveryRegistry` with the same name. `calls` stands
 for the suspended calls and `workers` for every worker ever made, tracked or forgotten.
 */
module AutonomyRecovery {
  import opened Prelude
  import opened RecoveryRegistry

  /** What a call does next: it was refused, it has succeeded, or it waits. */
  datatype Outcome = Refused | Succeeded | Awaiting(at: Await)

  class Worker {
    ghost const id: RecordId
    const task: TaskId
    const holder: Holder
    var child: Option<nat>
    var phase: Phase
    var bind: Bind
    var reaped: bool
    ghost var proved: bool

    constructor (ghost id: RecordId, task: TaskId, holder: Holder, bind: Bind)
      ensures this.id == id && this.task == task && this.holder == holder
      ensures View() == Record(task, holder, None, Reserved, bind, false, false)
    {
      this.id, this.task, this.holder, this.bind := id, task, holder, bind;
      child, phase, reaped, proved := None, Reserved, false, false;
    }

    ghost function View(): Record
      reads this
    {
      Record(task, holder, child, phase, bind, reaped, proved)
    }

    method OnExit()
      modifies this`reaped
      ensures View() == old(View()).(reaped := true)
    {
      reaped := true;
    }
  }

  class AutonomyRecoveryRegistry {
    var records: map<TaskId, Worker>
    ghost var workers: map<RecordId, Worker>
    ghost var calls: map<CallId, Call>

    ghost predicate Valid()
      reads this
    {
      && (forall id :: id in workers ==> workers[id].id == id)
      && (forall t :: t in records ==> records[t].id in workers && workers[records[t].id] == records[t])
    }

    ghost function View(): Registry
      reads this, workers.Values
    {
      Registry(map t | t in records :: records[t].id, map id | id in workers :: workers[id].View(), calls)
    }

    constructor ()
      ensures Valid() && View() == EMPTY
    {
      records, workers, calls := map[], map[], map[];
    }

    /** No other worker of ours has this one's identity. */
    ghost predicate Distinct(w: Worker)
      reads this
    {
      w.id in workers ==> workers[w.id] == w
    }

    /** The call's worker is one of ours, and the call waits at this point. */
    ghost predicate Suspended(c: CallId, w: Worker, at: Await, hasCompletion: bool)
      reads this
    {
      && w.id in workers && workers[w.id] == w
      && c in calls && calls[c].record == w.id && calls[c].await_ == at && calls[c].hasCompletion == hasCompletion
    }

    /** What the caller is told is where the call stands. */
    ghost predicate Stands(c: CallId, o: Outcome)
      reads this
    {
      match o
      case Awaiting(at) => c in calls && calls[c].await_ == at
      case Refused => c !in calls
      case Succeeded => c !in calls
    }

    /** Workers are distinct objects, so writing one changes one record of the view. */
    twostate lemma OneChanged(w: Worker)
      requires old(Valid()) && Valid() && workers == old(workers) && records == old(records) && calls == old(calls)
      requires w.id in workers && workers[w.id] == w
      requires forall v :: v in workers.Values && v != w ==> v.View() == old(v.View())
      ensures View() == Put(old(View()), w.id, w.View())
    {
      forall id | id in workers && id != w.id ensures View().records[id] == old(View()).records[id] {
        assert workers[id] in workers.Values;
      }
    }

    method SetPhase(w: Worker, phase: Phase)
      requires Valid() && w.id in workers && workers[w.id] == w
      modifies w`phase
      ensures Valid() && View() == Phased(old(View()), w.id, phase)
      ensures w.phase == phase
    {
      w.phase := phase;
      OneChanged(w);
    }

    /** Suspend the call in an await. */
    ghost method Suspend(c: CallId, call: Call)
      requires Valid()
      modifies this`calls
      ensures Valid() && View() == Await_(old(View()), c, call)
    {
      calls := calls[c := call];
    }

    /** The call returns. */
    ghost method End(c: CallId)
      requires Valid()
      modifies this`calls
      ensures Valid() && View() == Return(old(View()), c)
    {
      calls := calls - {c};
    }

    /** Ask for the durable completion, if the caller passed one. */
    method AskCompletion(ghost c: CallId, ghost call: Call, hasCompletion: bool) returns (o: Outcome)
      requires Valid() && call.hasCompletion == hasCompletion
      modifies this`calls
      ensures Valid() && View() == Complete(old(View()), c, call)
      ensures Stands(c, o)
    {
      if hasCompletion {
        Suspend(c, call.(await_ := Completing));
        o := Awaiting(Completing);
      } else {
        End(c);
        o := Refused;
      }
    }

    /** Adding a worker changes no record of the others. */
    twostate lemma OthersKept(new w: Worker)
      requires w.id !in old(workers) && workers == old(workers)[w.id := w]
      requires forall v :: v in old(workers.Values) ==> v.View() == old(v.View())
      ensures View().records == old(View()).records[w.id := w.View()]
    {
      forall id | id in old(workers) ensures View().records[id] == old(View()).records[id] {
        assert workers[id] == old(workers[id]) && workers[id] in old(workers.Values);
      }
    }

    twostate lemma TaskAdded(new w: Worker)
      requires old(Valid()) && w.id !in old(workers) && w.task !in old(records)
      requires records == old(records)[w.task := w] && workers == old(workers)[w.id := w]
      ensures Valid() && View().tasks == old(View()).tasks[w.task := w.id]
    {
      forall t | t in old(records) ensures records[t].id in workers && workers[records[t].id] == records[t] {
        assert old(records[t].id in workers && workers[records[t].id] == records[t]);
      }
    }

    method Reserve(task: TaskId, holder: Holder, writable: bool, ghost id: RecordId) returns (reservation: Option<Worker>)
      requires Valid() && id !in workers
      modifies this
      ensures Valid() && View() == Next(old(View()), Step.Reserve(task, holder, writable, id))
      ensures reservation.Some? <==> task !in old(records)
      ensures reservation.Some? ==> task in records && records[task] == reservation.value && reservation.value.id == id
    {
      if task in records { return None; }
      var w := new Worker(id, task, holder, if writable then Pending else NoBind);
      records := records[task := w];
      workers := workers[id := w];
      OthersKept(w);
      TaskAdded(w);
      reservation := Some(w);
    }

    /** The worker tracked for the task, if this holder may use it. */
    method Find(task: TaskId, holder: Holder) returns (w: Option<Worker>)
      requires Valid()
      ensures w.Some? ==> workers.Values != {} && w.value.id in workers && workers[w.value.id] == w.value
      ensures w.Some? ==> task in records && records[task] == w.value
      ensures Mine(View(), task, holder) == if w.Some? then Some(w.value.id) else None
    {
      if task !in records || records[task].holder != holder { return None; }
      w := Some(records[task]);
    }

    method AbortReservation(task: TaskId, holder: Holder, reservation: Worker) returns (ok: bool)
      requires Valid() && Distinct(reservation)
      modifies this
      ensures Valid() && View() == Next(old(View()), Abort(task, holder, reservation.id))
      ensures ok <==> records != old(records)
    {
      var w := Find(task, holder);
      if w.None? || w.value != reservation || w.value.phase != Reserved || w.value.child.Some? { return false; }
      records := records - {task};
      ok := true;
    }

    method Attach(task: TaskId, holder: Holder, reservation: Worker, pid: nat) returns (ok: bool)
      requires Valid() && Distinct(reservation)
      modifies workers.Values
      ensures Valid() && View() == Next(old(View()), Step.Attach(task, holder, reservation.id, pid))
      ensures ok <==> View() != old(View())
    {
      var w := Find(task, holder);
      if w.None? || w.value != reservation || w.value.phase != Reserved || w.value.child.Some? { return false; }
      reservation.child := Some(pid);
      reservation.phase := Tracked;
      OneChanged(reservation);
      ok := true;
    }

    method AttestWritableBind(task: TaskId, holder: Holder, launcherPid: nat) returns (ok: bool)
      requires Valid()
      modifies workers.Values
      ensures Valid() && View() == Next(old(View()), Attest(task, holder, launcherPid))
      ensures ok <==> View() != old(View())
    {
      var w := Find(task, holder);
      if w.None? || w.value.phase != Tracked || w.value.child.None? || w.value.reaped { return false; }
      if w.value.bind != Pending || w.value.child.value != launcherPid { return false; }
      w.value.bind := Writable(launcherPid);
      OneChanged(w.value);
      ok := true;
    }

    /** The exit event of a worker's child, tracked or forgotten. */
    method ChildExited(w: Worker)
      requires Valid() && w.id in workers && workers[w.id] == w && w.child.Some?
      modifies w`reaped
      ensures Valid() && View() == Next(old(View()), ChildExits(w.id))
    {
      w.OnExit();
      OneChanged(w);
    }

    method Finalize(task: TaskId, holder: Holder, hasCompletion: bool, ghost c: CallId) returns (o: Outcome)
      requires Valid() && c !in calls
      modifies this`calls, workers.Values
      ensures Valid() && View() == Next(old(View()), Step.Finalize(task, holder, hasCompletion, c))
      ensures Stands(c, o)
    {
      var found := Find(task, holder);
      if found.None? { return Refused; }
      var w := found.value;
      if w.phase == Tracked {
        if w.child.None? || !w.reaped { return Refused; }
        SetPhase(w, Finalizing);
        Suspend(c, Call(w.id, holder, FinalProof, hasCompletion));
        return Awaiting(FinalProof);
      }
      if w.phase != Finalized { return Refused; }
      o := AskCompletion(c, Call(w.id, holder, FinalProof, hasCompletion), hasCompletion);
    }

    /** `signalled` is whether the child took the SIGTERM. */
    method Recover(task: TaskId, holder: Holder, hasCompletion: bool, ghost c: CallId, signalled: bool) returns (o: Outcome)
      requires Valid() && c !in calls
      modifies this`calls, workers.Values
      ensures Valid() && View() == Next(old(View()), Step.Recover(task, holder, hasCompletion, c, signalled))
      ensures Stands(c, o)
    {
      var found := Find(task, holder);
      if found.None? { return Refused; }
      o := RecoverWorker(found.value, holder, hasCompletion, c, signalled);
    }

    method RecoverWorker(w: Worker, holder: Holder, hasCompletion: bool, ghost c: CallId, signalled: bool) returns (o: Outcome)
      requires Valid() && c !in calls && w.id in workers && workers[w.id] == w
      modifies this`calls, w`phase
      ensures Valid() && View() == RecoverRecord(old(View()), w.id, Call(w.id, holder, RecoverProof, hasCompletion), c, signalled)
      ensures Stands(c, o)
    {
      if w.phase == Reserved || w.phase == Quarantined || w.phase == Recovering || w.phase == Finalizing { return Refused; }
      if w.phase == Proved {
        o := AskCompletion(c, Call(w.id, holder, RecoverProof, hasCompletion), hasCompletion);
      } else {
        o := Stop(w, holder, hasCompletion, c, signalled);
      }
    }

    /** Start stopping a worker that nobody is stopping or has stopped. */
    method Stop(w: Worker, holder: Holder, hasCompletion: bool, ghost c: CallId, signalled: bool) returns (o: Outcome)
      requires Valid() && c !in calls && w.id in workers && workers[w.id] == w
      modifies this`calls, w`phase
      ensures Valid() && View() == StopNext(old(View()), w.id, Call(w.id, holder, RecoverProof, hasCompletion), c, signalled)
      ensures Stands(c, o)
    {
      if w.phase != Tracked || w.child.None? {
        SetPhase(w, Quarantined);
        return Refused;
      }
      SetPhase(w, Recovering);
      if w.reaped {
        Suspend(c, Call(w.id, holder, RecoverProof, hasCompletion));
        return Awaiting(RecoverProof);
      }
      if !signalled {
        SetPhase(w, Quarantined);
        return Refused;
      }
      Suspend(c, Call(w.id, holder, TermWait, hasCompletion));
      o := Awaiting(TermWait);
    }

    /** The wait for the exit is over; `signalled` is whether the child would take a SIGKILL. */
    method ExitWaitReturned(ghost c: CallId, w: Worker, at: Await, hasCompletion: bool, exited: bool, signalled: bool)
      returns (o: Outcome)
      requires Valid() && Suspended(c, w, at, hasCompletion) && (at.TermWait? || at.KillWait?)
      modifies this`calls, w`phase
      ensures Valid() && View() == Next(old(View()), WaitReturns(c, exited, signalled))
      ensures Stands(c, o)
    {
      if exited && w.reaped {
        Suspend(c, calls[c].(await_ := RecoverProof));
        return Awaiting(RecoverProof);
      }
      if at.TermWait? && (signalled || w.reaped) {
        Suspend(c, calls[c].(await_ := KillWait));
        return Awaiting(KillWait);
      }
      SetPhase(w, Quarantined);
      End(c);
      o := Refused;
    }

    /** The proof that the bind is gone has returned; a pending bind was never proved. */
    method ProofReturned(ghost c: CallId, w: Worker, at: Await, hasCompletion: bool, ok: bool) returns (o: Outcome)
      requires Valid() && Suspended(c, w, at, hasCompletion) && (at.FinalProof? || at.RecoverProof?)
      modifies this`calls, w`phase, w`proved
      ensures Valid() && View() == Next(old(View()), ProofReturns(c, ok))
      ensures Stands(c, o)
    {
      if !ok || w.bind == Pending {
        SetPhase(w, Quarantined);
        End(c);
        return Refused;
      }
      w.proved := true;
      w.phase := if at.FinalProof? then Finalized else Proved;
      OneChanged(w);
      o := AskCompletion(c, calls[c], hasCompletion);
    }

    /** The durable completion has returned or thrown; the registry forgets by task. */
    method CompletionReturned(ghost c: CallId, w: Worker, hasCompletion: bool, ok: bool) returns (o: Outcome)
      requires Valid() && Suspended(c, w, Completing, hasCompletion)
      modifies this
      ensures Valid() && View() == Next(old(View()), CompletionReturns(c, ok))
      ensures Stands(c, o) && (o.Succeeded? <==> ok)
    {
      End(c);
      if !ok { return Refused; }
      records := records - {w.task};
      o := Succeeded;
    }
  }
}
