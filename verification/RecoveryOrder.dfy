/**
 When reserving a task is safe. A completion that returns forgets its worker by task,
 so a worker reserved while one is outstanding can be dropped alive, and only then.
 */
module RecoveryOrder {
  import opened Prelude
  import opened RecoveryRegistry

  datatype Launch = Launch(task: TaskId, holder: Holder, writable: bool, id: RecordId, pid: nat)

  /** The registry after the task was reserved and its child attached. */
  function Relaunched(s: Registry, w: Launch): Registry
    requires w.id !in s.records
  {
    Next(Next(s, Reserve(w.task, w.holder, w.writable, w.id)), Attach(w.task, w.holder, w.id, w.pid))
  }

  /** The step drops the new worker from the registry while it is alive. */
  ghost predicate DropsAlive(s: Registry, st: Step, w: Launch) {
    && w.id !in s.records
    && var s' := Relaunched(s, w);
       && Enabled(s', st) && Leaves(s', w.id, Next(s', st))
       && s'.records[w.id].child.Some? && !s'.records[w.id].reaped
  }

  lemma {:induction false} RelaunchedWorker(s: Registry, w: Launch)
    requires w.task !in s.tasks && w.id !in s.records
    ensures Relaunched(s, w)
         == Registry(s.tasks[w.task := w.id],
                  s.records[w.id := Record(w.task, w.holder, Some(w.pid), Tracked, if w.writable then Pending else NoBind, false, false)],
                  s.calls)
  {
  }

  /**
   After any run, orderly or not: launching a new worker for a free task can be followed by a
   step that drops it alive if and only if a completion for the task is outstanding.
   */
  lemma {:induction false} LaunchIsSafeIffNothingOutstanding(steps: seq<Step>, w: Launch)
    requires Exec(steps).Some? && w.task !in Exec(steps).value.tasks && w.id !in Exec(steps).value.records
    ensures (exists st :: DropsAlive(Exec(steps).value, st, w))
       <==> (exists c :: CompletionOutstanding(Exec(steps).value, c, w.task))
  {
    var s := Exec(steps).value;
    AlwaysInv(steps);
    RelaunchedWorker(s, w);
    if c :| CompletionOutstanding(s, c, w.task) {
      CompletionDropsAlive(s, c, w);
    }
    if st :| DropsAlive(s, st, w) {
      OnlyCompletionDropsAlive(s, st, w);
    }
  }

  lemma {:induction false} CompletionDropsAlive(s: Registry, c: CallId, w: Launch)
    requires Inv(s) && w.task !in s.tasks && w.id !in s.records && CompletionOutstanding(s, c, w.task)
    ensures DropsAlive(s, CompletionReturns(c, true), w)
  {
    RelaunchedWorker(s, w);
  }

  lemma {:induction false} OnlyCompletionDropsAlive(s: Registry, st: Step, w: Launch)
    requires Inv(s) && w.task !in s.tasks && DropsAlive(s, st, w)
    ensures st.CompletionReturns? && CompletionOutstanding(s, st.call, w.task)
  {
    RelaunchedWorker(s, w);
    var s' := Relaunched(s, w);
    TaskNeverChanges(s', st, w.id);
    if st.CompletionReturns? {
      assert CallOk(s.records[s.calls[st.call].record], s.calls[st.call]);
    } else if st.Abort? {
      AbortKeepsWorkers(s', st, w.id);
    } else {
      TasksKept(s', st, w.task);
    }
  }

  lemma {:induction false} AbortKeepsWorkers(s: Registry, st: Step, id: RecordId)
    requires st.Abort? && TracksIt(s, id) && !s.records[id].phase.Reserved?
    ensures TracksIt(Next(s, st), id)
  {
  }
}
