/** The registry of live workers as a step machine. */
module RecoveryRegistry {
  import opened Prelude

  type TaskId = string
  type Holder = nat
  type RecordId = nat
  type CallId = nat

  datatype Bind = NoBind | Pending | Writable(launcherPid: nat)

  datatype Phase = Reserved | Tracked | Finalizing | Finalized | Recovering | Proved | Quarantined

  /** `child` is the attached child's process id, if any; `proved` is whether its bind was proved revoked. */
  datatype Record = Record(
    task: TaskId, holder: Holder, child: Option<nat>, phase: Phase, bind: Bind, reaped: bool, proved: bool)

  /** Where an asynchronous call is waiting. */
  datatype Await = FinalProof | TermWait | KillWait | RecoverProof | Completing

  datatype Call = Call(record: RecordId, holder: Holder, await_: Await, hasCompletion: bool)

  datatype Registry = Registry(
    tasks: map<TaskId, RecordId>, records: map<RecordId, Record>, calls: map<CallId, Call>)

  const EMPTY := Registry(map[], map[], map[])

  /**
   A step is the code one call runs between two awaits, or an event: a child exits, a wait, a
   proof or a durable completion returns. Records are objects, so they have an identity
   besides their task.
   */
  datatype Step =
    | Reserve(task: TaskId, holder: Holder, writable: bool, fresh_: RecordId)
    | Abort(task: TaskId, holder: Holder, reservation: RecordId)
    | Attach(task: TaskId, holder: Holder, reservation: RecordId, pid: nat)
    | Attest(task: TaskId, holder: Holder, pid: nat)
    | ChildExits(record: RecordId)
    | Finalize(task: TaskId, holder: Holder, hasCompletion: bool, call: CallId)
    | Recover(task: TaskId, holder: Holder, hasCompletion: bool, call: CallId, signalled: bool)
    | WaitReturns(call: CallId, exited: bool, signalled: bool)
    | ProofReturns(call: CallId, ok: bool)
    | CompletionReturns(call: CallId, ok: bool)

  predicate Enabled(s: Registry, st: Step) {
    match st
    case Reserve(_, _, _, r) => r !in s.records
    case Abort(_, _, _) => true
    case Attach(_, _, _, _) => true
    case Attest(_, _, _) => true
    case ChildExits(r) => r in s.records && s.records[r].child.Some?
    case Finalize(_, _, _, c) => c !in s.calls
    case Recover(_, _, _, c, _) => c !in s.calls
    case WaitReturns(c, _, _) => Waits(s, c, TermWait) || Waits(s, c, KillWait)
    case ProofReturns(c, _) => Waits(s, c, FinalProof) || Waits(s, c, RecoverProof)
    case CompletionReturns(c, _) => Waits(s, c, Completing)
  }

  predicate Waits(s: Registry, c: CallId, at: Await) {
    c in s.calls && s.calls[c].await_ == at && s.calls[c].record in s.records
  }

  /** The record tracked for the task, if this holder may use it. */
  function Mine(s: Registry, task: TaskId, holder: Holder): Option<RecordId> {
    if task in s.tasks && s.tasks[task] in s.records && s.records[s.tasks[task]].holder == holder
    then Some(s.tasks[task]) else None
  }

  function Put(s: Registry, id: RecordId, r: Record): Registry {
    s.(records := s.records[id := r])
  }

  function Phased(s: Registry, id: RecordId, phase: Phase): Registry
    requires id in s.records
  {
    Put(s, id, s.records[id].(phase := phase))
  }

  function Await_(s: Registry, c: CallId, call: Call): Registry {
    s.(calls := s.calls[c := call])
  }

  function Return(s: Registry, c: CallId): Registry {
    s.(calls := s.calls - {c})
  }

  /** Forget by task: whatever record is tracked for it now is dropped. */
  function Forget(s: Registry, id: RecordId): Registry
    requires id in s.records
  {
    s.(tasks := s.tasks - {s.records[id].task})
  }

  /** Ask for the durable completion, if the caller passed one. */
  function Complete(s: Registry, c: CallId, call: Call): Registry {
    if call.hasCompletion then Await_(s, c, call.(await_ := Completing)) else Return(s, c)
  }

  predicate Abortable(s: Registry, id: RecordId) {
    id in s.records && s.records[id].phase.Reserved? && s.records[id].child.None?
  }

  function FinalizeNext(s: Registry, task: TaskId, holder: Holder, hasCompletion: bool, c: CallId): Registry {
    var mine := Mine(s, task, holder);
    if mine.None? then s
    else
      var id, call := mine.value, Call(mine.value, holder, FinalProof, hasCompletion);
      var r := s.records[id];
      if r.phase.Tracked? && r.child.Some? && r.reaped then Await_(Phased(s, id, Finalizing), c, call)
      else if r.phase.Finalized? then Complete(s, c, call)
      else s
  }

  /** Stop a tracked worker: go on to the proof if it has exited, otherwise wait for its exit. */
  function StopNext(s: Registry, id: RecordId, call: Call, c: CallId, signalled: bool): Registry
    requires id in s.records
  {
    var r := s.records[id];
    if !r.phase.Tracked? || r.child.None? then Phased(s, id, Quarantined)
    else if r.reaped then Await_(Phased(s, id, Recovering), c, call)
    else if !signalled then Phased(s, id, Quarantined)
    else Await_(Phased(s, id, Recovering), c, call.(await_ := TermWait))
  }

  function RecoverRecord(s: Registry, id: RecordId, call: Call, c: CallId, signalled: bool): Registry
    requires id in s.records
  {
    var r := s.records[id];
    if r.phase.Reserved? || r.phase.Quarantined? || r.phase.Recovering? || r.phase.Finalizing? then s
    else if r.phase.Proved? then Complete(s, c, call)
    else StopNext(s, id, call, c, signalled)
  }

  function RecoverNext(s: Registry, task: TaskId, holder: Holder, hasCompletion: bool, c: CallId, signalled: bool): Registry {
    var mine := Mine(s, task, holder);
    if mine.None? then s
    else RecoverRecord(s, mine.value, Call(mine.value, holder, RecoverProof, hasCompletion), c, signalled)
  }

  /** After waiting for the exit: on to the proof, to a kill, or into quarantine. */
  function WaitNext(s: Registry, c: CallId, exited: bool, signalled: bool): Registry
    requires Waits(s, c, TermWait) || Waits(s, c, KillWait)
  {
    var call := s.calls[c];
    if exited && s.records[call.record].reaped then Await_(s, c, call.(await_ := RecoverProof))
    else if call.await_.TermWait? && (signalled || s.records[call.record].reaped) then Await_(s, c, call.(await_ := KillWait))
    else Return(Phased(s, call.record, Quarantined), c)
  }

  /** A pending bind is never proved, whatever the proof says. */
  function ProofNext(s: Registry, c: CallId, ok: bool): Registry
    requires Waits(s, c, FinalProof) || Waits(s, c, RecoverProof)
  {
    var call := s.calls[c];
    var r := s.records[call.record];
    if ok && !r.bind.Pending? then
      var next := r.(proved := true, phase := if call.await_.FinalProof? then Finalized else Proved);
      Complete(Put(s, call.record, next), c, call)
    else Return(Phased(s, call.record, Quarantined), c)
  }

  function Next(s: Registry, st: Step): Registry
    requires Enabled(s, st)
  {
    match st
    case Reserve(task, holder, writable, id) =>
      if task in s.tasks then s
      else Put(s, id, Record(task, holder, None, Reserved, if writable then Pending else NoBind, false, false))
        .(tasks := s.tasks[task := id])
    case Abort(task, holder, id) =>
      if Mine(s, task, holder) == Some(id) && Abortable(s, id) then s.(tasks := s.tasks - {task}) else s
    case Attach(task, holder, id, pid) =>
      if Mine(s, task, holder) == Some(id) && Abortable(s, id)
      then Put(s, id, s.records[id].(child := Some(pid), phase := Tracked)) else s
    case Attest(task, holder, pid) =>
      var mine := Mine(s, task, holder);
      if mine.Some? && s.records[mine.value].phase.Tracked? && s.records[mine.value].child == Some(pid)
         && !s.records[mine.value].reaped && s.records[mine.value].bind.Pending?
      then Put(s, mine.value, s.records[mine.value].(bind := Writable(pid))) else s
    case ChildExits(id) => Put(s, id, s.records[id].(reaped := true))
    case Finalize(task, holder, hasCompletion, c) => FinalizeNext(s, task, holder, hasCompletion, c)
    case Recover(task, holder, hasCompletion, c, signalled) => RecoverNext(s, task, holder, hasCompletion, c, signalled)
    case WaitReturns(c, exited, signalled) => WaitNext(s, c, exited, signalled)
    case ProofReturns(c, ok) => ProofNext(s, c, ok)
    case CompletionReturns(c, ok) =>
      if ok then Return(Forget(s, s.calls[c].record), c) else Return(s, c)
  }

  // --------------------------------------------------------------------- invariants

  /** All that a record must have shown before it may go. */
  predicate SafeToGo(r: Record) {
    r.child.Some? && r.reaped && !r.bind.Pending? && r.proved
  }

  predicate RecordOk(r: Record) {
    && (r.phase.Reserved? <==> r.child.None?)
    && (r.phase.Finalized? || r.phase.Proved? ==> SafeToGo(r))
    && (r.phase.Finalizing? ==> r.reaped)
  }

  /** What a waiting call knows of its record. */
  predicate CallOk(r: Record, call: Call) {
    && call.holder == r.holder
    && match call.await_
       case FinalProof => r.phase.Finalizing?
       case TermWait => r.phase.Recovering?
       case KillWait => r.phase.Recovering?
       case RecoverProof => r.phase.Recovering? && r.reaped
       case Completing => SafeToGo(r) && Ended(r)
  }

  /** Nobody will work on the record any more. */
  predicate Ended(r: Record) {
    r.phase.Finalized? || r.phase.Proved? || r.phase.Quarantined?
  }

  predicate Working(call: Call) {
    !call.await_.Completing?
  }

  ghost predicate TasksOk(s: Registry) {
    forall t :: t in s.tasks ==> s.tasks[t] in s.records && s.records[s.tasks[t]].task == t
  }

  ghost predicate RecordsOk(s: Registry) {
    forall id :: id in s.records ==> RecordOk(s.records[id])
  }

  ghost predicate CallsOk(s: Registry) {
    forall c :: c in s.calls ==> s.calls[c].record in s.records && CallOk(s.records[s.calls[c].record], s.calls[c])
  }

  predicate SameWork(s: Registry, c: CallId, d: CallId) {
    c in s.calls && d in s.calls && Working(s.calls[c]) && Working(s.calls[d]) && s.calls[c].record == s.calls[d].record
  }

  /** At most one call at a time is stopping or proving a record. */
  ghost predicate OneWorker(s: Registry) {
    forall c, d :: SameWork(s, c, d) ==> c == d
  }

  ghost predicate Inv(s: Registry) {
    TasksOk(s) && RecordsOk(s) && CallsOk(s) && OneWorker(s)
  }

  predicate NoWorker(s: Registry, id: RecordId, but: CallId) {
    forall c :: c in s.calls && c != but && s.calls[c].record == id ==> !Working(s.calls[c])
  }

  lemma PutKeepsInv(s: Registry, id: RecordId, r: Record)
    requires Inv(s) && id in s.records && r.task == s.records[id].task && RecordOk(r)
    requires forall c :: c in s.calls && s.calls[c].record == id ==> CallOk(r, s.calls[c])
    ensures Inv(Put(s, id, r))
  {
    var s' := Put(s, id, r);
    forall c, d | SameWork(s', c, d) ensures c == d {
      assert SameWork(s, c, d);
    }
  }

  lemma AwaitKeepsInv(s: Registry, c: CallId, call: Call)
    requires Inv(s) && call.record in s.records && CallOk(s.records[call.record], call)
    requires Working(call) ==> NoWorker(s, call.record, c)
    ensures Inv(Await_(s, c, call))
  {
    var s' := Await_(s, c, call);
    forall x, y | SameWork(s', x, y) ensures x == y {
      if x != c && y != c {
        assert SameWork(s, x, y);
      }
    }
  }

  lemma ReturnKeepsInv(s: Registry, c: CallId)
    requires Inv(s)
    ensures Inv(Return(s, c))
  {
    var s' := Return(s, c);
    forall x, y | SameWork(s', x, y) ensures x == y {
      assert SameWork(s, x, y);
    }
  }

  lemma CompleteKeepsInv(s: Registry, c: CallId, call: Call)
    requires Inv(s) && call.record in s.records && call.holder == s.records[call.record].holder && SafeToGo(s.records[call.record])
    requires Ended(s.records[call.record])
    ensures Inv(Complete(s, c, call))
  {
    if call.hasCompletion {
      AwaitKeepsInv(s, c, call.(await_ := Completing));
    } else {
      ReturnKeepsInv(s, c);
    }
  }

  /** A record that no call is working on. */
  lemma IdleRecord(s: Registry, id: RecordId, but: CallId)
    requires Inv(s) && id in s.records && !s.records[id].phase.Finalizing? && !s.records[id].phase.Recovering?
    ensures NoWorker(s, id, but)
  {
    forall c | c in s.calls && c != but && s.calls[c].record == id ensures !Working(s.calls[c]) {
      assert CallOk(s.records[id], s.calls[c]);
    }
  }

  lemma OnlyWorker(s: Registry, c: CallId)
    requires Inv(s) && c in s.calls && Working(s.calls[c])
    ensures NoWorker(s, s.calls[c].record, c)
  {
    forall d | d in s.calls && d != c && s.calls[d].record == s.calls[c].record ensures !Working(s.calls[d]) {
      assert !SameWork(s, c, d);
    }
  }

  /** Changing only the phase of a record that nobody works on. */
  lemma PhaseKeepsInv(s: Registry, id: RecordId, phase: Phase, but: CallId)
    requires Inv(s) && id in s.records && s.records[id].child.Some? && NoWorker(s, id, but) && but !in s.calls
    requires phase.Finalizing? || phase.Recovering? || phase.Quarantined?
    requires phase.Finalizing? ==> s.records[id].reaped
    requires phase.Quarantined? || !Ended(s.records[id])
    ensures Inv(Phased(s, id, phase))
  {
    forall c | c in s.calls && s.calls[c].record == id ensures CallOk(s.records[id].(phase := phase), s.calls[c]) {
      assert CallOk(s.records[id], s.calls[c]) && !Working(s.calls[c]);
    }
    PutKeepsInv(s, id, s.records[id].(phase := phase));
  }

  lemma FinalizeKeepsInv(s: Registry, task: TaskId, holder: Holder, hasCompletion: bool, c: CallId)
    requires Inv(s) && c !in s.calls
    ensures Inv(FinalizeNext(s, task, holder, hasCompletion, c))
  {
    var mine := Mine(s, task, holder);
    if mine.Some? {
      var id, r := mine.value, s.records[mine.value];
      var call := Call(id, holder, FinalProof, hasCompletion);
      if r.phase.Tracked? && r.child.Some? && r.reaped {
        IdleRecord(s, id, c);
        PhaseKeepsInv(s, id, Finalizing, c);
        AwaitKeepsInv(Phased(s, id, Finalizing), c, call);
      } else if r.phase.Finalized? {
        assert RecordOk(r);
        CompleteKeepsInv(s, c, call);
      }
    }
  }

  lemma RecoverKeepsInv(s: Registry, task: TaskId, holder: Holder, hasCompletion: bool, c: CallId, signalled: bool)
    requires Inv(s) && c !in s.calls
    ensures Inv(RecoverNext(s, task, holder, hasCompletion, c, signalled))
  {
    var mine := Mine(s, task, holder);
    if mine.Some? {
      var id, r := mine.value, s.records[mine.value];
      var call := Call(id, holder, RecoverProof, hasCompletion);
      assert RecordOk(r);
      if r.phase.Proved? {
        CompleteKeepsInv(s, c, call);
      } else if r.phase.Tracked? || r.phase.Finalized? {
        IdleRecord(s, id, c);
        PhaseKeepsInv(s, id, Quarantined, c);
        if r.phase.Tracked? && (r.reaped || signalled) {
          PhaseKeepsInv(s, id, Recovering, c);
          AwaitKeepsInv(Phased(s, id, Recovering), c, if r.reaped then call else call.(await_ := TermWait));
        }
      }
    }
  }

  lemma QuarantineKeepsInv(s: Registry, c: CallId)
    requires Inv(s) && c in s.calls && Working(s.calls[c])
    ensures Inv(Return(Phased(s, s.calls[c].record, Quarantined), c))
  {
    OnlyWorker(s, c);
    var id := s.calls[c].record;
    assert CallOk(s.records[id], s.calls[c]) && RecordOk(s.records[id]);
    ReturnKeepsInv(s, c);
    PhaseKeepsInv(Return(s, c), id, Quarantined, c);
    assert Return(Phased(s, id, Quarantined), c) == Phased(Return(s, c), id, Quarantined);
  }

  lemma WaitKeepsInv(s: Registry, c: CallId, exited: bool, signalled: bool)
    requires Inv(s) && (Waits(s, c, TermWait) || Waits(s, c, KillWait))
    ensures Inv(WaitNext(s, c, exited, signalled))
  {
    var call := s.calls[c];
    assert CallOk(s.records[call.record], call);
    OnlyWorker(s, c);
    QuarantineKeepsInv(s, c);
    AwaitKeepsInv(s, c, call.(await_ := KillWait));
    if s.records[call.record].reaped {
      AwaitKeepsInv(s, c, call.(await_ := RecoverProof));
    }
  }

  lemma ProofKeepsInv(s: Registry, c: CallId, ok: bool)
    requires Inv(s) && (Waits(s, c, FinalProof) || Waits(s, c, RecoverProof))
    ensures Inv(ProofNext(s, c, ok))
  {
    var call := s.calls[c];
    var id, r := call.record, s.records[call.record];
    assert CallOk(r, call) && RecordOk(r);
    OnlyWorker(s, c);
    QuarantineKeepsInv(s, c);
    if ok && !r.bind.Pending? {
      var next := r.(proved := true, phase := if call.await_.FinalProof? then Finalized else Proved);
      ReturnKeepsInv(s, c);
      forall d | d in Return(s, c).calls && Return(s, c).calls[d].record == id ensures CallOk(next, s.calls[d]) {
        assert CallOk(r, s.calls[d]);
      }
      PutKeepsInv(Return(s, c), id, next);
      CompleteKeepsInv(Put(Return(s, c), id, next), c, call);
      assert Complete(Put(Return(s, c), id, next), c, call) == Complete(Put(s, id, next), c, call);
    }
  }

  /** The steps that change one record and no call. */
  lemma RecordStepKeepsInv(s: Registry, st: Step)
    requires Inv(s) && Enabled(s, st) && (st.Attach? || st.Attest? || st.ChildExits?)
    ensures Inv(Next(s, st))
  {
    var id := if st.ChildExits? then st.record
              else if Mine(s, st.task, st.holder).Some? then Mine(s, st.task, st.holder).value else 0;
    if id in s.records {
      assert RecordOk(s.records[id]);
      var r' := if id in Next(s, st).records then Next(s, st).records[id] else s.records[id];
      forall c | c in s.calls && s.calls[c].record == id ensures CallOk(r', s.calls[c]) {
        assert CallOk(s.records[id], s.calls[c]);
      }
      PutKeepsInv(s, id, r');
      assert Put(s, id, s.records[id]) == s;
    }
  }

  lemma ReserveKeepsInv(s: Registry, st: Step)
    requires Inv(s) && Enabled(s, st) && st.Reserve?
    ensures Inv(Next(s, st))
  {
    var s' := Next(s, st);
    forall c, d | SameWork(s', c, d) ensures c == d {
      assert SameWork(s, c, d);
    }
  }

  lemma DropKeepsInv(s: Registry, task: TaskId)
    requires Inv(s)
    ensures Inv(s.(tasks := s.tasks - {task}))
  {
    var s' := s.(tasks := s.tasks - {task});
    forall c, d | SameWork(s', c, d) ensures c == d {
      assert SameWork(s, c, d);
    }
  }

  lemma StepKeepsInv(s: Registry, st: Step)
    requires Inv(s) && Enabled(s, st)
    ensures Inv(Next(s, st))
  {
    match st
    case Reserve(_, _, _, _) => ReserveKeepsInv(s, st);
    case Abort(task, _, _) => DropKeepsInv(s, task);
    case Attach(_, _, _, _) => RecordStepKeepsInv(s, st);
    case Attest(_, _, _) => RecordStepKeepsInv(s, st);
    case ChildExits(_) => RecordStepKeepsInv(s, st);
    case Finalize(task, holder, h, c) => FinalizeKeepsInv(s, task, holder, h, c);
    case Recover(task, holder, h, c, signalled) => RecoverKeepsInv(s, task, holder, h, c, signalled);
    case WaitReturns(c, exited, signalled) => WaitKeepsInv(s, c, exited, signalled);
    case ProofReturns(c, ok) => ProofKeepsInv(s, c, ok);
    case CompletionReturns(c, _) =>
      ReturnKeepsInv(s, c);
      DropKeepsInv(s, s.records[s.calls[c].record].task);
      ReturnKeepsInv(Forget(s, s.calls[c].record), c);
  }

  // -------------------------------------------------------------- who leaves, and when

  /** The call waits for the durable completion of a worker of this task. */
  predicate CompletionOutstanding(s: Registry, c: CallId, task: TaskId) {
    c in s.calls && s.calls[c].record in s.records && !Working(s.calls[c]) && s.records[s.calls[c].record].task == task
  }

  /** A task that is free is not reserved while a completion for it is still outstanding. */
  ghost predicate Orderly(s: Registry, st: Step) {
    st.Reserve? && st.task !in s.tasks ==> forall c :: !CompletionOutstanding(s, c, st.task)
  }

  predicate TracksIt(s: Registry, id: RecordId) {
    id in s.records && s.records[id].task in s.tasks && s.tasks[s.records[id].task] == id
  }

  /** A waiting call's record is the one tracked for its task, unless none is any more. */
  ghost predicate OwnCalls(s: Registry) {
    forall c :: c in s.calls && s.calls[c].record in s.records ==> OwnCall(s, s.calls[c].record)
  }

  predicate OwnCall(s: Registry, id: RecordId)
    requires id in s.records
  {
    s.records[id].task in s.tasks ==> s.tasks[s.records[id].task] == id
  }

  lemma {:induction false} TaskNeverChanges(s: Registry, st: Step, id: RecordId)
    requires Enabled(s, st) && id in s.records
    ensures id in Next(s, st).records && Next(s, st).records[id].task == s.records[id].task
  {
  }

  /** The call stays with its record, or is a new one for the record tracked then. */
  predicate CallStays(s: Registry, s': Registry, c: CallId) {
    c in s'.calls ==>
      if c in s.calls then s'.calls[c].record == s.calls[c].record
      else TracksIt(s, s'.calls[c].record) && s'.tasks == s.tasks
  }

  lemma {:induction false} NewCallsStay(s: Registry, st: Step, c: CallId)
    requires TasksOk(s) && Enabled(s, st) && (st.Finalize? || st.Recover?)
    ensures CallStays(s, Next(s, st), c)
  {
  }

  lemma {:induction false} OldCallsStay(s: Registry, st: Step, c: CallId)
    requires Enabled(s, st) && !st.Finalize? && !st.Recover?
    ensures CallStays(s, Next(s, st), c)
  {
  }

  /** A call waits for the record it was made for, which was the one tracked then. */
  lemma {:induction false} CallsStay(s: Registry, st: Step, c: CallId)
    requires Inv(s) && Enabled(s, st) && c in Next(s, st).calls
    ensures Next(s, st).calls[c].record in s.records && CallStays(s, Next(s, st), c)
  {
    if st.Finalize? || st.Recover? { NewCallsStay(s, st, c); } else { OldCallsStay(s, st, c); }
  }

  lemma {:induction false} TasksAfter(s: Registry, st: Step, t: TaskId)
    requires Inv(s) && Enabled(s, st) && t in Next(s, st).tasks
    ensures (t in s.tasks && Next(s, st).tasks[t] == s.tasks[t]) || (st.Reserve? && st.task == t)
  {
  }

  /** The record is tracked before the step and not after it. */
  predicate Leaves(s: Registry, id: RecordId, s': Registry) {
    id in s.records && TracksIt(s, id) && !TracksIt(s', id)
  }

  /** A call that still works on a record works on one that the registry tracks. */
  ghost predicate WorkersTracked(s: Registry) {
    forall c :: c in s.calls && Working(s.calls[c]) ==> TracksIt(s, s.calls[c].record)
  }

  /** A step that drops no task and starts no work keeps every worker tracked. */
  lemma {:induction false} TaskDropped(s: Registry, st: Step, id: RecordId)
    requires Inv(s) && OwnCalls(s) && Enabled(s, st) && Leaves(s, id, Next(s, st))
    ensures s.records[id].phase.Reserved? || Ended(s.records[id])
  {
    TaskNeverChanges(s, st, id);
    if st.CompletionReturns? {
      var call := s.calls[st.call];
      assert OwnCall(s, call.record) && CallOk(s.records[call.record], call);
    }
  }

  /** New work is on the record tracked then. */
  lemma {:induction false} WorkContinues(s: Registry, st: Step, c: CallId)
    requires Inv(s) && Enabled(s, st) && c in Next(s, st).calls && Working(Next(s, st).calls[c])
    ensures c in s.calls ==> Working(s.calls[c])
  {
  }

  lemma {:induction false} StepKeepsTracked(s: Registry, st: Step)
    requires Inv(s) && OwnCalls(s) && WorkersTracked(s) && Enabled(s, st)
    ensures WorkersTracked(Next(s, st))
  {
    var s' := Next(s, st);
    StepKeepsInv(s, st);
    forall c | c in s'.calls && Working(s'.calls[c]) ensures TracksIt(s', s'.calls[c].record) {
      var id := s'.calls[c].record;
      CallsStay(s, st, c);
      WorkContinues(s, st, c);
      TaskNeverChanges(s, st, id);
      if !TracksIt(s', id) {
        TaskDropped(s, st, id);
        EndedStays(s, st, id);
      }
    }
  }

  /** A record that leaves while nobody works on it is not worked on afterwards. */
  lemma {:induction false} EndedStays(s: Registry, st: Step, id: RecordId)
    requires Inv(s) && Enabled(s, st) && Leaves(s, id, Next(s, st))
    ensures Next(s, st).records[id].phase == s.records[id].phase
  {
    OnlyTwoLetGo(s, st, id);
  }

  lemma {:induction false} OnlyTwoLetGo(s: Registry, st: Step, id: RecordId)
    requires Inv(s) && Enabled(s, st) && Leaves(s, id, Next(s, st))
    ensures st.Abort? || st.CompletionReturns?
  {
    TaskNeverChanges(s, st, id);
    if !st.Abort? && !st.CompletionReturns? {
      TasksKept(s, st, s.records[id].task);
    }
  }

  lemma {:induction false} TasksKept(s: Registry, st: Step, t: TaskId)
    requires Enabled(s, st) && t in s.tasks && !st.Abort? && !st.CompletionReturns?
    ensures t in Next(s, st).tasks && Next(s, st).tasks[t] == s.tasks[t]
  {
  }

  lemma {:induction false} StepKeepsOwnCalls(s: Registry, st: Step)
    requires Inv(s) && OwnCalls(s) && WorkersTracked(s) && Enabled(s, st) && Orderly(s, st)
    ensures OwnCalls(Next(s, st))
  {
    var s' := Next(s, st);
    forall c | c in s'.calls && s'.calls[c].record in s'.records ensures OwnCall(s', s'.calls[c].record) {
      CallsStay(s, st, c);
      var id := s'.calls[c].record;
      TaskNeverChanges(s, st, id);
      if s'.records[id].task in s'.tasks {
        TasksAfter(s, st, s'.records[id].task);
        assert c in s.calls ==> OwnCall(s, id);
        assert st.Reserve? && st.task !in s.tasks ==> !CompletionOutstanding(s, c, st.task);
      }
    }
  }

  ghost function Exec(steps: seq<Step>): Option<Registry> {
    if steps == [] then Some(EMPTY)
    else
      var before := Exec(steps[..|steps| - 1]);
      if before.None? || !Enabled(before.value, steps[|steps| - 1]) then None
      else Some(Next(before.value, steps[|steps| - 1]))
  }

  /** Every task that the run reserved had no completion outstanding then. */
  ghost predicate OrderlyRun(steps: seq<Step>) {
    Exec(steps).Some? && forall i :: 0 <= i < |steps| ==> OrderlyAt(steps, i)
  }

  ghost predicate OrderlyAt(steps: seq<Step>, i: nat)
    requires i < |steps|
  {
    Exec(steps[..i]).Some? && Orderly(Exec(steps[..i]).value, steps[i])
  }

  lemma OrderlyBefore(steps: seq<Step>)
    requires steps != [] && OrderlyRun(steps)
    ensures OrderlyRun(steps[..|steps| - 1])
    ensures Orderly(Exec(steps[..|steps| - 1]).value, steps[|steps| - 1])
  {
    var before := steps[..|steps| - 1];
    forall i | 0 <= i < |before| ensures OrderlyAt(before, i) {
      assert OrderlyAt(steps, i) && before[..i] == steps[..i];
    }
    assert OrderlyAt(steps, |steps| - 1);
  }

  lemma {:induction false} AlwaysInv(steps: seq<Step>)
    requires Exec(steps).Some?
    ensures Inv(Exec(steps).value)
  {
    if steps != [] {
      AlwaysInv(steps[..|steps| - 1]);
      StepKeepsInv(Exec(steps[..|steps| - 1]).value, steps[|steps| - 1]);
    }
  }

  lemma {:induction false} AlwaysOwnCalls(steps: seq<Step>)
    requires OrderlyRun(steps)
    ensures OwnCalls(Exec(steps).value) && WorkersTracked(Exec(steps).value)
  {
    if steps != [] {
      OrderlyBefore(steps);
      AlwaysOwnCalls(steps[..|steps| - 1]);
      AlwaysInv(steps[..|steps| - 1]);
      StepKeepsOwnCalls(Exec(steps[..|steps| - 1]).value, steps[|steps| - 1]);
      StepKeepsTracked(Exec(steps[..|steps| - 1]).value, steps[|steps| - 1]);
    }
  }

  /** One step: what leaves has no child, or leaves by its own completion, safely. */
  lemma {:induction false} LeavesSafely(s: Registry, st: Step, id: RecordId)
    requires Inv(s) && OwnCalls(s) && Enabled(s, st) && Leaves(s, id, Next(s, st))
    ensures s.records[id].child.None? || SafeToGo(s.records[id])
    ensures s.records[id].child.Some? ==>
      st.CompletionReturns? && st.ok && s.calls[st.call].record == id && s.calls[st.call].holder == s.records[id].holder
  {
    TaskNeverChanges(s, st, id);
    assert RecordOk(s.records[id]);
    if st.CompletionReturns? {
      var call := s.calls[st.call];
      assert OwnCall(s, call.record) && CallOk(s.records[call.record], call);
    }
  }

  /**
   Over every orderly run: a record with a child leaves the registry only in the step in
   which a durable completion asked for by its own holder returns, after its child was
   seen to exit, and its bind was not pending and was proved revoked.
   */
  lemma OnlyProvedWorkersLeave(steps: seq<Step>, st: Step, id: RecordId)
    requires OrderlyRun(steps + [st]) && Leaves(Exec(steps).value, id, Exec(steps + [st]).value)
    requires Exec(steps).value.records[id].child.Some?
    ensures SafeToGo(Exec(steps).value.records[id])
    ensures st.CompletionReturns? && st.ok && Exec(steps).value.calls[st.call].record == id
    ensures Exec(steps).value.calls[st.call].holder == Exec(steps).value.records[id].holder
  {
    assert (steps + [st])[..|steps + [st]| - 1] == steps;
    OrderlyBefore(steps + [st]);
    AlwaysInv(steps);
    AlwaysOwnCalls(steps);
    LeavesSafely(Exec(steps).value, st, id);
  }

  /** Nobody is waiting for anything about the record. */
  predicate NobodyWaits(s: Registry, id: RecordId) {
    forall c :: c in s.calls ==> s.calls[c].record != id
  }

  ghost predicate HeldInQuarantine(s: Registry, id: RecordId) {
    TracksIt(s, id) && s.records[id].phase.Quarantined? && s.records[id].child.Some? && NobodyWaits(s, id)
  }

  lemma {:induction false} QuarantineStep(s: Registry, st: Step, id: RecordId)
    requires Inv(s) && OwnCalls(s) && Enabled(s, st) && HeldInQuarantine(s, id)
    ensures HeldInQuarantine(Next(s, st), id)
  {
    TaskNeverChanges(s, st, id);
    if !TracksIt(Next(s, st), id) {
      LeavesSafely(s, st, id);
    }
    QuarantineUntouched(s, st, id);
  }

  lemma {:induction false} QuarantineUntouched(s: Registry, st: Step, id: RecordId)
    requires Inv(s) && Enabled(s, st) && HeldInQuarantine(s, id)
    ensures var s' := Next(s, st);
      id in s'.records && s'.records[id].phase.Quarantined? && s'.records[id].child.Some? && NobodyWaits(s', id)
  {
    QuarantinedRecordStays(s, st, id);
    NobodyStartsWaiting(s, st, id);
  }

  lemma {:induction false} QuarantinedRecordStays(s: Registry, st: Step, id: RecordId)
    requires Enabled(s, st) && HeldInQuarantine(s, id)
    ensures var s' := Next(s, st);
      id in s'.records && s'.records[id].phase.Quarantined? && s'.records[id].child.Some?
  {
  }

  lemma {:induction false} NobodyStartsWaiting(s: Registry, st: Step, id: RecordId)
    requires Enabled(s, st) && HeldInQuarantine(s, id)
    ensures NobodyWaits(Next(s, st), id)
  {
  }

  /** A quarantined worker about which no call is outstanding stays in the registry for good. */
  lemma {:induction false} QuarantineIsForGood(steps: seq<Step>, more: seq<Step>, id: RecordId)
    requires OrderlyRun(steps + more) && Exec(steps).Some? && HeldInQuarantine(Exec(steps).value, id)
    ensures HeldInQuarantine(Exec(steps + more).value, id)
    decreases |more|
  {
    if more == [] {
      assert steps + more == steps;
    } else {
      var fewer := more[..|more| - 1];
      assert (steps + more)[..|steps + more| - 1] == steps + fewer;
      OrderlyBefore(steps + more);
      QuarantineIsForGood(steps, fewer, id);
      AlwaysInv(steps + fewer);
      AlwaysOwnCalls(steps + fewer);
      QuarantineStep(Exec(steps + fewer).value, more[|more| - 1], id);
    }
  }

  // ------------------------------------------- without the order: a live worker is lost

  lemma OneStepMore(steps: seq<Step>, st: Step, s: Registry)
    requires Exec(steps) == Some(s) && Enabled(s, st)
    ensures Exec(steps + [st]) == Some(Next(s, st))
  {
    assert (steps + [st])[..|steps + [st]| - 1] == steps;
  }

  /** A worker that has exited. */
  lemma ExitedWorker() returns (steps: seq<Step>, s: Registry)
    ensures Exec(steps) == Some(s) && s.tasks == map["t" := 0] && s.calls == map[]
    ensures s.records.Keys == {0} && s.records[0] == Record("t", 1, Some(10), Tracked, NoBind, true, false)
  {
    var a, b, c := Reserve("t", 1, false, 0), Attach("t", 1, 0, 10), ChildExits(0);
    OneStepMore([], a, EMPTY);
    var s1 := Next(EMPTY, a);
    OneStepMore([] + [a], b, s1);
    var s2 := Next(s1, b);
    OneStepMore([] + [a] + [b], c, s2);
    steps, s := [] + [a] + [b] + [c], Next(s2, c);
  }

  /** A worker that exited and was proved, with two completions outstanding. */
  lemma TwoCompletions() returns (steps: seq<Step>, s: Registry)
    ensures Exec(steps) == Some(s) && s.tasks == map["t" := 0] && 0 in s.records && 1 !in s.records && s.records[0].task == "t"
    ensures Waits(s, 100, Completing) && Waits(s, 101, Completing) && s.calls[100].record == 0 && s.calls[101].record == 0
  {
    var steps3, s3 := ExitedWorker();
    var d, e, f := Finalize("t", 1, true, 100), ProofReturns(100, true), Finalize("t", 1, true, 101);
    OneStepMore(steps3, d, s3);
    var s4 := Next(s3, d);
    OneStepMore(steps3 + [d], e, s4);
    var s5 := Next(s4, e);
    OneStepMore(steps3 + [d] + [e], f, s5);
    s, steps := Next(s5, f), steps3 + [d] + [e] + [f];
  }

  /**
   Two completions for one worker are outstanding; the first returns and the task is
   reserved again. The second one then drops the new, live worker.
   */
  lemma ReservingTooEarlyLosesALiveWorker() returns (steps: seq<Step>, st: Step, id: RecordId)
    ensures Exec(steps).Some? && Enabled(Exec(steps).value, st)
    ensures Leaves(Exec(steps).value, id, Next(Exec(steps).value, st))
    ensures Exec(steps).value.records[id].child.Some? && !Exec(steps).value.records[id].reaped
  {
    var before, s := TwoCompletions();
    var a, b, c := CompletionReturns(100, true), Reserve("t", 2, false, 1), Attach("t", 2, 1, 11);
    OneStepMore(before, a, s);
    var s1 := Next(s, a);
    OneStepMore(before + [a], b, s1);
    var s2 := Next(s1, b);
    OneStepMore(before + [a] + [b], c, s2);
    steps, st, id := before + [a] + [b] + [c], CompletionReturns(101, true), 1;
  }
}
