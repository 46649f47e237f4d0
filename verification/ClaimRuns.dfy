/**
 Runs of any number of claim-store instances over one shared table. Instances
 start and disappear at any point; every public call is one atomic step.
 */
module ClaimRuns {
  import opened Prelude
  import opened ClaimRules

  type StoreId = nat

  /** The in-process half of one store: it is lost when the process is. */
  datatype Memory = Memory(open: bool, holders: map<HandleId, Holder>, recoveries: map<HandleId, Recovery>)

  datatype World = World(
    claims: map<TaskId, Row>,
    receipts: map<(TaskId, Ref), Receipt>,
    stores: map<StoreId, Memory>,
    ghost usedRefs: set<Ref>,
    ghost usedHandles: set<HandleId>)

  datatype Step =
    | Start(i: StoreId, opens: bool)
    | Drop(i: StoreId)
    | Call(i: StoreId, op: Op, f: Fresh)

  function View(w: World, i: StoreId): Store
    requires i in w.stores
  {
    Store(w.stores[i].open, w.claims, w.receipts, w.stores[i].holders, w.stores[i].recoveries)
  }

  /** Instance ids are new, and refs and handles are never minted twice. */
  ghost predicate Enabled(w: World, step: Step) {
    match step
    case Start(i, _) => i !in w.stores
    case Drop(i) => i in w.stores
    case Call(i, _, f) => i in w.stores && f.ref !in w.usedRefs && f.handle !in w.usedHandles
  }

  function OutcomeOf(w: World, step: Step): Outcome
    requires step.Call? && step.i in w.stores
  {
    Apply(View(w, step.i), step.op, step.f)
  }

  ghost function Next(w: World, step: Step): World
    requires Enabled(w, step)
  {
    match step
    case Start(i, opens) => w.(stores := w.stores[i := Memory(opens, map[], map[])])
    case Drop(i) => w.(stores := w.stores - {i})
    case Call(i, op, f) =>
      var s := OutcomeOf(w, step).store;
      World(s.claims, s.receipts, w.stores[i := Memory(s.open, s.holders, s.recoveries)],
            w.usedRefs + {f.ref}, w.usedHandles + {f.handle})
  }

  ghost const Empty := World(map[], map[], map[], {}, {})

  /** The world after a run from a fresh database, if every step was enabled. */
  ghost function Exec(steps: seq<Step>): Option<World> {
    if steps == [] then Some(Empty)
    else
      var before := Exec(steps[..|steps| - 1]);
      if before.None? || !Enabled(before.value, steps[|steps| - 1]) then None
      else Some(Next(before.value, steps[|steps| - 1]))
  }

  ghost predicate ValidRun(steps: seq<Step>) { Exec(steps).Some? }

  ghost function After(steps: seq<Step>): World
    requires ValidRun(steps)
  {
    Exec(steps).value
  }

  // ------------------------------------------------------------------ handles

  datatype Kind = HolderKind | RecoveryKind

  ghost predicate Holds(w: World, i: StoreId, k: Kind, h: HandleId, g: Grip) {
    && i in w.stores
    && match k
       case HolderKind => h in w.stores[i].holders && w.stores[i].holders[h].grip == g
       case RecoveryKind => h in w.stores[i].recoveries && w.stores[i].recoveries[h].grip == g
  }

  ghost predicate SameRef(w: World, g: Grip) {
    g.taskId in w.claims && w.claims[g.taskId].ref == g.ref
  }

  /** The handle's private data still names the row exactly. */
  ghost predicate Current(w: World, g: Grip) {
    SameRef(w, g) && w.claims[g.taskId].version == g.version
  }

  // --------------------------------------------------------------- invariants

  ghost predicate RefsInv(w: World) {
    && (forall t :: t in w.claims ==> w.claims[t].ref in w.usedRefs)
    && (forall t, u :: t in w.claims && u in w.claims && w.claims[t].ref == w.claims[u].ref ==> t == u)
  }

  ghost predicate RowSane(row: Row) {
    && !row.state.Unknown?
    && (Live(row.state) ==> row.NoFacts())
  }

  ghost predicate RowsInv(w: World) {
    forall t :: t in w.claims ==> RowSane(w.claims[t])
  }

  ghost predicate ReceiptsInv(w: World) {
    forall key :: key in w.receipts ==>
      key.1 in w.usedRefs && forall t :: t in w.claims ==> w.claims[t].ref != key.1
  }

  ghost predicate HandleInv(w: World, k: Kind, h: HandleId, g: Grip) {
    && h in w.usedHandles
    && g.ref in w.usedRefs
    && (SameRef(w, g) ==> g.version <= w.claims[g.taskId].version)
    && (Current(w, g) ==> if k.HolderKind? then Live(w.claims[g.taskId].state) else w.claims[g.taskId].state.Recovering?)
  }

  ghost predicate HandlesInv(w: World) {
    forall i, k, h, g :: Holds(w, i, k, h, g) ==> HandleInv(w, k, h, g)
  }

  ghost predicate DigestFits(w: World, p: Holder) {
    SameRef(w, p.grip) ==> p.digest == w.claims[p.grip.taskId].digest && p.origin == w.claims[p.grip.taskId].origin
  }

  ghost predicate DigestInv(w: World) {
    forall i, h :: i in w.stores && h in w.stores[i].holders ==>
      DigestFits(w, w.stores[i].holders[h])
  }

  /** At most one handle of any kind, in any instance, matches a task's row. */
  ghost predicate OneCurrent(w: World) {
    forall i, k, h, g, i', k', h', g' ::
      Holds(w, i, k, h, g) && Holds(w, i', k', h', g') && Current(w, g) && Current(w, g') && g.taskId == g'.taskId
      ==> i == i' && k == k' && h == h'
  }

  ghost predicate Inv(w: World) {
    RefsInv(w) && RowsInv(w) && ReceiptsInv(w) && HandlesInv(w) && DigestInv(w) && OneCurrent(w)
  }

  // ------------------------------------------------------------------ effects

  /** Everything one public call can do to the table and to its own handles. */
  datatype Effect =
    | Still
    | Grant(t: TaskId, row: Row)
    | Carry(t: TaskId, row: Row, h: HandleId)
    | Reissue(t: TaskId, row: Row)
    | Quarantine(t: TaskId, row: Row)
    | Note(t: TaskId, row: Row)
    | End(t: TaskId, receipt: bool)
    | Replace(t: TaskId, row: Row)
    | Reap(boot: int)

  ghost predicate Continues(old_: Row, new_: Row) {
    new_.ref == old_.ref && new_.digest == old_.digest && new_.origin == old_.origin
    && new_.acquiredAt == old_.acquiredAt && new_.engine == old_.engine && new_.generation == old_.generation
    && new_.version == old_.version + 1
  }

  function OpNow(op: Op): int {
    match op
    case DoAcquire(c) => c.nowMs
    case DoAcquireExternal(c, _, _) => c.nowMs
    case DoReattach(_, _, _, now) => now
    case DoBeginExternalRecovery(_, _, _, now) => now
    case DoTransition(_, _, _, now) => now
    case DoRenew(_, now, _) => now
    case DoRelease(_, now) => now
    case DoReleaseTerminal(_, now, _) => now
    case DoReap(now, _) => now
    case DoBeginRecovery(_, now) => now
    case DoRecord(_, now, _, _, _) => now
    case DoReleaseRecovered(_, now) => now
    case DoReleaseExternalRecovered(_, now, _) => now
    case DoReclaim(_, c) => c.nowMs
    case DoClose => 0
  }

  /** The order in which one claim's states are passed through. */
  function Rank(state: State): nat {
    match state
    case Active => 0
    case Running => 1
    case AwaitingReview => 2
    case Completed => 3
    case Recovering => 4
    case Unknown(_) => 5
  }

  ghost predicate KeptOnce(old_: Option<int>, new_: Option<int>) {
    old_.Some? ==> new_ == old_
  }

  ghost predicate FactsKept(old_: Row, new_: Row) {
    && KeptOnce(old_.killedAt, new_.killedAt)
    && KeptOnce(old_.reapedAt, new_.reapedAt)
    && KeptOnce(old_.bindRevokedAt, new_.bindRevokedAt)
  }

  ghost predicate SameFacts(old_: Row, new_: Row) {
    new_.killedAt == old_.killedAt && new_.reapedAt == old_.reapedAt && new_.bindRevokedAt == old_.bindRevokedAt
  }

  ghost predicate Unchanged(s: Store, s': Store) {
    s'.claims == s.claims && s'.receipts == s.receipts && s'.holders == s.holders && s'.recoveries == s.recoveries
  }

  ghost predicate Written(s: Store, s': Store, t: TaskId, row: Row) {
    s'.claims == s.claims[t := row] && s'.receipts == s.receipts
  }

  ghost predicate NewHolder(s: Store, s': Store, t: TaskId, row: Row, f: Fresh) {
    s'.holders == s.holders[f.handle := Holder(GripOf(t, row), row.digest, row.origin)]
  }

  /** A proper way for the claim on `t` to end: who may do it, and when. */
  ghost predicate MayEnd(s: Store, op: Op, t: TaskId) {
    && t in s.claims
    && var row := s.claims[t];
    match op
    case DoRelease(h, now) => h in s.holders && s.holders[h].grip == GripOf(t, row) && Live(row.state) && row.expiresAt > now
    case DoReleaseTerminal(h, now, _) =>
      h in s.holders && s.holders[h].grip == GripOf(t, row) && Live(row.state) && row.expiresAt > now
    case DoReleaseRecovered(h, _) =>
      h in s.recoveries && s.recoveries[h].grip == GripOf(t, row) && row.state.Recovering? && row.RecoveryProven()
    case DoReleaseExternalRecovered(h, _, _) =>
      h in s.recoveries && s.recoveries[h].grip == GripOf(t, row) && row.state.Recovering? && row.RecoveryProven()
    case DoReclaim(h, _) =>
      h in s.recoveries && s.recoveries[h].grip == GripOf(t, row) && row.state.Recovering? && row.RecoveryProven()
    case DoReap(now, boot) => row.origin.InBox? && row.acquiredAt < boot <= now
    case _ => false
  }

  /** A recovery fact appears only where a current recovery handle records it. */
  ghost predicate NotedBy(s: Store, op: Op, t: TaskId, row: Row)
    requires t in s.claims
  {
    && op.DoRecord?
    && op.h in s.recoveries && s.recoveries[op.h].grip == GripOf(t, s.claims[t])
    && (row.killedAt != s.claims[t].killedAt ==> op.killed)
    && (row.reapedAt != s.claims[t].reapedAt ==> op.reaped)
    && (row.bindRevokedAt != s.claims[t].bindRevokedAt ==> op.revoked)
  }

  ghost predicate Shows(s: Store, op: Op, f: Fresh, o: Outcome, e: Effect) {
    var s' := o.store;
    match e
    case Still => Unchanged(s, s') && !o.response.Granted? && !o.response.Attached? && !o.response.Quarantined?
    case Grant(t, row) =>
      && t !in s.claims && row.ref == f.ref && row.version == 1 && row.state.Active? && row.NoFacts()
      && Written(s, s', t, row) && NewHolder(s, s', t, row, f) && s'.recoveries == s.recoveries
      && o.response == Granted(f.handle)
    case Carry(t, row, h) =>
      && t in s.claims && h in s.holders && s.holders[h].grip == GripOf(t, s.claims[t])
      && Continues(s.claims[t], row) && Live(s.claims[t].state) && Live(row.state)
      && Rank(s.claims[t].state) <= Rank(row.state) && s.claims[t].expiresAt > OpNow(op)
      && SameFacts(s.claims[t], row)
      && Written(s, s', t, row) && s'.recoveries == s.recoveries
      && s'.holders == s.holders[h := s.holders[h].(grip := GripOf(t, row))]
      && s.holders[h].digest == row.digest
      && o.response.Done?
    case Reissue(t, row) =>
      && t in s.claims && Continues(s.claims[t], row) && row.state == s.claims[t].state && Live(row.state)
      && s.claims[t].expiresAt > OpNow(op) && SameFacts(s.claims[t], row)
      && Written(s, s', t, row) && NewHolder(s, s', t, row, f) && s'.recoveries == s.recoveries
      && o.response == Attached(f.handle)
    case Quarantine(t, row) =>
      && t in s.claims && Continues(s.claims[t], row) && row.state.Recovering?
      && (s.claims[t].state.Recovering? || (Live(s.claims[t].state) && s.claims[t].expiresAt <= OpNow(op)))
      && row.expiresAt == s.claims[t].expiresAt && SameFacts(s.claims[t], row)
      && Written(s, s', t, row)
      && s'.recoveries == s.recoveries[f.handle := Recovery(GripOf(t, row), row.origin)]
      && s'.holders.Keys <= s.holders.Keys && (forall h :: h in s'.holders ==> s'.holders[h] == s.holders[h])
      && o.response == Quarantined(f.handle)
    case Note(t, row) =>
      && t in s.claims && row.ref == s.claims[t].ref && row.digest == s.claims[t].digest
      && row.version == s.claims[t].version && row.origin == s.claims[t].origin
      && row.engine == s.claims[t].engine && row.generation == s.claims[t].generation
      && row.state.Recovering? && s.claims[t].state.Recovering?
      && row.expiresAt == s.claims[t].expiresAt && row.acquiredAt == s.claims[t].acquiredAt
      && FactsKept(s.claims[t], row) && NotedBy(s, op, t, row)
      && Written(s, s', t, row) && s'.holders == s.holders && s'.recoveries == s.recoveries
      && !o.response.Granted? && !o.response.Attached? && !o.response.Quarantined?
    case End(t, receipt) =>
      && MayEnd(s, op, t) && !op.DoReclaim? && !op.DoReap?
      && s'.claims == s.claims - {t}
      && (if receipt
          then (t, s.claims[t].ref) !in s.receipts && s'.receipts.Keys == s.receipts.Keys + {(t, s.claims[t].ref)}
               && forall key :: key in s.receipts ==> s'.receipts[key] == s.receipts[key]
          else s'.receipts == s.receipts)
      && s'.holders.Keys <= s.holders.Keys && (forall h :: h in s'.holders ==> s'.holders[h] == s.holders[h])
      && s'.recoveries.Keys <= s.recoveries.Keys && (forall h :: h in s'.recoveries ==> s'.recoveries[h] == s.recoveries[h])
      && o.response.Done?
    case Replace(t, row) =>
      && MayEnd(s, op, t) && op.DoReclaim?
      && row.ref == f.ref && row.version == s.claims[t].version + 1 && row.state.Active? && row.NoFacts()
      && Written(s, s', t, row) && NewHolder(s, s', t, row, f)
      && s'.recoveries.Keys <= s.recoveries.Keys && (forall h :: h in s'.recoveries ==> s'.recoveries[h] == s.recoveries[h])
      && o.response == Granted(f.handle)
    case Reap(boot) =>
      && op.DoReap?
      && s'.claims.Keys <= s.claims.Keys
      && (forall t :: t in s'.claims ==> s'.claims[t] == s.claims[t])
      && (forall t :: t in s.claims && t !in s'.claims ==> MayEnd(s, op, t))
      && s'.receipts == s.receipts && s'.holders == s.holders && s'.recoveries == s.recoveries
      && !o.response.Granted? && !o.response.Attached? && !o.response.Quarantined?
  }

  ghost predicate Quiet(s: Store, o: Outcome) {
    Unchanged(s, o.store) && !o.response.Granted? && !o.response.Attached? && !o.response.Quarantined?
  }

  function HolderTask(s: Store, h: HandleId): TaskId {
    if h in s.holders then s.holders[h].grip.taskId else ""
  }

  function RecoveryTask(s: Store, h: HandleId): TaskId {
    if h in s.recoveries then s.recoveries[h].grip.taskId else ""
  }

  function OpTask(s: Store, op: Op): TaskId {
    match op
    case DoAcquire(c) => c.taskId
    case DoAcquireExternal(c, _, _) => c.taskId
    case DoReattach(t, _, _, _) => t
    case DoBeginExternalRecovery(t, _, _, _) => t
    case DoTransition(h, _, _, _) => HolderTask(s, h)
    case DoRenew(h, _, _) => HolderTask(s, h)
    case DoRelease(h, _) => HolderTask(s, h)
    case DoReleaseTerminal(h, _, _) => HolderTask(s, h)
    case DoReap(_, _) => ""
    case DoBeginRecovery(h, _) => HolderTask(s, h)
    case DoRecord(h, _, _, _, _) => RecoveryTask(s, h)
    case DoReleaseRecovered(h, _) => RecoveryTask(s, h)
    case DoReleaseExternalRecovered(h, _, _) => RecoveryTask(s, h)
    case DoReclaim(_, c) => c.taskId
    case DoClose => ""
  }

  ghost function EffectOf(s: Store, op: Op, f: Fresh): Effect {
    var o := Apply(s, op, f);
    var t := OpTask(s, op);
    if Quiet(s, o) then Still
    else if op.DoReap? then Reap(op.boot)
    else if t !in o.store.claims then End(t, op.DoReleaseTerminal? || op.DoReleaseExternalRecovered?)
    else
      var row := o.store.claims[t];
      match op
      case DoAcquire(_) => Grant(t, row)
      case DoAcquireExternal(_, _, _) => Grant(t, row)
      case DoReattach(_, _, _, _) => Reissue(t, row)
      case DoTransition(h, _, _, _) => Carry(t, row, h)
      case DoRenew(h, _, _) => Carry(t, row, h)
      case DoRecord(_, _, _, _, _) => Note(t, row)
      case DoReclaim(_, _) => Replace(t, row)
      case _ => Quarantine(t, row)
  }

  ghost predicate EffectHolds(s: Store, op: Op, f: Fresh) {
    Shows(s, op, f, Apply(s, op, f), EffectOf(s, op, f))
  }

  lemma AcquireEffect(s: Store, op: Op, f: Fresh)
    requires op.DoAcquire?
    ensures EffectHolds(s, op, f)
  {
  }

  lemma AcquireExternalEffect(s: Store, op: Op, f: Fresh)
    requires op.DoAcquireExternal?
    ensures EffectHolds(s, op, f)
  {
    var o := Apply(s, op, f);
    if o.response.Granted? {
      assert op.claim.taskId !in s.claims && op.claim.taskId in o.store.claims;
    } else {
      assert o.store == s;
    }
  }

  lemma ReattachEffect(s: Store, op: Op, f: Fresh)
    requires op.DoReattach?
    ensures EffectHolds(s, op, f)
  {
    var o := Apply(s, op, f);
    if o.response.Attached? {
      assert OpTask(s, op) in o.store.claims && o.store.claims[OpTask(s, op)].version == s.claims[OpTask(s, op)].version + 1;
    } else {
      assert o.store == s;
    }
  }

  lemma BeginExternalRecoveryEffect(s: Store, op: Op, f: Fresh)
    requires op.DoBeginExternalRecovery?
    ensures EffectHolds(s, op, f)
  {
    var o := Apply(s, op, f);
    if o.response.Quarantined? {
      assert OpTask(s, op) in o.store.claims && o.store.claims[OpTask(s, op)].version == s.claims[OpTask(s, op)].version + 1;
    } else {
      assert o.store == s;
    }
  }

  lemma BeginRecoveryEffect(s: Store, op: Op, f: Fresh)
    requires op.DoBeginRecovery?
    ensures EffectHolds(s, op, f)
  {
  }

  lemma TransitionEffect(s: Store, op: Op, f: Fresh)
    requires op.DoTransition?
    ensures EffectHolds(s, op, f)
  {
  }

  lemma RenewEffect(s: Store, op: Op, f: Fresh)
    requires op.DoRenew?
    ensures EffectHolds(s, op, f)
  {
  }

  lemma ReleaseEffect(s: Store, op: Op, f: Fresh)
    requires op.DoRelease?
    ensures EffectHolds(s, op, f)
  {
  }

  lemma ReleaseRecoveredEffect(s: Store, op: Op, f: Fresh)
    requires op.DoReleaseRecovered?
    ensures EffectHolds(s, op, f)
  {
  }

  lemma ReleaseTerminalEffect(s: Store, op: Op, f: Fresh)
    requires op.DoReleaseTerminal?
    ensures EffectHolds(s, op, f)
  {
  }

  lemma ReleaseExternalRecoveredEffect(s: Store, op: Op, f: Fresh)
    requires op.DoReleaseExternalRecovered?
    ensures EffectHolds(s, op, f)
  {
  }

  lemma ReclaimEffect(s: Store, op: Op, f: Fresh)
    requires op.DoReclaim?
    ensures EffectHolds(s, op, f)
  {
  }

  lemma ReapEffect(s: Store, op: Op, f: Fresh)
    requires op.DoReap?
    ensures EffectHolds(s, op, f)
  {
  }

  lemma RecordEffect(s: Store, op: Op, f: Fresh)
    requires op.DoRecord?
    ensures EffectHolds(s, op, f)
  {
    if !Quiet(s, Apply(s, op, f)) {
      var t := RecoveryTask(s, op.h);
      assert RecoveryOwns(s, s.recoveries[op.h]);
      assert Apply(s, op, f).store.claims[t].state.Recovering?;
    }
  }

  lemma CloseEffect(s: Store, op: Op, f: Fresh)
    requires op.DoClose?
    ensures EffectHolds(s, op, f)
  {
  }

  /** Every public call has one of the listed effects, under the listed guards. */
  lemma EveryEffect(s: Store, op: Op, f: Fresh)
    ensures Shows(s, op, f, Apply(s, op, f), EffectOf(s, op, f))
  {
    match op
    case DoAcquire(_) => AcquireEffect(s, op, f);
    case DoAcquireExternal(_, _, _) => AcquireExternalEffect(s, op, f);
    case DoReattach(_, _, _, _) => ReattachEffect(s, op, f);
    case DoBeginExternalRecovery(_, _, _, _) => BeginExternalRecoveryEffect(s, op, f);
    case DoBeginRecovery(_, _) => BeginRecoveryEffect(s, op, f);
    case DoTransition(_, _, _, _) => TransitionEffect(s, op, f);
    case DoRenew(_, _, _) => RenewEffect(s, op, f);
    case DoRelease(_, _) => ReleaseEffect(s, op, f);
    case DoReleaseRecovered(_, _) => ReleaseRecoveredEffect(s, op, f);
    case DoReleaseTerminal(_, _, _) => ReleaseTerminalEffect(s, op, f);
    case DoReleaseExternalRecovered(_, _, _) => ReleaseExternalRecoveredEffect(s, op, f);
    case DoReclaim(_, _) => ReclaimEffect(s, op, f);
    case DoReap(_, _) => ReapEffect(s, op, f);
    case DoRecord(_, _, _, _, _) => RecordEffect(s, op, f);
    case DoClose => CloseEffect(s, op, f);
  }

  // ------------------------------------------------- every step keeps the table

  ghost predicate Shown(s: Store, op: Op, f: Fresh, s': Store, e: Effect) {
    exists r :: Shows(s, op, f, Outcome(s', r), e)
  }

  /** What the effect of one call leaves in the shared world. */
  ghost predicate Effected(w: World, step: Step, w': World, e: Effect) {
    && step.Call? && Enabled(w, step) && step.i in w'.stores
    && Shown(View(w, step.i), step.op, step.f, View(w', step.i), e)
    && w'.stores == w.stores[step.i := w'.stores[step.i]]
    && w'.usedRefs == w.usedRefs + {step.f.ref} && w'.usedHandles == w.usedHandles + {step.f.handle}
  }

  lemma CallIsEffected(w: World, step: Step) returns (e: Effect)
    requires Enabled(w, step) && step.Call?
    ensures Effected(w, step, Next(w, step), e)
  {
    EveryEffect(View(w, step.i), step.op, step.f);
    e := EffectOf(View(w, step.i), step.op, step.f);
    var o := OutcomeOf(w, step);
    assert View(Next(w, step), step.i) == o.store && Outcome(o.store, o.response) == o;
  }

  /** The row a call may have written. */
  predicate Touches(e: Effect, t: TaskId) {
    !e.Still? && !e.Reap? && e.t == t
  }

  predicate Mints(e: Effect, t: TaskId) {
    (e.Grant? || e.Replace?) && e.t == t
  }

  /** A row after a call is the row before it, a later version of it, or a new claim under the fresh ref. */
  ghost predicate RowAfter(w: World, step: Step, w': World, e: Effect, t: TaskId)
    requires step.Call? && t in w'.claims
  {
    if Mints(e, t) then w'.claims[t].ref == step.f.ref
    else t in w.claims && (if Touches(e, t) then Later(w.claims[t], w'.claims[t]) else w'.claims[t] == w.claims[t])
  }

  ghost predicate Later(old_: Row, new_: Row) {
    new_.ref == old_.ref && new_.digest == old_.digest && new_.origin == old_.origin && old_.version <= new_.version
  }

  lemma RowsAfter(w: World, step: Step, w': World, e: Effect)
    requires Effected(w, step, w', e)
    ensures forall t :: t in w'.claims ==> RowAfter(w, step, w', e, t)
  {
  }

  lemma RefsKept(w: World, step: Step, w': World, e: Effect)
    requires RefsInv(w) && Effected(w, step, w', e)
    ensures RefsInv(w')
  {
    RowsAfter(w, step, w', e);
    RefsStayApart(w, step, w', e);
  }

  lemma RefsStayApart(w: World, step: Step, w': World, e: Effect)
    requires RefsInv(w) && step.Call? && Enabled(w, step)
    requires w'.usedRefs == w.usedRefs + {step.f.ref}
    requires forall t :: t in w'.claims ==> RowAfter(w, step, w', e, t)
    ensures RefsInv(w')
  {
    forall t | t in w'.claims ensures w'.claims[t].ref in w'.usedRefs {
      assert RowAfter(w, step, w', e, t);
    }
    forall t, u | t in w'.claims && u in w'.claims && w'.claims[t].ref == w'.claims[u].ref ensures t == u {
      assert RowAfter(w, step, w', e, t) && RowAfter(w, step, w', e, u);
    }
  }

  lemma RowsKept(w: World, step: Step, w': World, e: Effect)
    requires RowsInv(w) && Effected(w, step, w', e)
    ensures RowsInv(w')
  {
  }

  /** A new receipt is for the claim that the call has just ended. */
  ghost predicate ReceiptAfter(w: World, w': World, key: (TaskId, Ref)) {
    key in w.receipts || (key.0 in w.claims && w.claims[key.0].ref == key.1 && key.0 !in w'.claims)
  }

  lemma ReceiptsAfter(w: World, step: Step, w': World, e: Effect)
    requires Effected(w, step, w', e)
    ensures forall key :: key in w'.receipts ==> ReceiptAfter(w, w', key)
  {
  }

  lemma ReceiptsKept(w: World, step: Step, w': World, e: Effect)
    requires RefsInv(w) && ReceiptsInv(w) && Effected(w, step, w', e)
    ensures ReceiptsInv(w')
  {
    RowsAfter(w, step, w', e);
    ReceiptsAfter(w, step, w', e);
    forall key | key in w'.receipts
      ensures key.1 in w'.usedRefs && forall t :: t in w'.claims ==> w'.claims[t].ref != key.1
    {
      ReceiptStaysApart(w, step, w', e, key);
    }
  }

  lemma ReceiptStaysApart(w: World, step: Step, w': World, e: Effect, key: (TaskId, Ref))
    requires RefsInv(w) && ReceiptsInv(w) && step.Call? && Enabled(w, step) && w'.usedRefs == w.usedRefs + {step.f.ref}
    requires ReceiptAfter(w, w', key)
    requires forall t :: t in w'.claims ==> RowAfter(w, step, w', e, t)
    ensures key.1 in w'.usedRefs && forall t :: t in w'.claims ==> w'.claims[t].ref != key.1
  {
    assert key.1 in w.usedRefs && key.1 != step.f.ref;
    forall t | t in w'.claims ensures w'.claims[t].ref != key.1 {
      assert RowAfter(w, step, w', e, t);
    }
  }

  /** After a call, a handle is either the one it issued or carried, or one that was held before. */
  ghost predicate Issued(step: Step, e: Effect, j: StoreId, k: Kind, h: HandleId, g: Grip)
    requires step.Call?
  {
    && j == step.i
    && match e
       case Grant(t, row) => k.HolderKind? && h == step.f.handle && g == GripOf(t, row)
       case Carry(t, row, h0) => k.HolderKind? && h == h0 && g == GripOf(t, row)
       case Reissue(t, row) => k.HolderKind? && h == step.f.handle && g == GripOf(t, row)
       case Quarantine(t, row) => k.RecoveryKind? && h == step.f.handle && g == GripOf(t, row)
       case Replace(t, row) => k.HolderKind? && h == step.f.handle && g == GripOf(t, row)
       case _ => false
  }

  lemma HandleOrigin(w: World, step: Step, w': World, e: Effect, j: StoreId, k: Kind, h: HandleId, g: Grip)
    requires Effected(w, step, w', e) && Holds(w', j, k, h, g)
    ensures Issued(step, e, j, k, h, g) || Holds(w, j, k, h, g)
    ensures e.Carry? && j == step.i && k.HolderKind? && h == e.h ==> g == GripOf(e.t, e.row)
  {
    HandleOrigins(w, step, w', e);
  }

  lemma HandleOrigins(w: World, step: Step, w': World, e: Effect)
    requires Effected(w, step, w', e)
    ensures forall j, k, h, g :: Holds(w', j, k, h, g) ==> Issued(step, e, j, k, h, g) || Holds(w, j, k, h, g)
    ensures e.Carry? ==> forall g :: Holds(w', step.i, HolderKind, e.h, g) ==> g == GripOf(e.t, e.row)
  {
  }

  lemma HandleKept(w: World, step: Step, w': World, e: Effect, j: StoreId, k: Kind, h: HandleId, g: Grip)
    requires Inv(w) && Effected(w, step, w', e)
    requires Holds(w', j, k, h, g)
    ensures HandleInv(w', k, h, g)
  {
    HandleOrigins(w, step, w', e);
    if Issued(step, e, j, k, h, g) {
      IssuedHandleKept(w, step, w', e, j, k, h, g);
    } else {
      assert HandleInv(w, k, h, g);
      OldHandleKept(w, step, w', e, k, h, g);
    }
  }

  lemma IssuedHandleKept(w: World, step: Step, w': World, e: Effect, j: StoreId, k: Kind, h: HandleId, g: Grip)
    requires Inv(w) && Effected(w, step, w', e)
    requires Issued(step, e, j, k, h, g)
    ensures HandleInv(w', k, h, g)
  {
    if e.Carry? {
      assert Holds(w, j, k, h, w.stores[j].holders[h].grip);
    }
  }

  lemma OldHandleKept(w: World, step: Step, w': World, e: Effect, k: Kind, h: HandleId, g: Grip)
    requires RefsInv(w) && Effected(w, step, w', e)
    requires HandleInv(w, k, h, g)
    ensures HandleInv(w', k, h, g)
  {
  }

  /** A holder the call wrote fits the row it wrote. */
  lemma IssuedDigest(w: World, step: Step, w': World, e: Effect, h: HandleId)
    requires DigestInv(w) && Effected(w, step, w', e) && h in w'.stores[step.i].holders
    requires Issued(step, e, step.i, HolderKind, h, w'.stores[step.i].holders[h].grip)
    ensures e.t in w'.claims && DigestFits(w', w'.stores[step.i].holders[h])
  {
    if e.Carry? {
      assert DigestFits(w, w.stores[step.i].holders[h]);
    }
  }

  /** Every other holder is one from before. */
  lemma OtherHolders(w: World, step: Step, w': World, e: Effect, j: StoreId, h: HandleId)
    requires Effected(w, step, w', e) && j in w'.stores && h in w'.stores[j].holders
    requires !Issued(step, e, j, HolderKind, h, w'.stores[j].holders[h].grip)
    ensures j in w.stores && h in w.stores[j].holders && w.stores[j].holders[h] == w'.stores[j].holders[h]
  {
  }

  lemma OldDigestFits(w: World, step: Step, w': World, e: Effect, p: Holder)
    requires DigestFits(w, p) && p.grip.ref in w.usedRefs && step.Call? && Enabled(w, step)
    requires p.grip.taskId in w'.claims ==> RowAfter(w, step, w', e, p.grip.taskId)
    ensures DigestFits(w', p)
  {
  }

  lemma DigestKept(w: World, step: Step, w': World, e: Effect, j: StoreId, h: HandleId)
    requires HandlesInv(w) && DigestInv(w) && Effected(w, step, w', e)
    requires j in w'.stores && h in w'.stores[j].holders
    ensures DigestFits(w', w'.stores[j].holders[h])
  {
    var p := w'.stores[j].holders[h];
    if Issued(step, e, j, HolderKind, h, p.grip) {
      IssuedDigest(w, step, w', e, h);
    } else {
      OtherHolders(w, step, w', e, j, h);
      RowsAfter(w, step, w', e);
      assert Holds(w, j, HolderKind, h, p.grip) && HandleInv(w, HolderKind, h, p.grip);
      OldDigestFits(w, step, w', e, p);
    }
  }

  predicate Issues(e: Effect) {
    e.Grant? || e.Carry? || e.Reissue? || e.Quarantine? || e.Replace?
  }

  /** An old handle that still matches matched before, and no new handle was issued for its task. */
  lemma OldCurrent(w: World, step: Step, w': World, e: Effect, k: Kind, h: HandleId, g: Grip)
    requires HandleInv(w, k, h, g) && Effected(w, step, w', e) && Current(w', g)
    ensures Current(w, g) && !(Issues(e) && e.t == g.taskId)
  {
  }

  lemma OneCurrentKept(w: World, step: Step, w': World, e: Effect,
                       j: StoreId, k: Kind, h: HandleId, g: Grip, j': StoreId, k': Kind, h': HandleId, g': Grip)
    requires HandlesInv(w) && OneCurrent(w) && Effected(w, step, w', e)
    requires Holds(w', j, k, h, g) && Holds(w', j', k', h', g')
    requires Current(w', g) && Current(w', g') && g.taskId == g'.taskId
    ensures j == j' && k == k' && h == h'
  {
    HandleOrigin(w, step, w', e, j, k, h, g);
    HandleOrigin(w, step, w', e, j', k', h', g');
    if !Issued(step, e, j, k, h, g) {
      assert HandleInv(w, k, h, g);
      OldCurrent(w, step, w', e, k, h, g);
    }
    if !Issued(step, e, j', k', h', g') {
      assert HandleInv(w, k', h', g');
      OldCurrent(w, step, w', e, k', h', g');
    }
  }

  lemma StepKeepsInv(w: World, step: Step)
    requires Inv(w) && Enabled(w, step)
    ensures Inv(Next(w, step))
  {
    var w' := Next(w, step);
    if step.Call? {
      var e := CallIsEffected(w, step);
      RefsKept(w, step, w', e);
      RowsKept(w, step, w', e);
      ReceiptsKept(w, step, w', e);
      forall j, k, h, g | Holds(w', j, k, h, g) ensures HandleInv(w', k, h, g) {
        HandleKept(w, step, w', e, j, k, h, g);
      }
      forall j, h | j in w'.stores && h in w'.stores[j].holders ensures DigestFits(w', w'.stores[j].holders[h]) {
        DigestKept(w, step, w', e, j, h);
      }
      forall j, k, h, g, j', k', h', g' |
        Holds(w', j, k, h, g) && Holds(w', j', k', h', g') && Current(w', g) && Current(w', g') && g.taskId == g'.taskId
        ensures j == j' && k == k' && h == h'
      {
        OneCurrentKept(w, step, w', e, j, k, h, g, j', k', h', g');
      }
    } else {
      MemoryStepKeepsInv(w, step);
    }
  }

  lemma MemoryStepKeepsInv(w: World, step: Step)
    requires Inv(w) && Enabled(w, step) && !step.Call?
    ensures Inv(Next(w, step))
  {
    var w' := Next(w, step);
    assert forall j, k, h, g :: Holds(w', j, k, h, g) ==> Holds(w, j, k, h, g);
    forall j, k, h, g | Holds(w', j, k, h, g) ensures HandleInv(w', k, h, g) {
      assert HandleInv(w, k, h, g);
    }
    forall j, h | j in w'.stores && h in w'.stores[j].holders ensures DigestFits(w', w'.stores[j].holders[h]) {
      assert DigestFits(w, w.stores[j].holders[h]);
    }
  }

  // ------------------------------------------------------------ over whole runs

  lemma PrefixValid(steps: seq<Step>, k: nat)
    requires ValidRun(steps) && k <= |steps|
    ensures ValidRun(steps[..k])
    ensures k < |steps| ==>
      Enabled(After(steps[..k]), steps[k]) && Exec(steps[..k + 1]) == Some(Next(After(steps[..k]), steps[k]))
    decreases |steps| - k
  {
    if k == |steps| {
      assert steps[..k] == steps;
    } else {
      PrefixValid(steps, k + 1);
      assert steps[..k + 1][..k] == steps[..k];
    }
  }

  lemma EmptyInv()
    ensures Inv(Empty)
  {
  }

  /** Every reachable world keeps the invariant. */
  lemma {:induction false} ReachableInv(steps: seq<Step>)
    requires ValidRun(steps)
    ensures Inv(After(steps))
    decreases |steps|
  {
    if steps == [] {
      EmptyInv();
    } else {
      var before := steps[..|steps| - 1];
      ReachableInv(before);
      StepKeepsInv(After(before), steps[|before|]);
    }
  }

  ghost function StateAt(steps: seq<Step>, k: nat): World
    requires ValidRun(steps) && k <= |steps|
  {
    PrefixValid(steps, k);
    After(steps[..k])
  }

  lemma StepAt(steps: seq<Step>, k: nat)
    requires ValidRun(steps) && k < |steps|
    ensures Inv(StateAt(steps, k)) && Enabled(StateAt(steps, k), steps[k])
    ensures StateAt(steps, k + 1) == Next(StateAt(steps, k), steps[k])
  {
    PrefixValid(steps, k);
    ReachableInv(steps[..k]);
  }

  /** In every reachable world two handles that both match a task's row are the same handle. */
  lemma AtMostOneCurrentHandle(steps: seq<Step>, i: StoreId, k: Kind, h: HandleId, g: Grip,
                               i': StoreId, k': Kind, h': HandleId, g': Grip)
    requires ValidRun(steps)
    requires var w := After(steps);
      Holds(w, i, k, h, g) && Holds(w, i', k', h', g') && Current(w, g) && Current(w, g') && g.taskId == g'.taskId
    ensures i == i' && k == k' && h == h'
  {
    ReachableInv(steps);
  }

  // ------------------------------------------------------------- spent handles

  /** The grip can never match a row again: its ref is used up, or its version has been passed. */
  ghost predicate Spent(w: World, g: Grip) {
    && g.ref in w.usedRefs
    && (SameRef(w, g) ==> g.version < w.claims[g.taskId].version)
  }

  lemma SpentStaysOneStep(w: World, step: Step, g: Grip)
    requires Enabled(w, step) && Spent(w, g)
    ensures Spent(Next(w, step), g)
  {
    if step.Call? {
      EveryEffect(View(w, step.i), step.op, step.f);
    }
  }

  lemma SpentHandleUnmoved(w: World, step: Step, i: StoreId, k: Kind, h: HandleId, g: Grip, g': Grip)
    requires Inv(w) && Enabled(w, step)
    requires h in w.usedHandles && Spent(w, g)
    requires forall x :: Holds(w, i, k, h, x) ==> x == g
    requires Holds(Next(w, step), i, k, h, g')
    ensures g' == g
  {
    if step.Call? {
      EveryEffect(View(w, step.i), step.op, step.f);
      var e := EffectOf(View(w, step.i), step.op, step.f);
      HandleOrigins(w, step, Next(w, step), e);
      if e.Carry? && h == e.h && i == step.i && k.HolderKind? {
        assert Holds(w, i, k, h, w.stores[i].holders[h].grip);
      } else {
        assert !Issued(step, e, i, k, h, g');
        assert Holds(w, i, k, h, g');
      }
    } else {
      assert Holds(w, i, k, h, g');
    }
  }

  /** Once spent, a handle stays spent for the rest of the run, whatever any instance does. */
  lemma {:induction false} SpentForever(steps: seq<Step>, m: nat, n: nat, i: StoreId, k: Kind, h: HandleId, g: Grip)
    requires ValidRun(steps) && m <= n <= |steps|
    requires Holds(StateAt(steps, m), i, k, h, g) && Spent(StateAt(steps, m), g)
    ensures Spent(StateAt(steps, n), g) && h in StateAt(steps, n).usedHandles
    ensures forall g' :: Holds(StateAt(steps, n), i, k, h, g') ==> g' == g
    decreases n
  {
    if m == n {
      PrefixValid(steps, m);
      ReachableInv(steps[..m]);
      assert HandleInv(StateAt(steps, m), k, h, g);
    } else {
      SpentForever(steps, m, n - 1, i, k, h, g);
      StepAt(steps, n - 1);
      var w := StateAt(steps, n - 1);
      SpentStaysOneStep(w, steps[n - 1], g);
      var w' := StateAt(steps, n);
      forall g' | Holds(w', i, k, h, g') ensures g' == g {
        SpentHandleUnmoved(w, steps[n - 1], i, k, h, g, g');
      }
    }
  }

  /** The holder or recovery handle an operation is called with, if it takes one. */
  function Presented(op: Op): Option<(Kind, HandleId)> {
    match op
    case DoTransition(h, _, _, _) => Some((HolderKind, h))
    case DoRenew(h, _, _) => Some((HolderKind, h))
    case DoRelease(h, _) => Some((HolderKind, h))
    case DoReleaseTerminal(h, _, _) => Some((HolderKind, h))
    case DoBeginRecovery(h, _) => Some((HolderKind, h))
    case DoRecord(h, _, _, _, _) => Some((RecoveryKind, h))
    case DoReleaseRecovered(h, _) => Some((RecoveryKind, h))
    case DoReleaseExternalRecovered(h, _, _) => Some((RecoveryKind, h))
    case DoReclaim(h, _) => Some((RecoveryKind, h))
    case _ => None
  }

  /** Every operation presented with a spent handle is refused and changes nothing, and both gate checks say no. */
  lemma SpentHandleFails(w: World, i: StoreId, k: Kind, h: HandleId, g: Grip, op: Op, f: Fresh)
    requires Holds(w, i, k, h, g) && Spent(w, g)
    requires Presented(op) == Some((k, h))
    ensures Apply(View(w, i), op, f).response.Refused? && Apply(View(w, i), op, f).store == View(w, i)
    ensures k.HolderKind? ==> forall t, s, now :: !IsCurrent(View(w, i), h, t, s, now)
    ensures k.HolderKind? ==> forall t, who, s, now :: !IsExternalCurrent(View(w, i), h, t, who, s, now)
  {
  }

  /** A successful reattach, recovery start or reclaim spends every handle issued earlier for that task. */
  lemma Supersedes(w: World, i: StoreId, op: Op, f: Fresh, j: StoreId, k: Kind, h: HandleId, g: Grip)
    requires Inv(w) && Enabled(w, Call(i, op, f))
    requires var r := Apply(View(w, i), op, f).response;
      r.Attached? || r.Quarantined? || r.Granted?
    requires Holds(w, j, k, h, g) && g.taskId == OpTask(View(w, i), op)
    ensures Spent(Next(w, Call(i, op, f)), g)
  {
    EveryEffect(View(w, i), op, f);
    assert HandleInv(w, k, h, g);
    TaskOfEffect(View(w, i), op, f);
  }

  lemma TaskOfEffect(s: Store, op: Op, f: Fresh)
    ensures var e := EffectOf(s, op, f);
      !e.Still? && !e.Reap? ==> e.t == OpTask(s, op)
  {
  }

  // ------------------------------------------------------------------ launches

  datatype Fact = Killed | Reaped | BindRevoked

  function FactOf(row: Row, fact: Fact): Option<int> {
    match fact
    case Killed => row.killedAt
    case Reaped => row.reapedAt
    case BindRevoked => row.bindRevokedAt
  }

  /** Step m, by a current recovery handle for exactly this claim, put the fact into its row, where it was not yet. */
  ghost predicate RecordedAt(steps: seq<Step>, m: nat, t: TaskId, ref: Ref, fact: Fact)
    requires ValidRun(steps) && m < |steps|
  {
    var w := StateAt(steps, m);
    && steps[m].Call? && steps[m].op.DoRecord? && steps[m].i in w.stores
    && (match fact case Killed => steps[m].op.killed case Reaped => steps[m].op.reaped case BindRevoked => steps[m].op.revoked)
    && ClaimAt(w, t, ref) && w.claims[t].state.Recovering? && FactOf(w.claims[t], fact).None?
    && Holds(w, steps[m].i, RecoveryKind, steps[m].op.h, GripOf(t, w.claims[t]))
    && ClaimAt(StateAt(steps, m + 1), t, ref) && FactOf(StateAt(steps, m + 1).claims[t], fact).Some?
  }

  ghost predicate RecordedBefore(steps: seq<Step>, n: nat, t: TaskId, ref: Ref, fact: Fact)
    requires ValidRun(steps) && n <= |steps|
  {
    exists m: nat :: m < n && RecordedAt(steps, m, t, ref, fact)
  }

  lemma FactAppears(w: World, step: Step, t: TaskId, fact: Fact)
    requires Enabled(w, step) && step.Call?
    requires t in Next(w, step).claims && FactOf(Next(w, step).claims[t], fact).Some?
    requires !(t in w.claims && w.claims[t].ref == Next(w, step).claims[t].ref && FactOf(w.claims[t], fact).Some?)
    ensures t in w.claims && w.claims[t].ref == Next(w, step).claims[t].ref && w.claims[t].state.Recovering?
    ensures step.op.DoRecord? && Holds(w, step.i, RecoveryKind, step.op.h, GripOf(t, w.claims[t]))
    ensures match fact case Killed => step.op.killed case Reaped => step.op.reaped case BindRevoked => step.op.revoked
  {
    EveryEffect(View(w, step.i), step.op, step.f);
  }

  /** A recovery fact in a row was recorded, earlier in the run, for that row's own ref. */
  lemma {:induction false} FactsWereRecorded(steps: seq<Step>, n: nat, t: TaskId, fact: Fact)
    requires ValidRun(steps) && n <= |steps|
    requires t in StateAt(steps, n).claims && FactOf(StateAt(steps, n).claims[t], fact).Some?
    ensures RecordedBefore(steps, n, t, StateAt(steps, n).claims[t].ref, fact)
    decreases n
  {
    if n == 0 {
    } else {
      StepAt(steps, n - 1);
      var w := StateAt(steps, n - 1);
      var ref := StateAt(steps, n).claims[t].ref;
      if ClaimAt(w, t, ref) && FactOf(w.claims[t], fact).Some? {
        FactsWereRecorded(steps, n - 1, t, fact);
      } else {
        assert steps[n - 1].Call?;
        FactAppears(w, steps[n - 1], t, fact);
        assert RecordedAt(steps, n - 1, t, ref, fact);
      }
    }
  }

  ghost predicate Launches(steps: seq<Step>, k: nat, t: TaskId)
    requires ValidRun(steps) && k < |steps|
  {
    var w := StateAt(steps, k);
    && steps[k].Call? && steps[k].i in w.stores
    && OutcomeOf(w, steps[k]).response.Granted?
    && OpTask(View(w, steps[k].i), steps[k].op) == t
  }

  ghost predicate ProvenByRecords(steps: seq<Step>, k: nat, t: TaskId, ref: Ref)
    requires ValidRun(steps) && k < |steps|
  {
    forall fact: Fact :: RecordedBefore(steps, k, t, ref, fact)
  }

  /** Step k ends the claim `ref` on task `t`: the claim is there before it, gone after it, and the step may end it. */
  ghost predicate EndsClaim(steps: seq<Step>, k: nat, t: TaskId, ref: Ref)
    requires ValidRun(steps) && k < |steps|
  {
    var w := StateAt(steps, k);
    && steps[k].Call? && steps[k].i in w.stores
    && ClaimAt(w, t, ref) && !ClaimAt(StateAt(steps, k + 1), t, ref)
    && MayEnd(View(w, steps[k].i), steps[k].op, t)
    && (steps[k].op.DoRelease? || steps[k].op.DoReleaseTerminal? || steps[k].op.DoReap?
        || ProvenByRecords(steps, k, t, ref))
  }

  lemma ClaimPersists(w: World, step: Step, t: TaskId)
    requires Enabled(w, step) && t in w.claims
    ensures
      || (t in Next(w, step).claims && Next(w, step).claims[t].ref == w.claims[t].ref)
      || (step.Call? && MayEnd(View(w, step.i), step.op, t))
  {
    if step.Call? {
      EveryEffect(View(w, step.i), step.op, step.f);
    }
  }

  lemma LaunchLeavesClaim(w: World, step: Step)
    requires Enabled(w, step) && step.Call? && OutcomeOf(w, step).response.Granted?
    ensures var t := OpTask(View(w, step.i), step.op);
      && t in Next(w, step).claims && Next(w, step).claims[t].ref == step.f.ref
      && (t in w.claims ==> MayEnd(View(w, step.i), step.op, t))
  {
    EveryEffect(View(w, step.i), step.op, step.f);
    TaskOfEffect(View(w, step.i), step.op, step.f);
  }

  lemma EndingIsProper(steps: seq<Step>, k: nat, t: TaskId)
    requires ValidRun(steps) && k < |steps| && steps[k].Call?
    requires steps[k].i in StateAt(steps, k).stores && t in StateAt(steps, k).claims
    requires MayEnd(View(StateAt(steps, k), steps[k].i), steps[k].op, t)
    requires !ClaimAt(StateAt(steps, k + 1), t, StateAt(steps, k).claims[t].ref)
    ensures EndsClaim(steps, k, t, StateAt(steps, k).claims[t].ref)
  {
    var w := StateAt(steps, k);
    if !(steps[k].op.DoRelease? || steps[k].op.DoReleaseTerminal? || steps[k].op.DoReap?) {
      forall fact: Fact ensures RecordedBefore(steps, k, t, w.claims[t].ref, fact) {
        FactsWereRecorded(steps, k, t, fact);
      }
    }
  }

  /**
   Two launch permissions for one task are always separated by the proper end of
   the first claim: a release by its current, unexpired holder; a recovery release
   or reclaim with kill, reap and bind revocation recorded for that very claim; or
   a boot reap of an in-box claim acquired before the boot.
   */
  lemma LaunchesSeparated(steps: seq<Step>, i: nat, j: nat, t: TaskId)
    requires ValidRun(steps) && i < j < |steps|
    requires Launches(steps, i, t) && Launches(steps, j, t)
    ensures exists k: nat :: i < k <= j && EndsClaim(steps, k, t, steps[i].f.ref)
  {
    StepAt(steps, i);
    LaunchLeavesClaim(StateAt(steps, i), steps[i]);
    ClaimUntilLaunch(steps, i + 1, j, t, steps[i].f.ref);
  }

  /** Follow a claim from step k up to the next launch on its task: it must end on the way. */
  lemma {:induction false} ClaimUntilLaunch(steps: seq<Step>, k: nat, j: nat, t: TaskId, ref: Ref)
    requires ValidRun(steps) && k <= j < |steps|
    requires ClaimAt(StateAt(steps, k), t, ref) && Launches(steps, j, t)
    ensures exists n: nat :: k <= n <= j && EndsClaim(steps, n, t, ref)
    decreases j - k
  {
    StepAt(steps, k);
    var w := StateAt(steps, k);
    if k == j {
      LaunchLeavesClaim(w, steps[k]);
      PrefixValid(steps, k);
      ReachableInv(steps[..k]);
      EndingIsProper(steps, k, t);
    } else {
      ClaimPersists(w, steps[k], t);
      if ClaimAt(StateAt(steps, k + 1), t, ref) {
        ClaimUntilLaunch(steps, k + 1, j, t, ref);
      } else {
        EndingIsProper(steps, k, t);
      }
    }
  }

  // --------------------------------------------------- one claim, from birth on

  ghost predicate ClaimAt(w: World, t: TaskId, ref: Ref) {
    t in w.claims && w.claims[t].ref == ref
  }

  ghost predicate Progress(old_: Row, new_: Row) {
    && Rank(old_.state) <= Rank(new_.state)
    && old_.version <= new_.version
    && FactsKept(old_, new_)
    && new_.acquiredAt == old_.acquiredAt && new_.origin == old_.origin && new_.digest == old_.digest
  }

  lemma StepProgress(w: World, step: Step, t: TaskId, ref: Ref)
    requires RefsInv(w) && RowsInv(w) && Enabled(w, step)
    requires ClaimAt(w, t, ref) && ClaimAt(Next(w, step), t, ref)
    ensures Progress(w.claims[t], Next(w, step).claims[t])
  {
    if step.Call? {
      EveryEffect(View(w, step.i), step.op, step.f);
    }
  }

  lemma RefNeverReturns(w: World, step: Step, t: TaskId, ref: Ref)
    requires Enabled(w, step) && ref in w.usedRefs && !ClaimAt(w, t, ref)
    ensures ref in Next(w, step).usedRefs && !ClaimAt(Next(w, step), t, ref)
  {
    if step.Call? {
      EveryEffect(View(w, step.i), step.op, step.f);
    }
  }

  /** Within one claim the state only moves forward and recovery facts are written once. */
  lemma {:induction false} ClaimProgress(steps: seq<Step>, m: nat, n: nat, t: TaskId, ref: Ref)
    requires ValidRun(steps) && m <= n <= |steps|
    requires ClaimAt(StateAt(steps, m), t, ref)
    ensures ref in StateAt(steps, n).usedRefs
    ensures ClaimAt(StateAt(steps, n), t, ref) ==> Progress(StateAt(steps, m).claims[t], StateAt(steps, n).claims[t])
    decreases n
  {
    if m == n {
      PrefixValid(steps, m);
      ReachableInv(steps[..m]);
    } else {
      ClaimProgress(steps, m, n - 1, t, ref);
      StepAt(steps, n - 1);
      ProgressOneMore(StateAt(steps, n - 1), steps[n - 1], t, ref, StateAt(steps, m).claims[t]);
    }
  }

  lemma ProgressOneMore(w: World, step: Step, t: TaskId, ref: Ref, first: Row)
    requires Inv(w) && Enabled(w, step) && ref in w.usedRefs
    requires ClaimAt(w, t, ref) ==> Progress(first, w.claims[t])
    ensures ref in Next(w, step).usedRefs
    ensures ClaimAt(Next(w, step), t, ref) ==> Progress(first, Next(w, step).claims[t])
  {
    if ClaimAt(w, t, ref) {
      if ClaimAt(Next(w, step), t, ref) {
        StepProgress(w, step, t, ref);
      }
    } else {
      RefNeverReturns(w, step, t, ref);
    }
  }

  /** In every reachable world a live claim carries no recovery fact, and a receipt means its claim has no row. */
  lemma LiveClaimsAreClean(steps: seq<Step>, t: TaskId)
    requires ValidRun(steps) && t in After(steps).claims
    ensures Live(After(steps).claims[t].state) ==> After(steps).claims[t].NoFacts()
    ensures forall u :: (u, After(steps).claims[t].ref) !in After(steps).receipts
  {
    ReachableInv(steps);
    assert RowSane(After(steps).claims[t]);
  }

  /** Calls after step m carry times no earlier than the given one. */
  ghost predicate ClockFrom(steps: seq<Step>, m: nat, time: int) {
    forall k :: m <= k < |steps| && steps[k].Call? && !steps[k].op.DoClose? ==> OpNow(steps[k].op) >= time
  }

  /** The claim is still there, not renewed and not advanced: at most quarantined. */
  ghost predicate StillExpired(w: World, t: TaskId, row: Row) {
    && ClaimAt(w, t, row.ref)
    && w.claims[t].expiresAt == row.expiresAt
    && (w.claims[t].state == row.state || w.claims[t].state.Recovering?)
  }

  /** One call made when the claim has expired: the row is kept, quarantined, or properly gone. */
  lemma ExpiredEffect(s: Store, op: Op, f: Fresh, s': Store, e: Effect, t: TaskId)
    requires Shown(s, op, f, s', e)
    requires t in s.claims && f.ref != s.claims[t].ref && s.claims[t].expiresAt <= OpNow(op)
    ensures if t in s'.claims && s'.claims[t].ref == s.claims[t].ref
      then s'.claims[t].expiresAt == s.claims[t].expiresAt
           && (s'.claims[t].state == s.claims[t].state || s'.claims[t].state.Recovering?)
      else MayEnd(s, op, t) && !op.DoRelease? && !op.DoReleaseTerminal?
  {
  }

  lemma ExpiredStep(w: World, step: Step, t: TaskId, row: Row, time: int)
    requires RefsInv(w) && Enabled(w, step) && StillExpired(w, t, row) && row.expiresAt <= time
    requires step.Call? && !step.op.DoClose? ==> OpNow(step.op) >= time
    ensures StillExpired(Next(w, step), t, row)
      || (step.Call? && MayEnd(View(w, step.i), step.op, t) && !ClaimAt(Next(w, step), t, row.ref)
          && !step.op.DoRelease? && !step.op.DoReleaseTerminal?)
  {
    if step.Call? && !step.op.DoClose? {
      var e := CallIsEffected(w, step);
      ExpiredEffect(View(w, step.i), step.op, step.f, View(Next(w, step), step.i), e, t);
    }
  }

  ghost predicate EndsByRecovery(steps: seq<Step>, k: nat, t: TaskId, ref: Ref)
    requires ValidRun(steps) && k < |steps|
  {
    EndsClaim(steps, k, t, ref) && !steps[k].op.DoRelease? && !steps[k].op.DoReleaseTerminal?
  }

  ghost predicate EndedByRecovery(steps: seq<Step>, m: nat, n: nat, t: TaskId, ref: Ref)
    requires ValidRun(steps) && n <= |steps|
  {
    exists k: nat :: m <= k < n && EndsByRecovery(steps, k, t, ref)
  }

  /**
   With a clock that does not run backwards, an expired claim is never renewed,
   advanced, reattached or released: it stays as it is, enters recovery, and ends
   only by a proven recovery or a boot reap.
   */
  lemma {:induction false} ExpiredOnlyRecovers(steps: seq<Step>, m: nat, n: nat, t: TaskId, time: int)
    requires ValidRun(steps) && m <= n <= |steps| && ClockFrom(steps, m, time)
    requires t in StateAt(steps, m).claims && StateAt(steps, m).claims[t].expiresAt <= time
    ensures var row := StateAt(steps, m).claims[t];
      StillExpired(StateAt(steps, n), t, row) || EndedByRecovery(steps, m, n, t, row.ref)
    decreases n
  {
    if m < n {
      ExpiredOnlyRecovers(steps, m, n - 1, t, time);
      var row := StateAt(steps, m).claims[t];
      if !EndedByRecovery(steps, m, n - 1, t, row.ref) {
        ExpiredOneMore(steps, n - 1, t, row, time);
      }
    }
  }

  lemma ExpiredOneMore(steps: seq<Step>, k: nat, t: TaskId, row: Row, time: int)
    requires ValidRun(steps) && k < |steps| && StillExpired(StateAt(steps, k), t, row) && row.expiresAt <= time
    requires steps[k].Call? && !steps[k].op.DoClose? ==> OpNow(steps[k].op) >= time
    ensures StillExpired(StateAt(steps, k + 1), t, row) || EndsByRecovery(steps, k, t, row.ref)
  {
    StepAt(steps, k);
    PrefixValid(steps, k);
    ReachableInv(steps[..k]);
    ExpiredStep(StateAt(steps, k), steps[k], t, row, time);
    if !StillExpired(StateAt(steps, k + 1), t, row) {
      EndingIsProper(steps, k, t);
    }
  }
}
