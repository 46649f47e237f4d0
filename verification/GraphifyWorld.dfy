/** Leases and publications under the one private root they share. */
module GraphifyWorld {
  import opened Prelude
  import opened GraphifyLeaseRules
  import LeaseRuns = GraphifyLeaseRuns
  import Stores = GraphifyStoreRules
  import StoreRuns = GraphifyStoreRuns

  type RunId = Stores.RunId

  /** The leases, and the runs with their artifacts. The drafts of leases are entries of the store too. */
  datatype World = World(root: Root, store: Stores.Store)

  const EMPTY := World(map[], Stores.Store(map[], map[], {}))

  /** An acknowledgement reads the committed runs, and a plan the leases, that are there when it is made. */
  datatype Act =
    | Reserving(sel: Selection, op: OperationId)
    | Acking(sel: Selection, op: OperationId)
    | Publishing(id: RunId, record: Stores.Record, retain: int)
    | Preparing(retain: int)
    | Completing(id: RunId)

  /** One call, how it ended if it is one on leases, and what it left. */
  datatype Event = Event(act: Act, outcome: LeaseRuns.Outcome, after: World)

  /** What the store says of a committed run to an acknowledgement. */
  function RunOf(store: Stores.Store, id: RunId): Run
    requires id in store.runs
  {
    var r := store.runs[id];
    Run(Some(r.target), Some(r.folder), r.projection, Stores.Intact(store.files, id, r))
  }

  ghost predicate Reads(store: Stores.Store, runs: seq<Run>) {
    && (forall id :: id in store.runs ==> RunOf(store, id) in runs)
    && (forall run :: run in runs ==> exists id :: id in store.runs && RunOf(store, id) == run)
  }

  ghost predicate ReadsLeases(root: Root, leased: Stores.LeaseSet) {
    forall sel, op :: (sel, op) in leased <==> Holds(root, sel, op)
  }

  function WithDrafts(store: Stores.Store, root: Root): Stores.Store {
    store.(entries := (set e | e in store.entries && !e.LeaseDraft?)
                      + (set name | name in root && name.Draft? :: Stores.LeaseDraft(name)))
  }

  /** The private root without the drafts that a cleanup has removed. */
  function WithoutDrafts(root: Root, store: Stores.Store): Root {
    map name | name in root && (name.Draft? ==> Stores.LeaseDraft(name) in store.entries) :: root[name]
  }

  ghost predicate LeaseCall(before: World, act: LeaseRuns.Act, e: Event) {
    && LeaseRuns.Follows(before.root, LeaseRuns.Event(act, e.outcome, e.after.root))
    && e.after.store == WithDrafts(before.store, e.after.root)
  }

  ghost predicate StoreCall(before: World, act: StoreRuns.Act, e: Event) {
    exists store :: StoreLeft(before, act, e, store)
  }

  ghost predicate StoreLeft(before: World, act: StoreRuns.Act, e: Event, store: Stores.Store) {
    && StoreRuns.Follows(before.store, StoreRuns.Event(act, store, false))
    && e.after == World(WithoutDrafts(before.root, store), WithDrafts(store, WithoutDrafts(before.root, store)))
  }

  ghost predicate AckCall(before: World, e: Event, runs: seq<Run>)
    requires e.act.Acking?
  {
    Reads(before.store, runs) && LeaseCall(before, LeaseRuns.Acking(e.act.sel, e.act.op, runs), e)
  }

  ghost predicate PlanCall(before: World, act: StoreRuns.Act, e: Event)
    requires !act.Completing?
  {
    ReadsLeases(before.root, act.leased) && StoreCall(before, act, e)
  }

  ghost predicate Follows(before: World, e: Event) {
    match e.act
    case Reserving(sel, op) => LeaseCall(before, LeaseRuns.Reserving(sel, op), e)
    case Acking(sel, op) => exists runs :: AckCall(before, e, runs)
    case Publishing(id, r, retain) => exists leased :: PlanCall(before, StoreRuns.Publishing(id, r, leased, retain), e)
    case Preparing(retain) => exists leased :: PlanCall(before, StoreRuns.Preparing(leased, retain), e)
    case Completing(id) => StoreCall(before, StoreRuns.Completing(id), e)
  }

  /** The world before event `i`. */
  function At(run: seq<Event>, i: nat): World
    requires i <= |run|
  {
    if i == 0 then EMPTY else run[i - 1].after
  }

  ghost predicate FollowsAt(run: seq<Event>, i: nat)
    requires i < |run|
  {
    Follows(At(run, i), run[i])
  }

  ghost predicate IsRun(run: seq<Event>) {
    forall i: nat :: i < |run| ==> FollowsAt(run, i)
  }

  ghost predicate WorldInv(w: World) {
    Inv(w.root) && Stores.StoreOk(w.store)
  }

  // ----------------------------------------------------------------- what is unseen

  lemma DraftsUnseen(root: Root, store: Stores.Store)
    requires Inv(root)
    ensures Inv(WithoutDrafts(root, store)) && SameView(root, WithoutDrafts(root, store))
  {
    var left := WithoutDrafts(root, store);
    forall name | name in left ensures GoodEntry(left, name) {
      assert GoodEntry(root, name);
    }
  }

  lemma StepKeepsInv(before: World, e: Event)
    requires WorldInv(before) && Follows(before, e)
    ensures WorldInv(e.after)
  {
    if e.act.Reserving? || e.act.Acking? {
      assert Stores.StoreOk(WithDrafts(before.store, e.after.root));
    } else {
      var act, store := StoreStep(before, e);
      StoreRuns.StepKeepsPairs(before.store, StoreRuns.Event(act, store, false));
      DraftsUnseen(before.root, store);
    }
  }

  /** The step of the store's own machine that a world step takes. */
  lemma StoreStep(before: World, e: Event) returns (act: StoreRuns.Act, store: Stores.Store)
    requires Follows(before, e) && !e.act.Reserving? && !e.act.Acking?
    ensures StoreLeft(before, act, e, store)
    ensures act.Completing? || ReadsLeases(before.root, act.leased)
  {
    match e.act
    case Publishing(id, r, retain) =>
      var leased :| PlanCall(before, StoreRuns.Publishing(id, r, leased, retain), e);
      act := StoreRuns.Publishing(id, r, leased, retain);
      store :| StoreLeft(before, act, e, store);
    case Preparing(retain) =>
      var leased :| PlanCall(before, StoreRuns.Preparing(leased, retain), e);
      act := StoreRuns.Preparing(leased, retain);
      store :| StoreLeft(before, act, e, store);
    case Completing(id) =>
      act := StoreRuns.Completing(id);
      store :| StoreLeft(before, act, e, store);
  }

  lemma {:induction false} InvAlways(run: seq<Event>, i: nat)
    requires IsRun(run) && i <= |run|
    ensures WorldInv(At(run, i))
  {
    if i > 0 {
      InvAlways(run, i - 1);
      assert FollowsAt(run, i - 1);
      StepKeepsInv(At(run, i - 1), run[i - 1]);
    }
  }

  // -------------------------------------------------- completed, as the store has it

  predicate RunFor(r: Stores.Record, sel: Selection, op: OperationId) {
    && r.projection.Some? && r.target == sel.targetId && r.folder == sel.folderId
    && r.projection.value.accountId == sel.accountId && r.projection.value.operationId == op
  }

  /** The store has a completed, intact run for the operation, and no pending one. */
  predicate StoreCompleted(store: Stores.Store, sel: Selection, op: OperationId) {
    && (exists id :: id in store.runs && RunFor(store.runs[id], sel, op))
    && (forall id :: id in store.runs && RunFor(store.runs[id], sel, op) ==>
          !store.runs[id].projection.value.pending && Stores.Intact(store.files, id, store.runs[id]))
  }

  lemma CompletedIsStoreCompleted(store: Stores.Store, runs: seq<Run>, sel: Selection, op: OperationId)
    requires Reads(store, runs)
    ensures Completed(runs, sel, op) <==> StoreCompleted(store, sel, op)
  {
    forall id | id in store.runs ensures BuiltFor(RunOf(store, id), sel, op) <==> RunFor(store.runs[id], sel, op) {
    }
    if i :| 0 <= i < |runs| && BuiltFor(runs[i], sel, op) {
      assert runs[i] in runs;
    }
    if id :| id in store.runs && RunFor(store.runs[id], sel, op) {
      assert RunOf(store, id) in runs;
    }
    if StoreCompleted(store, sel, op) {
      forall i | 0 <= i < |runs| && BuiltFor(runs[i], sel, op) ensures !runs[i].projection.value.pending && runs[i].intact {
        assert runs[i] in runs;
      }
    }
    if Completed(runs, sel, op) {
      forall id | id in store.runs && RunFor(store.runs[id], sel, op)
        ensures !store.runs[id].projection.value.pending && Stores.Intact(store.files, id, store.runs[id])
      {
        assert RunOf(store, id) in runs;
      }
    }
  }

  // ------------------------------------------------------------- leases and their runs

  /** The step moves the lease to the acknowledged record, and the store has the operation completed. */
  predicate Acknowledges(before: World, e: Event, sel: Selection, op: OperationId) {
    && e.act == Acking(sel, op) && StoreCompleted(before.store, sel, op)
    && Holds(before.root, sel, op) && !Holds(e.after.root, sel, op) && HasAcked(e.after.root, sel, op)
  }

  predicate AcknowledgesAt(run: seq<Event>, k: nat, sel: Selection, op: OperationId)
    requires k < |run|
  {
    Acknowledges(At(run, k), run[k], sel, op)
  }

  /** What a world step does to the leases: a step of their own machine, or nothing that is seen. */
  lemma LeaseStep(before: World, e: Event, sel: Selection, op: OperationId)
    requires WorldInv(before) && Follows(before, e)
    ensures Holds(before.root, sel, op) ==> Holds(e.after.root, sel, op) || Acknowledges(before, e, sel, op)
    ensures HasAcked(e.after.root, sel, op) ==> HasAcked(before.root, sel, op) || Acknowledges(before, e, sel, op)
  {
    match e.act
    case Reserving(s, o) =>
      LeaseActStep(before, LeaseRuns.Reserving(s, o), e, sel, op);
    case Acking(s, o) =>
      var runs :| AckCall(before, e, runs);
      CompletedIsStoreCompleted(before.store, runs, s, o);
      LeaseActStep(before, LeaseRuns.Acking(s, o, runs), e, sel, op);
    case _ =>
      var _, store := StoreStep(before, e);
      DraftsUnseen(before.root, store);
      assert SameHeld(before.root, e.after.root, sel) && SameAcked(before.root, e.after.root, sel);
  }

  lemma LeaseActStep(before: World, act: LeaseRuns.Act, e: Event, sel: Selection, op: OperationId)
    requires WorldInv(before) && LeaseCall(before, act, e)
    ensures var event := LeaseRuns.Event(act, e.outcome, e.after.root);
      && (Holds(before.root, sel, op) ==> Holds(e.after.root, sel, op) || LeaseRuns.Acknowledges(before.root, event, sel, op))
      && (HasAcked(e.after.root, sel, op) ==> HasAcked(before.root, sel, op) || LeaseRuns.Acknowledges(before.root, event, sel, op))
  {
    var event := LeaseRuns.Event(act, e.outcome, e.after.root);
    if Holds(before.root, sel, op) {
      LeaseRuns.LeaseKept(before.root, event, sel, op);
    }
    if HasAcked(e.after.root, sel, op) && !HasAcked(before.root, sel, op) {
      LeaseRuns.NewlyAcked(before.root, event, sel, op);
    }
  }

  /** While the lease is held, no call loses a committed run that was built for it. */
  lemma RunKept(before: World, e: Event, id: RunId, sel: Selection, op: OperationId)
    requires Follows(before, e) && Holds(before.root, sel, op)
    requires id in before.store.runs && RunFor(before.store.runs[id], sel, op)
    ensures id in e.after.store.runs && StoreRuns.Grown(before.store.runs[id], e.after.store.runs[id])
  {
    if !e.act.Reserving? && !e.act.Acking? {
      var act, store := StoreStep(before, e);
      StoreRuns.PinnedKept(before.store, StoreRuns.Event(act, store, false), id);
    }
  }

  /** The run is committed for the operation, intact, and as it was but for the completion of its projection. */
  predicate Keeps(w: World, id: RunId, first: Stores.Record, sel: Selection, op: OperationId) {
    && Holds(w.root, sel, op) && id in w.store.runs && RunFor(w.store.runs[id], sel, op)
    && StoreRuns.Grown(first, w.store.runs[id]) && Stores.Intact(w.store.files, id, w.store.runs[id])
  }

  /**
   A lease and a committed run of its operation stay, through every publication, cleanup,
   failure and crash, until an acknowledgement takes the lease from a store in which the
   operation is completed.
   */
  lemma {:induction false} LeasedRunStays(run: seq<Event>, i: nat, j: nat, id: RunId, sel: Selection, op: OperationId)
    requires IsRun(run) && i <= j <= |run| && Holds(At(run, i).root, sel, op)
    requires id in At(run, i).store.runs && RunFor(At(run, i).store.runs[id], sel, op)
    ensures Keeps(At(run, j), id, At(run, i).store.runs[id], sel, op) || exists k :: i <= k < j && AcknowledgesAt(run, k, sel, op)
  {
    InvAlways(run, j);
    if i < j {
      LeasedRunStays(run, i, j - 1, id, sel, op);
      var before, e := At(run, j - 1), run[j - 1];
      InvAlways(run, j - 1);
      assert FollowsAt(run, j - 1);
      if Keeps(before, id, At(run, i).store.runs[id], sel, op) {
        LeaseStep(before, e, sel, op);
        RunKept(before, e, id, sel, op);
        assert Holds(e.after.root, sel, op) || AcknowledgesAt(run, j - 1, sel, op);
      }
    }
  }

  lemma {:induction false} LeaseStays(run: seq<Event>, i: nat, j: nat, sel: Selection, op: OperationId)
    requires IsRun(run) && i <= j <= |run| && Holds(At(run, i).root, sel, op)
    ensures Holds(At(run, j).root, sel, op) || exists k :: i <= k < j && AcknowledgesAt(run, k, sel, op)
  {
    if i < j {
      LeaseStays(run, i, j - 1, sel, op);
      InvAlways(run, j - 1);
      assert FollowsAt(run, j - 1);
      LeaseStep(At(run, j - 1), run[j - 1], sel, op);
      assert Holds(At(run, j - 1).root, sel, op) ==> Holds(At(run, j).root, sel, op) || AcknowledgesAt(run, j - 1, sel, op);
    }
  }

  predicate Returns(e: Event, sel: Selection, id: OperationId) {
    e.act.Reserving? && e.act.sel == sel && e.outcome == LeaseRuns.Reserved(Ok(id))
  }

  /** A selection gets a new id only after its old operation was published, completed and acknowledged. */
  lemma NewIdOnlyAfterCompletion(run: seq<Event>, i: nat, j: nat, sel: Selection, first: OperationId, later: OperationId)
    requires IsRun(run) && i < j < |run| && Returns(run[i], sel, first) && Returns(run[j], sel, later)
    ensures first == later || exists k :: i < k < j && AcknowledgesAt(run, k, sel, first)
  {
    assert FollowsAt(run, i) && FollowsAt(run, j);
    assert Holds(At(run, i + 1).root, sel, first);
    LeaseStays(run, i + 1, j, sel, first);
    InvAlways(run, j);
    if Holds(At(run, j).root, sel, first) {
      OneHeld(At(run, j).root, sel, first, later);
    }
  }

  lemma {:induction false} AckedWasCompleted(run: seq<Event>, i: nat, sel: Selection, op: OperationId)
    requires IsRun(run) && i <= |run| && HasAcked(At(run, i).root, sel, op)
    ensures exists k :: 0 <= k < i && AcknowledgesAt(run, k, sel, op)
  {
    var before, e := At(run, i - 1), run[i - 1];
    InvAlways(run, i - 1);
    assert FollowsAt(run, i - 1);
    LeaseStep(before, e, sel, op);
    if HasAcked(before.root, sel, op) {
      AckedWasCompleted(run, i - 1, sel, op);
    } else {
      assert AcknowledgesAt(run, i - 1, sel, op);
    }
  }

  /** An acknowledgement answers true only when, then or earlier, the store had the operation completed. */
  lemma AckSawCompletedRun(run: seq<Event>, i: nat)
    requires IsRun(run) && i < |run| && run[i].act.Acking? && run[i].outcome == LeaseRuns.Acknowledged(Ok(true))
    ensures exists k :: 0 <= k <= i && AcknowledgesAt(run, k, run[i].act.sel, run[i].act.op)
  {
    assert FollowsAt(run, i);
    AckedWasCompleted(run, i + 1, run[i].act.sel, run[i].act.op);
  }
}
