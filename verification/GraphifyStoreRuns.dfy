/** Whole runs of the publication store, with crashes at any step. */
module GraphifyStoreRuns {
  import opened Prelude
  import opened GraphifyStoreRules
  import Leases = GraphifyLeaseRules

  datatype Act =
    | Publishing(id: RunId, record: Record, leased: LeaseSet, retain: int)
    | Preparing(leased: LeaseSet, retain: int)
    | Completing(id: RunId)

  /**
   A publication, a cleanup or a projection completion, which returns, throws, or dies after
   any of its steps, and the store it left. What one call may leave behind is what the
   methods of `GraphifyPublish` are proved to. `done` is whether it answered that everything
   was carried out.
   */
  datatype Event = Event(act: Act, after: Store, done: bool)

  /** The projection of a run is marked complete; nothing else about it changes. */
  function Completed(r: Record): Record {
    if r.projection.Some? then r.(projection := Some(r.projection.value.(pending := false))) else r
  }

  /** The run as it was, but for its projection, which may have been completed. */
  predicate Grown(a: Record, b: Record) {
    b == a || b == Completed(a)
  }

  ghost predicate Follows(before: Store, e: Event) {
    match e.act
    case Publishing(id, r, leased, retain) =>
      PublishVisits(before, leased, retain, id, r, e.after) && (e.done ==> Published(before, leased, retain, id, r, e.after))
    case Preparing(leased, retain) =>
      (e.after == before || Cleaning(before, leased, retain, None, e.after)) && (e.done ==> Cleaned(before, leased, retain, None, e.after))
    case Completing(id) =>
      e.after == before || (id in before.runs && e.after == before.(runs := before.runs[id := Completed(before.runs[id])]))
  }

  function At(start: Store, run: seq<Event>, i: nat): Store
    requires i <= |run|
  {
    if i == 0 then start else run[i - 1].after
  }

  ghost predicate FollowsAt(start: Store, run: seq<Event>, i: nat)
    requires i < |run|
  {
    Follows(At(start, run, i), run[i])
  }

  ghost predicate IsRun(start: Store, run: seq<Event>) {
    forall i: nat :: i < |run| ==> FollowsAt(start, run, i)
  }

  lemma StepKeepsPairs(before: Store, e: Event)
    requires StoreOk(before) && Follows(before, e)
    ensures StoreOk(e.after)
  {
    if e.act.Completing? && e.after != before {
      forall id | id in e.after.runs ensures Intact(e.after.files, id, e.after.runs[id]) {
        assert Intact(before.files, id, before.runs[id]);
      }
    }
  }

  /** In every state a crash can leave, each committed run has exactly its own artifact pair. */
  lemma {:induction false} PairsAlwaysIntact(start: Store, run: seq<Event>, i: nat)
    requires StoreOk(start) && IsRun(start, run) && i <= |run|
    ensures StoreOk(At(start, run, i))
  {
    if i > 0 {
      PairsAlwaysIntact(start, run, i - 1);
      assert FollowsAt(start, run, i - 1);
      StepKeepsPairs(At(start, run, i - 1), run[i - 1]);
    }
  }

  /** The leases an act sees, if it may drop runs at all. */
  predicate SeesPinned(e: Event, r: Record) {
    match e.act
    case Publishing(_, _, leased, _) => Pinned(r, leased)
    case Preparing(leased, _) => Pinned(r, leased)
    case Completing(_) => true
  }

  lemma PinnedKept(before: Store, e: Event, id: RunId)
    requires Follows(before, e) && id in before.runs && SeesPinned(e, before.runs[id])
    ensures id in e.after.runs
    ensures Grown(before.runs[id], e.after.runs[id])
  {
  }

  /** Pinned whenever a plan is made: by a pending projection or by a lease not yet acknowledged. */
  predicate PinnedThroughout(start: Store, run: seq<Event>, i: nat, j: nat, id: RunId)
    requires i <= j <= |run|
  {
    forall k: nat :: i <= k < j && id in At(start, run, k).runs ==> SeesPinned(run[k], At(start, run, k).runs[id])
  }

  /** A run is never lost while its projection is pending or its operation unacknowledged. */
  lemma {:induction false} PinnedRunStays(start: Store, run: seq<Event>, i: nat, j: nat, id: RunId)
    requires StoreOk(start) && IsRun(start, run) && i <= j <= |run|
    requires id in At(start, run, i).runs && PinnedThroughout(start, run, i, j, id)
    ensures id in At(start, run, j).runs && Grown(At(start, run, i).runs[id], At(start, run, j).runs[id])
    ensures Intact(At(start, run, j).files, id, At(start, run, j).runs[id])
  {
    PairsAlwaysIntact(start, run, j);
    if i < j {
      PinnedRunStays(start, run, i, j - 1, id);
      assert FollowsAt(start, run, j - 1);
      assert SeesPinned(run[j - 1], At(start, run, j - 1).runs[id]);
      PinnedKept(At(start, run, j - 1), run[j - 1], id);
    }
  }

  /** Files and directories the store did not generate are never touched. */
  lemma {:induction false} ForeignAlwaysKept(start: Store, run: seq<Event>, i: nat)
    requires IsRun(start, run) && i <= |run|
    ensures ForeignKept(start, At(start, run, i))
  {
    if i > 0 {
      ForeignAlwaysKept(start, run, i - 1);
      assert FollowsAt(start, run, i - 1);
      var before, e := At(start, run, i - 1), run[i - 1];
      assert ForeignKept(before, e.after) by { ForeignStep(before, e); }
      ForeignKeptTrans(start, before, e.after);
    }
  }

  lemma ForeignStep(before: Store, e: Event)
    requires Follows(before, e)
    ensures ForeignKept(before, e.after)
  {
    if e.act.Publishing? && AfterCommit(before, e.act.leased, e.act.retain, e.act.id, e.act.record, e.after) {
      var committed :| Committed(before, e.act.id, e.act.record, committed)
        && (e.after == committed || Cleaning(committed, e.act.leased, e.act.retain, Some(e.act.id), e.after));
      if e.after != committed {
        ForeignKeptTrans(before, committed, e.after);
      }
    }
  }

  lemma DroppedByPlan(before: Store, leased: LeaseSet, retain: int, protect: Option<RunId>, after: Store, id: RunId)
    requires Cleaning(before, leased, retain, protect, after) && id in before.runs && id !in after.runs
    ensures |after.runs.Keys| >= retain
  {
    var plan :| GoodPlan(before, leased, retain, protect, plan) && CleanupVisits(before, plan, after);
    assert id in plan.stale;
    assert plan.retained <= after.runs.Keys;
    SubsetCount(plan.retained, after.runs.Keys);
  }

  /** A run only ever disappears when as many runs as are to be retained outlive it. */
  lemma DroppedOnlyWhenFull(before: Store, e: Event, id: RunId)
    requires Follows(before, e) && id in before.runs && id !in e.after.runs
    ensures !e.act.Completing?
    ensures |e.after.runs.Keys| >= e.act.retain
  {
    match e.act
    case Completing(_) =>
    case Preparing(leased, retain) => DroppedByPlan(before, leased, retain, None, e.after, id);
    case Publishing(fresh_, r, leased, retain) =>
      var committed :| Committed(before, fresh_, r, committed)
        && (e.after == committed || Cleaning(committed, leased, retain, Some(fresh_), e.after));
      DroppedByPlan(committed, leased, retain, Some(fresh_), e.after, id);
  }

  // --------------------------------------------------- when everything was carried out

  /** The plan is carried out: as many runs as are to be retained at most, the protected one among them. */
  lemma CleanedKeeps(before: Store, leased: LeaseSet, retain: int, protect: Option<RunId>, after: Store)
    requires Cleaned(before, leased, retain, protect, after)
    ensures |after.runs| <= retain && (protect.Some? ==> protect.value in after.runs)
  {
    var plan :| GoodPlan(before, leased, retain, protect, plan) && Applied(before, plan, after);
    RetainedIsLeft(before.runs, plan.stale, plan.retained);
  }

  /** A publication or a cleanup that says it is done leaves no more runs than are to be retained, and the new one is there. */
  lemma DoneMeansRetained(before: Store, e: Event)
    requires Follows(before, e) && e.done && !e.act.Completing?
    ensures |e.after.runs| <= e.act.retain
    ensures e.act.Publishing? ==> e.act.id in e.after.runs
  {
    match e.act
    case Preparing(leased, retain) => CleanedKeeps(before, leased, retain, None, e.after);
    case Publishing(id, r, leased, retain) =>
      var committed :| Committed(before, id, r, committed) && Cleaned(committed, leased, retain, Some(id), e.after);
      CleanedKeeps(committed, leased, retain, Some(id), e.after);
  }

  /** Nothing keeps the run but its age: no pending projection, no lease, no protection. */
  predicate Finished(r: Record, leased: LeaseSet) {
    r.projection.None?
    || (!r.projection.value.pending
        && (Leases.Selection(r.target, r.folder, r.projection.value.accountId), r.projection.value.operationId) !in leased)
  }

  predicate BuiltLater(s: Store, a: RunId, b: RunId)
    requires a in s.runs && b in s.runs
  {
    s.runs[a].built > s.runs[b].built || (s.runs[a].built == s.runs[b].built && a > b)
  }

  /** Of the runs that only their age keeps, a plan keeps those built last. */
  lemma NewestAreKept(s: Store, leased: LeaseSet, retain: int, protect: Option<RunId>, plan: Plan, kept: RunId, dropped: RunId)
    requires GoodPlan(s, leased, retain, protect, plan) && kept in plan.retained && dropped in plan.stale
    requires kept in s.runs && Finished(s.runs[kept], leased) && protect != Some(kept)
    ensures dropped in s.runs && Finished(s.runs[dropped], leased) && BuiltLater(s, kept, dropped)
  {
    assert Outranks(s, leased, protect, kept, dropped);
  }

  /** A run is only dropped for its age, and only when it has to be. */
  lemma OnlyFinishedDropped(s: Store, leased: LeaseSet, retain: int, protect: Option<RunId>, plan: Plan, dropped: RunId)
    requires GoodPlan(s, leased, retain, protect, plan) && dropped in plan.stale
    ensures dropped in s.runs && Finished(s.runs[dropped], leased) && protect != Some(dropped) && |plan.retained| == retain
  {
  }

  /** A file that the store generated for a run it still has, or one of somebody else. */
  predicate Accounted(s: Store, f: File) {
    f.Foreign?
    || (f.Final? && f.artifact.run in s.runs && f.artifact.slugs == s.runs[f.artifact.run].slugs)
  }

  /** Unless more was left over than one cleanup may clear, nothing is left over after it. */
  lemma CleanedIsTidy(before: Store, leased: LeaseSet, retain: int, protect: Option<RunId>, plan: Plan, after: Store)
    requires GoodPlan(before, leased, retain, protect, plan) && Applied(before, plan, after)
    requires |plan.leftovers| + |plan.pending| < 32
    ensures forall f :: f in after.files ==> Accounted(after, f)
    ensures forall e :: e in after.entries ==> e.OtherEntry?
  {
    forall f | f in after.files ensures Accounted(after, f) {
      assert !Leftover(before, f);
      if f.Final? {
        var id :| id in before.runs && Names(before.runs[id], id, f.artifact);
        if id in plan.stale {
          PairListed(before, plan.stale, id);
        }
      }
    }
  }

  lemma {:induction false} PairListed(s: Store, ids: seq<RunId>, id: RunId)
    requires id in ids && forall x :: x in ids ==> x in s.runs
    ensures Final(ArtifactOf(id, s.runs[id], Html)) in PairsOf(s, ids) && Final(ArtifactOf(id, s.runs[id], Markdown)) in PairsOf(s, ids)
  {
    if ids[|ids| - 1] != id {
      PairListed(s, ids[..|ids| - 1], id);
    }
  }

  /** The pair of a committed run, by name and content. */
  predicate HasPair(s: Store, id: RunId) {
    && id in s.runs
    && Final(Artifact(s.runs[id].slugs, id, Html)) in s.files
    && s.files[Final(Artifact(s.runs[id].slugs, id, Html))] == Text(s.runs[id].html)
    && Final(Artifact(s.runs[id].slugs, id, Markdown)) in s.files
    && s.files[Final(Artifact(s.runs[id].slugs, id, Markdown))] == Text(s.runs[id].markdown)
  }

  /** In every state a crash can leave, the page and the report of each committed run are there as they were written. */
  lemma EveryRunHasItsPair(start: Store, run: seq<Event>, i: nat, id: RunId)
    requires StoreOk(start) && IsRun(start, run) && i <= |run| && id in At(start, run, i).runs
    ensures HasPair(At(start, run, i), id)
  {
    PairsAlwaysIntact(start, run, i);
    assert Intact(At(start, run, i).files, id, At(start, run, i).runs[id]);
  }

  predicate Pending(s: Store, id: RunId) {
    id in s.runs && s.runs[id].projection.Some? && s.runs[id].projection.value.pending
  }

  /** A run whose projection is pending stays, pending, until its completion is recorded. */
  lemma {:induction false} PendingRunStays(start: Store, run: seq<Event>, i: nat, j: nat, id: RunId)
    requires StoreOk(start) && IsRun(start, run) && i <= j <= |run| && Pending(At(start, run, i), id)
    requires forall k :: i <= k < j ==> run[k].act != Completing(id)
    ensures Pending(At(start, run, j), id) && At(start, run, j).runs[id] == At(start, run, i).runs[id]
  {
    if i < j {
      PendingRunStays(start, run, i, j - 1, id);
      assert FollowsAt(start, run, j - 1);
      PendingKept(At(start, run, j - 1), run[j - 1], id);
    }
  }

  lemma PendingKept(before: Store, e: Event, id: RunId)
    requires Follows(before, e) && Pending(before, id) && e.act != Completing(id)
    ensures id in e.after.runs && e.after.runs[id] == before.runs[id]
  {
  }
}
