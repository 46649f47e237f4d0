/**
 The publication store as values: committed runs under the private root, their artifact
 pairs under the public root, and what a retention plan has to be.
 */
module GraphifyStoreRules {
  import opened Prelude
  import Leases = GraphifyLeaseRules

  /** A run id is the number its 32 hexadecimal digits spell. */
  type RunId = nat

  datatype Kind = Html | Markdown

  /** A generated artifact is named after the slugs of its labels and its run. */
  datatype Artifact = Artifact(slugs: string, run: RunId, kind: Kind)

  datatype File = Final(artifact: Artifact) | Temp(artifact: Artifact, nonce: string) | Foreign(name: string)

  datatype Content = Torn | Text(text: string)

  datatype Record = Record(
    slugs: string, built: int, target: string, folder: string,
    projection: Option<Leases.Projection>, html: string, markdown: string)

  /** Entries of the private root other than committed runs. */
  datatype Entry = PendingRun(run: RunId, nonce: string) | LeaseDraft(draft: Leases.Name) | OtherEntry(name: string)

  datatype Store = Store(runs: map<RunId, Record>, files: map<File, Content>, entries: set<Entry>)

  type LeaseSet = set<(Leases.Selection, Leases.OperationId)>

  const MAX_RECOVERY_CLEANUP_ENTRIES: nat := 32

  function ArtifactOf(id: RunId, r: Record, kind: Kind): Artifact {
    Artifact(r.slugs, id, kind)
  }

  function TextOf(r: Record, kind: Kind): string {
    if kind.Html? then r.html else r.markdown
  }

  predicate HasArtifact(files: map<File, Content>, id: RunId, r: Record, kind: Kind) {
    Final(ArtifactOf(id, r, kind)) in files && files[Final(ArtifactOf(id, r, kind))] == Text(TextOf(r, kind))
  }

  predicate Intact(files: map<File, Content>, id: RunId, r: Record) {
    HasArtifact(files, id, r, Html) && HasArtifact(files, id, r, Markdown)
  }

  /** Every committed run has exactly the artifact pair it was committed with. */
  predicate StoreOk(s: Store) {
    forall id :: id in s.runs ==> Intact(s.files, id, s.runs[id])
  }

  predicate LeasePinned(r: Record, leased: LeaseSet) {
    r.projection.Some?
    && (Leases.Selection(r.target, r.folder, r.projection.value.accountId), r.projection.value.operationId) in leased
  }

  /** A run that retention may not touch: its projection is pending or its operation unacknowledged. */
  predicate Pinned(r: Record, leased: LeaseSet) {
    (r.projection.Some? && r.projection.value.pending) || LeasePinned(r, leased)
  }

  function PinnedRuns(s: Store, leased: LeaseSet): set<RunId> {
    set id | id in s.runs && Pinned(s.runs[id], leased)
  }

  /** Newest first; runs of the same time by descending id. */
  predicate Newer(s: Store, a: RunId, b: RunId)
    requires a in s.runs && b in s.runs
  {
    s.runs[a].built > s.runs[b].built || (s.runs[a].built == s.runs[b].built && a > b)
  }

  // ------------------------------------------------------------------- retention plan

  predicate Names(r: Record, id: RunId, a: Artifact) {
    a == ArtifactOf(id, r, Html) || a == ArtifactOf(id, r, Markdown)
  }

  predicate Referenced(s: Store, a: Artifact) {
    exists id :: id in s.runs && Names(s.runs[id], id, a)
  }

  /** Left over by an interrupted publication: an unreferenced artifact or a temporary file. */
  predicate Leftover(s: Store, f: File) {
    match f
    case Final(a) => !Referenced(s, a)
    case Temp(_, _) => true
    case Foreign(_) => false
  }

  predicate LeftoverEntry(e: Entry) {
    e.PendingRun? || e.LeaseDraft?
  }

  datatype Plan = Plan(stale: seq<RunId>, retained: set<RunId>, leftovers: seq<File>, pending: seq<Entry>)

  predicate NoDuplicates<T(==)>(s: seq<T>) {
    forall i, j :: 0 <= i < j < |s| ==> s[i] != s[j]
  }

  /** A kept run is pinned, protected, or newer than every dropped one. */
  predicate Outranks(s: Store, leased: LeaseSet, protect: Option<RunId>, a: RunId, b: RunId) {
    a in s.runs && b in s.runs && (Pinned(s.runs[a], leased) || protect == Some(a) || Newer(s, a, b))
  }

  lemma {:induction false} SubsetCount<T>(a: set<T>, b: set<T>)
    requires a <= b
    ensures |a| <= |b|
  {
    if a != {} {
      var x :| x in a;
      SubsetCount(a - {x}, b - {x});
    }
  }

  /** Which runs a plan keeps and drops. */
  ghost predicate GoodRetention(s: Store, leased: LeaseSet, retain: int, protect: Option<RunId>,
                                stale: seq<RunId>, retained: set<RunId>)
  {
    && NoDuplicates(stale)
    && (forall id :: id in s.runs <==> id in stale || id in retained)
    && (forall id :: id in stale ==> id !in retained && !Pinned(s.runs[id], leased))
    && |retained| <= retain
    && (protect.Some? ==> protect.value in retained)
    && (stale != [] ==> |retained| == retain)
    && (forall a, b :: a in retained && b in stale ==> Outranks(s, leased, protect, a, b))
  }

  /** Which leftovers a plan clears: at most the budget, and all of them unless the budget ran out. */
  ghost predicate GoodCleanup(s: Store, leftovers: seq<File>, pending: seq<Entry>) {
    && (forall f :: f in leftovers ==> f in s.files && Leftover(s, f))
    && (forall e :: e in pending ==> e in s.entries && LeftoverEntry(e))
    && NoDuplicates(leftovers) && NoDuplicates(pending)
    && |leftovers| + |pending| <= MAX_RECOVERY_CLEANUP_ENTRIES
    && (|leftovers| + |pending| < MAX_RECOVERY_CLEANUP_ENTRIES ==>
          && (forall f :: f in s.files && Leftover(s, f) ==> f in leftovers)
          && (forall e :: e in s.entries && LeftoverEntry(e) ==> e in pending))
  }

  ghost predicate GoodPlan(s: Store, leased: LeaseSet, retain: int, protect: Option<RunId>, plan: Plan) {
    && GoodRetention(s, leased, retain, protect, plan.stale, plan.retained)
    && GoodCleanup(s, plan.leftovers, plan.pending)
  }

  datatype Error = BadRetention | Damaged | TooManyPinned | Unavailable | NoSlot | Exists | Io | CommittedInvalid

  /** Exactly when there is no plan. */
  predicate NoPlan(s: Store, leased: LeaseSet, retain: int, protect: Option<RunId>) {
    || !(0 <= retain <= 100)
    || !StoreOk(s)
    || |PinnedRuns(s, leased)| > retain
    || (protect.Some? && protect.value !in s.runs)
    || (protect.Some? && protect.value !in PinnedRuns(s, leased) && |PinnedRuns(s, leased)| == retain)
  }

  datatype Result<+T> = Ok(value: T) | Fail(error: Error)

  /** A commit adds one run with its artifact pair already in place. */
  function WithRun(s: Store, id: RunId, r: Record): Store {
    s.(runs := s.runs[id := r])
  }

  lemma PinnedAfterCommit(before: Store, s: Store, leased: LeaseSet, id: RunId, r: Record)
    requires s.runs == before.runs && id !in s.runs
    ensures var now := PinnedRuns(WithRun(s, id, r), leased);
      if Pinned(r, leased) then now == PinnedRuns(before, leased) + {id} else now == PinnedRuns(before, leased)
  {
  }

  /**
   The check before publishing asks for a plan with one slot fewer. That alone makes
   sure that, once the new run is committed, the plan that protects it exists.
   */
  lemma SlotIsReserved(before: Store, s: Store, leased: LeaseSet, retain: int, id: RunId, r: Record)
    requires !NoPlan(before, leased, retain - 1, None) && retain <= 100
    requires s.runs == before.runs && id !in s.runs && StoreOk(WithRun(s, id, r))
    ensures !NoPlan(WithRun(s, id, r), leased, retain, Some(id))
  {
    PinnedAfterCommit(before, s, leased, id, r);
  }

  // ------------------------------------------------------------ what a call may do

  /** Files that are not generated are never touched. */
  ghost predicate ForeignKept(a: Store, b: Store) {
    && (forall name :: Foreign(name) in a.files ==> Foreign(name) in b.files && b.files[Foreign(name)] == a.files[Foreign(name)])
    && (forall e :: e in a.entries && e.OtherEntry? ==> e in b.entries)
  }

  /** Applying a plan removes only what it lists, and never leaves a committed run without its pair. */
  ghost predicate CleanupVisits(before: Store, plan: Plan, s: Store) {
    && StoreOk(s) && ForeignKept(before, s)
    && (forall id :: id in s.runs ==> id in before.runs && s.runs[id] == before.runs[id])
    && (forall id :: id in before.runs && id !in s.runs ==> id in plan.stale)
  }

  function Elements<T(==)>(s: seq<T>): set<T> {
    set x | x in s
  }

  lemma OneMoreElement<T>(s: seq<T>, i: nat)
    requires i < |s|
    ensures Elements(s[..i + 1]) == Elements(s[..i]) + {s[i]}
  {
    assert s[..i + 1] == s[..i] + [s[i]];
  }

  /** The artifact pairs of the listed runs. */
  function PairsOf(s: Store, ids: seq<RunId>): set<File>
    requires forall id :: id in ids ==> id in s.runs
  {
    if ids == [] then {}
    else
      var id := ids[|ids| - 1];
      PairsOf(s, ids[..|ids| - 1])
      + {Final(ArtifactOf(id, s.runs[id], Html)), Final(ArtifactOf(id, s.runs[id], Markdown))}
  }

  lemma OneMorePair(s: Store, ids: seq<RunId>, i: nat)
    requires i < |ids| && forall id :: id in ids ==> id in s.runs
    ensures PairsOf(s, ids[..i + 1]) == PairsOf(s, ids[..i])
      + {Final(ArtifactOf(ids[i], s.runs[ids[i]], Html)), Final(ArtifactOf(ids[i], s.runs[ids[i]], Markdown))}
  {
    assert ids[..i + 1][..i] == ids[..i];
  }

  lemma NotYet<T>(s: seq<T>, i: nat)
    requires i < |s| && NoDuplicates(s)
    ensures s[i] !in Elements(s[..i])
  {
  }

  /** The plan has been carried out to its end: what it lists is gone, and nothing else. */
  ghost predicate Applied(before: Store, plan: Plan, s: Store) {
    && (forall id :: id in plan.stale ==> id in before.runs)
    && s.runs == before.runs - Elements(plan.stale)
    && s.files == before.files - PairsOf(before, plan.stale) - Elements(plan.leftovers)
    && s.entries == before.entries - Elements(plan.pending)
  }

  /** What is left of the runs when a plan has been carried out is what it retains. */
  lemma RetainedIsLeft(runs: map<RunId, Record>, stale: seq<RunId>, retained: set<RunId>)
    requires forall id :: id in runs <==> id in stale || id in retained
    requires forall id :: id in stale ==> id !in retained
    ensures (runs - Elements(stale)).Keys == retained && |runs - Elements(stale)| == |retained|
  {
    assert |runs - Elements(stale)| == |(runs - Elements(stale)).Keys|;
  }

  /** The next stale run and its pair go from what the earlier ones left. */
  lemma NextGone(before: Store, stale: seq<RunId>, i: nat)
    requires i < |stale| && NoDuplicates(stale) && forall id :: id in stale ==> id in before.runs
    ensures stale[i] in before.runs - Elements(stale[..i])
    ensures before.runs - Elements(stale[..i + 1]) == before.runs - Elements(stale[..i]) - {stale[i]}
    ensures before.files - PairsOf(before, stale[..i + 1]) == before.files - PairsOf(before, stale[..i])
      - {Final(ArtifactOf(stale[i], before.runs[stale[i]], Html)), Final(ArtifactOf(stale[i], before.runs[stale[i]], Markdown))}
  {
    NotYet(stale, i);
    OneMoreElement(stale, i);
    OneMorePair(before, stale, i);
  }

  /** A cleanup that was carried out to its end. */
  ghost predicate Cleaned(before: Store, leased: LeaseSet, retain: int, protect: Option<RunId>, s: Store) {
    exists plan :: GoodPlan(before, leased, retain, protect, plan) && Applied(before, plan, s)
  }

  /** A publication whose cleanup was carried out to its end. */
  ghost predicate Published(before: Store, leased: LeaseSet, retain: int, id: RunId, r: Record, s: Store) {
    exists committed :: Committed(before, id, r, committed) && Cleaned(committed, leased, retain, Some(id), s)
  }

  /** The store right after the commit of a publication. */
  ghost predicate Committed(before: Store, id: RunId, r: Record, s: Store) {
    StoreOk(s) && ForeignKept(before, s) && id !in before.runs && s.runs == before.runs[id := r]
  }

  ghost predicate Cleaning(committed: Store, leased: LeaseSet, retain: int, protect: Option<RunId>, s: Store) {
    exists plan :: GoodPlan(committed, leased, retain, protect, plan) && CleanupVisits(committed, plan, s)
  }

  ghost predicate AfterCommit(before: Store, leased: LeaseSet, retain: int, id: RunId, r: Record, s: Store) {
    exists committed :: Committed(before, id, r, committed) && (s == committed || Cleaning(committed, leased, retain, Some(id), s))
  }

  /** Before its commit a publication has changed nothing but its own files. */
  ghost predicate Staging(before: Store, s: Store) {
    StoreOk(before) && StoreOk(s) && ForeignKept(before, s) && s.runs == before.runs
  }

  /**
   Any state a publication may leave behind: before its commit every earlier run is
   still there; after it, only what a plan that protects the new run marks stale is gone.
   */
  ghost predicate PublishVisits(before: Store, leased: LeaseSet, retain: int, id: RunId, r: Record, s: Store) {
    s == before || Staging(before, s) || AfterCommit(before, leased, retain, id, r, s)
  }

  /** A publication either fails with every earlier run in place, or commits; it never commits and then fails. */
  ghost predicate PublishReturns(before: Store, leased: LeaseSet, retain: int, id: RunId, r: Record, s: Store, result: Result<bool>) {
    match result
    case Ok(_) => AfterCommit(before, leased, retain, id, r, s) && !NoPlan(before, leased, retain - 1, None)
    case Fail(e) => (s == before || Staging(before, s)) && e != CommittedInvalid
  }

  lemma WithoutFile(s: Store, f: File)
    requires StoreOk(s) && !f.Foreign?
    requires f.Final? ==> !Referenced(s, f.artifact)
    ensures var s' := s.(files := s.files - {f});
      StoreOk(s') && ForeignKept(s, s')
  {
    forall id | id in s.runs ensures Intact(s.files - {f}, id, s.runs[id]) {
      assert Names(s.runs[id], id, ArtifactOf(id, s.runs[id], Html));
      assert Names(s.runs[id], id, ArtifactOf(id, s.runs[id], Markdown));
    }
  }

  lemma WithFile(s: Store, f: File, c: Content)
    requires StoreOk(s) && !f.Foreign?
    requires f.Final? ==> !Referenced(s, f.artifact)
    ensures var s' := s.(files := s.files[f := c]);
      StoreOk(s') && ForeignKept(s, s')
  {
    forall id | id in s.runs ensures Intact(s.files[f := c], id, s.runs[id]) {
      assert Names(s.runs[id], id, ArtifactOf(id, s.runs[id], Html));
      assert Names(s.runs[id], id, ArtifactOf(id, s.runs[id], Markdown));
    }
  }

  lemma ForeignKeptTrans(a: Store, b: Store, c: Store)
    requires ForeignKept(a, b) && ForeignKept(b, c)
    ensures ForeignKept(a, c)
  {
  }
}
