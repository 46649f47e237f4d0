/** Planning, publishing and cleaning up, one file-system step at a time. */
module GraphifyStores {
  import opened Prelude
  import opened GraphifyStoreRules

  // ------------------------------------------------------------------------ planning

  /** The runs newest first, as the store's sort leaves them. */
  ghost predicate IsOrder(s: Store, order: seq<RunId>) {
    && NoDuplicates(order) && (forall id :: id in order <==> id in s.runs)
    && forall i, j :: 0 <= i < j < |order| ==> Newer(s, order[i], order[j])
  }

  predicate SortedUpTo(s: Store, order: seq<RunId>)
    requires forall id :: id in order ==> id in s.runs
  {
    forall i, j :: 0 <= i < j < |order| ==> Newer(s, order[i], order[j])
  }

  method InsertRun(s: Store, order: seq<RunId>, id: RunId) returns (longer: seq<RunId>)
    requires (forall x :: x in order ==> x in s.runs) && id in s.runs && id !in order && SortedUpTo(s, order)
    ensures (forall x :: x in longer <==> x in order || x == id) && SortedUpTo(s, longer)
  {
    var at := 0;
    while at < |order| && Newer(s, order[at], id)
      invariant at <= |order|
      invariant forall i :: 0 <= i < at ==> Newer(s, order[i], id)
    {
      at := at + 1;
    }
    longer := order[..at] + [id] + order[at..];
    forall x ensures x in longer <==> x in order || x == id {
      assert order == order[..at] + order[at..];
    }
  }

  method SortRuns(s: Store) returns (order: seq<RunId>)
    ensures IsOrder(s, order)
  {
    order := [];
    var left := s.runs.Keys;
    while left != {}
      invariant left <= s.runs.Keys
      invariant forall id :: id in order <==> id in s.runs && id !in left
      invariant SortedUpTo(s, order)
      decreases left
    {
      var id :| id in left;
      order := InsertRun(s, order, id);
      left := left - {id};
    }
  }

  /** Split the runs into those retention may not touch and the rest, each in order. */
  method Partition(s: Store, leased: LeaseSet, order: seq<RunId>) returns (pinned: seq<RunId>, finished: seq<RunId>)
    requires IsOrder(s, order)
    ensures forall id :: id in pinned <==> id in PinnedRuns(s, leased)
    ensures forall id :: id in finished <==> id in s.runs && id !in PinnedRuns(s, leased)
    ensures NoDuplicates(pinned) && NoDuplicates(finished) && SortedUpTo(s, finished)
  {
    pinned, finished := [], [];
    for i := 0 to |order|
      invariant forall id :: id in pinned <==> id in order[..i] && Pinned(s.runs[id], leased)
      invariant forall id :: id in finished <==> id in order[..i] && !Pinned(s.runs[id], leased)
      invariant NoDuplicates(pinned) && NoDuplicates(finished)
      invariant SortedUpTo(s, finished)
    {
      if Pinned(s.runs[order[i]], leased) {
        pinned := pinned + [order[i]];
      } else {
        finished := finished + [order[i]];
      }
    }
  }

  lemma {:induction false} CountElements<T>(s: seq<T>)
    requires NoDuplicates(s)
    ensures |Elements(s)| == |s|
  {
    if s == [] {
      assert Elements(s) == {};
    } else {
      CountElements(s[1..]);
      assert s == [s[0]] + s[1..];
      assert s[0] !in s[1..];
      assert Elements(s) == {s[0]} + Elements(s[1..]);
    }
  }

  /** The runs of `finished` that are not kept, in order. */
  method Stale(finished: seq<RunId>, kept: seq<RunId>) returns (stale: seq<RunId>)
    requires NoDuplicates(finished)
    ensures NoDuplicates(stale) && forall id :: id in stale <==> id in finished && id !in kept
  {
    stale := [];
    for i := 0 to |finished|
      invariant NoDuplicates(stale) && forall id :: id in stale <==> id in finished[..i] && id !in kept
    {
      if finished[i] !in kept {
        stale := stale + [finished[i]];
      }
    }
    assert finished[..|finished|] == finished;
  }

  /** A kept run comes before every run that is not, but for a protected one. */
  predicate Prefers(finished: seq<RunId>, kept: seq<RunId>, protect: Option<RunId>) {
    forall i, j :: 0 <= i < |finished| && 0 <= j < |finished| && finished[j] !in kept && finished[i] in kept ==>
      i < j || protect == Some(finished[i])
  }

  /** The newest finished runs for the free slots; a protected one displaces the oldest of them. */
  method Keep(finished: seq<RunId>, slots: nat, protect: Option<RunId>) returns (kept: Option<seq<RunId>>)
    requires NoDuplicates(finished)
    ensures kept.None? <==> protect.Some? && protect.value in finished && slots == 0
    ensures kept.Some? ==>
      && NoDuplicates(kept.value) && |kept.value| == (if |finished| <= slots then |finished| else slots)
      && (forall id :: id in kept.value ==> id in finished)
      && (protect.Some? && protect.value in finished ==> protect.value in kept.value)
      && Prefers(finished, kept.value, protect)
  {
    var first := if |finished| <= slots then finished else finished[..slots];
    if protect.Some? && protect.value in finished && protect.value !in first {
      if slots < 1 { return None; }
      first := [protect.value] + first[..slots - 1];
    }
    kept := Some(first);
  }

  lemma NoDuplicatesTogether<T>(a: seq<T>, b: seq<T>)
    requires NoDuplicates(a) && NoDuplicates(b) && forall x :: x in a ==> x !in b
    ensures NoDuplicates(a + b)
  {
    var c := a + b;
    forall i, j | 0 <= i < j < |c| ensures c[i] != c[j] {
      assert i < |a| <= j ==> a[i] in a && b[j - |a|] in b;
    }
  }

  /** The kept and the stale runs of a split make a good retention. */
  lemma SplitIsGood(s: Store, leased: LeaseSet, retain: int, protect: Option<RunId>,
                    pinned: seq<RunId>, finished: seq<RunId>, kept: seq<RunId>, stale: seq<RunId>)
    requires forall id :: id in pinned <==> id in PinnedRuns(s, leased)
    requires forall id :: id in finished <==> id in s.runs && id !in PinnedRuns(s, leased)
    requires NoDuplicates(pinned) && NoDuplicates(finished) && SortedUpTo(s, finished)
    requires |pinned| <= retain && NoDuplicates(kept) && forall id :: id in kept ==> id in finished
    requires |kept| == (if |finished| <= retain - |pinned| then |finished| else retain - |pinned|)
    requires protect.Some? ==> protect.value in pinned || protect.value in kept
    requires Prefers(finished, kept, protect)
    requires NoDuplicates(stale) && forall id :: id in stale <==> id in finished && id !in kept
    ensures GoodRetention(s, leased, retain, protect, stale, Elements(pinned + kept))
  {
    NoDuplicatesTogether(pinned, kept);
    CountElements(pinned + kept);
    var retained := Elements(pinned + kept);
    assert |retained| == |pinned| + |kept|;
    if stale != [] {
      assert stale[0] in finished && stale[0] !in kept;
      if |kept| == |finished| { AllKept(finished, kept); }
    }
    forall id ensures id in s.runs <==> id in stale || id in Elements(pinned + kept) {
      assert id in PinnedRuns(s, leased) <==> id in pinned;
    }
    forall a, b | a in retained && b in stale ensures Outranks(s, leased, protect, a, b) {
      if a in kept {
        var i, j :| 0 <= i < |finished| && 0 <= j < |finished| && finished[i] == a && finished[j] == b;
        assert i < j || protect == Some(a);
      } else {
        assert a in PinnedRuns(s, leased);
      }
    }
  }

  /** As many kept as there are means all of them are. */
  lemma AllKept<T>(all: seq<T>, kept: seq<T>)
    requires NoDuplicates(all) && NoDuplicates(kept) && |kept| == |all| && forall x :: x in kept ==> x in all
    ensures forall x :: x in all ==> x in kept
  {
    CountElements(all);
    CountElements(kept);
    var a, k := Elements(all), Elements(kept);
    if x :| x in all && x !in kept {
      assert k <= a - {x};
      SubsetCount(k, a - {x});
    }
  }

  /** Which runs to keep and which to drop. */
  method PlanRetention(s: Store, leased: LeaseSet, retain: int, protect: Option<RunId>)
    returns (r: Result<(seq<RunId>, set<RunId>)>)
    requires StoreOk(s) && 0 <= retain <= 100
    ensures r.Fail? <==> NoPlan(s, leased, retain, protect)
    ensures r.Fail? ==> r.error != CommittedInvalid
    ensures r.Ok? ==> GoodRetention(s, leased, retain, protect, r.value.0, r.value.1)
  {
    var order := SortRuns(s);
    var pinned, finished := Partition(s, leased, order);
    CountElements(pinned);
    assert Elements(pinned) == PinnedRuns(s, leased);
    if |pinned| > retain { return Fail(TooManyPinned); }
    if protect.Some? && protect.value !in finished && protect.value !in pinned { return Fail(Unavailable); }
    var kept := Keep(finished, retain - |pinned|, protect);
    if kept.None? { return Fail(NoSlot); }
    var stale := Stale(finished, kept.value);
    SplitIsGood(s, leased, retain, protect, pinned, finished, kept.value, stale);
    r := Ok((stale, Elements(pinned + kept.value)));
  }

  /** The artifact names the committed runs refer to. */
  method ReferencedArtifacts(s: Store) returns (names: set<Artifact>)
    ensures forall a :: a in names <==> Referenced(s, a)
  {
    names := {};
    var left := s.runs.Keys;
    while left != {}
      invariant left <= s.runs.Keys
      invariant forall a :: a in names <==> exists id :: id in s.runs && id !in left && Names(s.runs[id], id, a)
      decreases left
    {
      var id :| id in left;
      left := left - {id};
      names := names + {ArtifactOf(id, s.runs[id], Html), ArtifactOf(id, s.runs[id], Markdown)};
    }
  }

  /** List leftovers of both roots until the budget is spent. */
  method PlanCleanup(s: Store) returns (leftovers: seq<File>, pending: seq<Entry>)
    ensures GoodCleanup(s, leftovers, pending)
  {
    var names := ReferencedArtifacts(s);
    var budget := MAX_RECOVERY_CLEANUP_ENTRIES;
    leftovers, pending := [], [];
    var files := s.files.Keys;
    while files != {}
      invariant files <= s.files.Keys
      invariant NoDuplicates(leftovers) && budget == MAX_RECOVERY_CLEANUP_ENTRIES - |leftovers|
      invariant forall f :: f in leftovers ==> f in s.files && Leftover(s, f) && f !in files
      invariant budget > 0 ==> forall f :: f in s.files && f !in files && Leftover(s, f) ==> f in leftovers
      decreases files
    {
      var f :| f in files;
      files := files - {f};
      if (f.Temp? || (f.Final? && f.artifact !in names)) && budget > 0 {
        leftovers := leftovers + [f];
        budget := budget - 1;
      }
    }
    var entries := s.entries;
    while entries != {}
      invariant entries <= s.entries
      invariant NoDuplicates(pending) && budget == MAX_RECOVERY_CLEANUP_ENTRIES - |leftovers| - |pending|
      invariant forall e :: e in pending ==> e in s.entries && LeftoverEntry(e) && e !in entries
      invariant budget > 0 ==> forall f :: f in s.files && Leftover(s, f) ==> f in leftovers
      invariant budget > 0 ==> forall e :: e in s.entries && e !in entries && LeftoverEntry(e) ==> e in pending
      decreases entries
    {
      var e :| e in entries;
      entries := entries - {e};
      if (e.PendingRun? || e.LeaseDraft?) && budget > 0 {
        pending := pending + [e];
        budget := budget - 1;
      }
    }
  }

  /** Check every committed run's pair, then plan retention and cleanup. */
  method Inspect(s: Store, leased: LeaseSet, retain: int, protect: Option<RunId>) returns (r: Result<Plan>)
    ensures r.Fail? <==> NoPlan(s, leased, retain, protect)
    ensures r.Fail? ==> r.error != CommittedInvalid
    ensures r.Ok? ==> GoodPlan(s, leased, retain, protect, r.value)
  {
    if retain < 0 || retain > 100 { return Fail(BadRetention); }
    var left := s.runs.Keys;
    while left != {}
      invariant left <= s.runs.Keys
      invariant forall id :: id in s.runs && id !in left ==> Intact(s.files, id, s.runs[id])
      decreases left
    {
      var id :| id in left;
      left := left - {id};
      if !Intact(s.files, id, s.runs[id]) { return Fail(Damaged); }
    }
    var retention := PlanRetention(s, leased, retain, protect);
    if retention.Fail? { return Fail(retention.error); }
    var leftovers, pending := PlanCleanup(s);
    r := Ok(Plan(retention.value.0, retention.value.1, leftovers, pending));
  }
}
