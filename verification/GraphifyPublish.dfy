/** Publishing a run and applying a retention plan, one file-system step at a time. */
module GraphifyPublish {
  import opened Prelude
  import opened GraphifyStoreRules
  import opened GraphifyStores

  ghost predicate Extends(before: seq<Store>, after: seq<Store>) {
    |before| <= |after| && forall i :: 0 <= i < |before| ==> after[i] == before[i]
  }

  /** Everything left since `h` is a state of carrying out the plan. */
  ghost predicate Cleans(before: Store, plan: Plan, h: seq<Store>, h': seq<Store>) {
    Extends(h, h') && forall i :: |h| <= i < |h'| ==> CleanupVisits(before, plan, h'[i])
  }

  /** One of the publication's destinations is there already. */
  predicate Taken(s: Store, id: RunId, nonce: string, r: Record) {
    PendingRun(id, nonce) in s.entries || id in s.runs
    || Final(ArtifactOf(id, r, Html)) in s.files || Final(ArtifactOf(id, r, Markdown)) in s.files
  }

  /**
   The two roots. Every step takes its whole effect or throws with none, as `faults`
   decide; the history lists the states between steps, one of which a crash leaves.
   */
  class Publisher {
    var runs: map<RunId, Record>
    var files: map<File, Content>
    var entries: set<Entry>
    var calls: nat
    ghost var history: seq<Store>
    const faults: nat -> bool

    constructor (faults: nat -> bool)
      ensures View() == Store(map[], map[], {}) && history == [] && this.faults == faults
    {
      runs, files, entries, calls, history := map[], map[], {}, 0, [];
      this.faults := faults;
    }

    function View(): Store
      reads this
    {
      Store(runs, files, entries)
    }

    /** No step fails from now on. */
    ghost predicate Smooth()
      reads this`calls
    {
      forall n :: n >= calls ==> !faults(n)
    }

    method Attempt() returns (ok: bool)
      modifies this`calls
      ensures calls >= old(calls) && (old(Smooth()) ==> ok)
    {
      ok := !faults(calls);
      calls := calls + 1;
    }

    method Write(f: File, c: Content) returns (ok: bool)
      modifies this`calls, this`files, this`history
      ensures calls >= old(calls) && (old(Smooth()) ==> ok)
      ensures if ok then files == old(files)[f := c] && history == old(history) + [View()]
              else files == old(files) && history == old(history)
    {
      ok := Attempt();
      if ok {
        files := files[f := c];
        history := history + [View()];
      }
    }

    method Move(from: File, to: File) returns (ok: bool)
      requires from in files && from != to
      modifies this`calls, this`files, this`history
      ensures calls >= old(calls) && (old(Smooth()) ==> ok)
      ensures if ok then files == old(files)[to := old(files)[from]] - {from} && history == old(history) + [View()]
              else files == old(files) && history == old(history)
    {
      ok := Attempt();
      if ok {
        files := files[to := files[from]] - {from};
        history := history + [View()];
      }
    }

    /** Removing a file that is not there is no step at all. */
    method Unlink(f: File) returns (ok: bool)
      modifies this`calls, this`files, this`history
      ensures calls >= old(calls) && (old(Smooth()) ==> ok)
      ensures if ok then files == old(files) - {f} else files == old(files)
      ensures if ok && f in old(files) then history == old(history) + [View()] else history == old(history)
    {
      if f !in files {
        assert files - {f} == files;
        return true;
      }
      ok := Attempt();
      if ok {
        files := files - {f};
        history := history + [View()];
      }
    }

    method Enter(e: Entry) returns (ok: bool)
      modifies this`calls, this`entries, this`history
      ensures calls >= old(calls) && (old(Smooth()) ==> ok)
      ensures if ok then entries == old(entries) + {e} && history == old(history) + [View()]
              else entries == old(entries) && history == old(history)
    {
      ok := Attempt();
      if ok {
        entries := entries + {e};
        history := history + [View()];
      }
    }

    method Drop(e: Entry) returns (ok: bool)
      modifies this`calls, this`entries, this`history
      ensures calls >= old(calls) && (old(Smooth()) ==> ok)
      ensures if ok then entries == old(entries) - {e} && history == old(history) + [View()]
              else entries == old(entries) && history == old(history)
    {
      ok := Attempt();
      if ok {
        entries := entries - {e};
        history := history + [View()];
      }
    }

    /** The commit: the pending directory takes the run's name. */
    method CommitRun(id: RunId, nonce: string, r: Record) returns (ok: bool)
      modifies this`calls, this`runs, this`entries, this`history
      ensures calls >= old(calls) && (old(Smooth()) ==> ok)
      ensures if ok then runs == old(runs)[id := r] && entries == old(entries) - {PendingRun(id, nonce)}
                         && history == old(history) + [View()]
              else runs == old(runs) && entries == old(entries) && history == old(history)
    {
      ok := Attempt();
      if ok {
        runs, entries := runs[id := r], entries - {PendingRun(id, nonce)};
        history := history + [View()];
      }
    }

    method DropRun(id: RunId) returns (ok: bool)
      modifies this`calls, this`runs, this`history
      ensures calls >= old(calls) && (old(Smooth()) ==> ok)
      ensures if ok then runs == old(runs) - {id} && history == old(history) + [View()]
              else runs == old(runs) && history == old(history)
    {
      ok := Attempt();
      if ok {
        runs := runs - {id};
        history := history + [View()];
      }
    }

    // ------------------------------------------------------------------- cleaning up

    /** Remove a file no committed run refers to. */
    method ClearFile(f: File, ghost before: Store, ghost plan: Plan) returns (ok: bool)
      requires CleanupVisits(before, plan, View()) && !f.Foreign? && (f.Final? ==> !Referenced(View(), f.artifact))
      modifies this`calls, this`files, this`history
      ensures calls >= old(calls) && (old(Smooth()) ==> ok)
      ensures CleanupVisits(before, plan, View()) && Cleans(before, plan, old(history), history)
      ensures ok ==> files == old(files) - {f}
    {
      WithoutFile(View(), f);
      ForeignKeptTrans(before, View(), View().(files := files - {f}));
      ok := Unlink(f);
    }

    /** Remove a stale run: its directory first, then its artifacts. */
    method RemoveRun(id: RunId, ghost before: Store, ghost plan: Plan) returns (ok: bool)
      requires CleanupVisits(before, plan, View()) && id in plan.stale && id in runs
      modifies this
      ensures calls >= old(calls) && (old(Smooth()) ==> ok)
      ensures CleanupVisits(before, plan, View()) && Cleans(before, plan, old(history), history)
      ensures runs.Keys >= old(runs.Keys) - {id}
      ensures ok ==> runs == old(runs) - {id} && entries == old(entries)
      ensures ok ==> files == old(files) - {Final(ArtifactOf(id, old(runs)[id], Html)), Final(ArtifactOf(id, old(runs)[id], Markdown))}
    {
      var r := runs[id];
      ok := DropRun(id);
      if !ok { return; }
      ok := ClearFile(Final(ArtifactOf(id, r, Html)), before, plan);
      if !ok { return; }
      ok := ClearFile(Final(ArtifactOf(id, r, Markdown)), before, plan);
    }

    /** The first `i` stale runs are gone with their pairs, and nothing else is. */
    ghost predicate StaleGone(before: Store, stale: seq<RunId>)
      requires forall id :: id in stale ==> id in before.runs
      reads this
    {
      runs == before.runs - Elements(stale) && files == before.files - PairsOf(before, stale) && entries == before.entries
    }

    method RemoveNext(plan: Plan, ghost before: Store, i: nat) returns (ok: bool)
      requires i < |plan.stale| && NoDuplicates(plan.stale) && forall id :: id in plan.stale ==> id in before.runs
      requires CleanupVisits(before, plan, View()) && StaleGone(before, plan.stale[..i])
      modifies this
      ensures calls >= old(calls) && (old(Smooth()) ==> ok)
      ensures CleanupVisits(before, plan, View()) && Cleans(before, plan, old(history), history)
      ensures ok ==> StaleGone(before, plan.stale[..i + 1])
    {
      NextGone(before, plan.stale, i);
      ok := RemoveRun(plan.stale[i], before, plan);
    }

    method RemoveStale(plan: Plan, ghost before: Store) returns (ok: bool)
      requires before == View() && CleanupVisits(before, plan, View())
      requires NoDuplicates(plan.stale) && forall id :: id in plan.stale ==> id in runs
      modifies this
      ensures calls >= old(calls) && (old(Smooth()) ==> ok)
      ensures CleanupVisits(before, plan, View()) && Cleans(before, plan, old(history), history)
      ensures ok ==> StaleGone(before, plan.stale)
    {
      assert Elements(plan.stale[..0]) == {};
      for i := 0 to |plan.stale|
        invariant calls >= old(calls) && StaleGone(before, plan.stale[..i])
        invariant CleanupVisits(before, plan, View()) && Cleans(before, plan, old(history), history)
      {
        ok := RemoveNext(plan, before, i);
        if !ok { return; }
      }
      assert plan.stale[..|plan.stale|] == plan.stale;
      ok := true;
    }

    method ClearLeftovers(plan: Plan, ghost before: Store) returns (ok: bool)
      requires CleanupVisits(before, plan, View()) && forall f :: f in plan.leftovers ==> Leftover(before, f)
      modifies this
      ensures calls >= old(calls) && (old(Smooth()) ==> ok)
      ensures CleanupVisits(before, plan, View()) && Cleans(before, plan, old(history), history)
      ensures runs == old(runs) && entries == old(entries)
      ensures ok ==> files == old(files) - Elements(plan.leftovers)
    {
      for i := 0 to |plan.leftovers|
        invariant calls >= old(calls) && runs == old(runs) && entries == old(entries)
        invariant files == old(files) - Elements(plan.leftovers[..i])
        invariant CleanupVisits(before, plan, View()) && Cleans(before, plan, old(history), history)
      {
        var f := plan.leftovers[i];
        assert Leftover(before, f);
        assert forall a :: Referenced(View(), a) ==> Referenced(before, a);
        ok := ClearFile(f, before, plan);
        if !ok { return; }
        OneMoreElement(plan.leftovers, i);
      }
      assert plan.leftovers[..|plan.leftovers|] == plan.leftovers;
      ok := true;
    }

    method ClearPending(plan: Plan, ghost before: Store) returns (ok: bool)
      requires CleanupVisits(before, plan, View()) && forall e :: e in plan.pending ==> LeftoverEntry(e)
      modifies this`calls, this`entries, this`history
      ensures calls >= old(calls) && (old(Smooth()) ==> ok)
      ensures CleanupVisits(before, plan, View()) && Cleans(before, plan, old(history), history)
      ensures ok ==> entries == old(entries) - Elements(plan.pending)
    {
      for i := 0 to |plan.pending|
        invariant calls >= old(calls) && entries == old(entries) - Elements(plan.pending[..i])
        invariant CleanupVisits(before, plan, View()) && Cleans(before, plan, old(history), history)
      {
        assert LeftoverEntry(plan.pending[i]);
        ok := Drop(plan.pending[i]);
        if !ok { return; }
        OneMoreElement(plan.pending, i);
      }
      assert plan.pending[..|plan.pending|] == plan.pending;
      ok := true;
    }

    /** Carry out a plan: to its end, unless a step fails; an error leaves the rest for the next time. */
    method ApplyPlan(plan: Plan, ghost before: Store, ghost leased: LeaseSet, ghost retain: int, ghost protect: Option<RunId>)
      returns (ok: bool)
      requires before == View() && StoreOk(before) && GoodPlan(before, leased, retain, protect, plan)
      modifies this
      ensures calls >= old(calls) && (old(Smooth()) ==> ok)
      ensures CleanupVisits(before, plan, View()) && Cleans(before, plan, old(history), history)
      ensures ok ==> Applied(before, plan, View())
    {
      ok := RemoveStale(plan, before);
      if !ok { return; }
      ok := ClearLeftovers(plan, before);
      if !ok { return; }
      ok := ClearPending(plan, before);
    }

    /** Clean the store up on its own; Ok(false) means that carrying out the plan threw half-way. */
    method Prepare(leased: LeaseSet, retain: int) returns (r: Result<bool>)
      modifies this
      ensures r.Fail? ==> View() == old(View()) && history == old(history)
      ensures r.Fail? <==> NoPlan(old(View()), leased, retain, None)
      ensures r.Ok? ==> Cleaning(old(View()), leased, retain, None, View())
      ensures r == Ok(true) ==> Cleaned(old(View()), leased, retain, None, View())
      ensures old(Smooth()) && r.Ok? ==> r.value
      ensures Extends(old(history), history)
      ensures forall i :: |old(history)| <= i < |history| ==> Cleaning(old(View()), leased, retain, None, history[i])
    {
      var plan := Inspect(View(), leased, retain, None);
      if plan.Fail? { return Fail(plan.error); }
      var ok := ApplyPlan(plan.value, View(), leased, retain, None);
      r := Ok(ok);
    }

    // -------------------------------------------------------------------- publishing

    /** Write the pair under temporary names and the pending directory, then name the pair. */
    method Stage(id: RunId, nonce: string, r: Record, ghost before: Store) returns (ok: bool)
      requires Staging(before, View()) && id !in runs
      modifies this`calls, this`files, this`entries, this`history
      ensures calls >= old(calls) && (old(Smooth()) ==> ok)
      ensures Staging(before, View())
      ensures Extends(old(history), history)
           && forall i :: |old(history)| <= i < |history| ==> Staging(before, history[i])
      ensures ok ==> Intact(files, id, r)
    {
      ok := Enter(PendingRun(id, nonce));
      if !ok { return; }
      ok := StageFile(ArtifactOf(id, r, Html), nonce, r.html, before);
      if !ok { return; }
      ok := StageFile(ArtifactOf(id, r, Markdown), nonce, r.markdown, before);
      if !ok { return; }
      ok := NameFile(ArtifactOf(id, r, Html), nonce, before);
      if !ok { return; }
      ok := NameFile(ArtifactOf(id, r, Markdown), nonce, before);
    }

    /** Write one temporary file; dying in the middle leaves it torn. */
    method StageFile(a: Artifact, nonce: string, text: string, ghost before: Store) returns (ok: bool)
      requires Staging(before, View())
      modifies this`calls, this`files, this`history
      ensures calls >= old(calls) && (old(Smooth()) ==> ok)
      ensures Staging(before, View())
      ensures Extends(old(history), history)
           && forall i :: |old(history)| <= i < |history| ==> Staging(before, history[i])
      ensures forall f :: f != Temp(a, nonce) ==>
        ((f in files <==> f in old(files)) && (f in files ==> files[f] == old(files)[f]))
      ensures ok ==> Temp(a, nonce) in files && files[Temp(a, nonce)] == Text(text)
    {
      WithFile(View(), Temp(a, nonce), Torn);
      WithFile(View(), Temp(a, nonce), Text(text));
      ForeignKeptTrans(before, View(), View().(files := files[Temp(a, nonce) := Torn]));
      ForeignKeptTrans(before, View(), View().(files := files[Temp(a, nonce) := Text(text)]));
      assert files[Temp(a, nonce) := Torn][Temp(a, nonce) := Text(text)] == files[Temp(a, nonce) := Text(text)];
      ok := Write(Temp(a, nonce), Torn);
      if !ok { return; }
      ok := Write(Temp(a, nonce), Text(text));
    }

    /** Give a temporary file its final name. */
    method NameFile(a: Artifact, nonce: string, ghost before: Store) returns (ok: bool)
      requires Staging(before, View()) && Temp(a, nonce) in files && a.run !in runs
      modifies this`calls, this`files, this`history
      ensures calls >= old(calls) && (old(Smooth()) ==> ok)
      ensures Staging(before, View())
      ensures Extends(old(history), history)
           && forall i :: |old(history)| <= i < |history| ==> Staging(before, history[i])
      ensures if ok then files == old(files)[Final(a) := old(files)[Temp(a, nonce)]] - {Temp(a, nonce)} else files == old(files)
    {
      ghost var named := View().(files := files[Final(a) := files[Temp(a, nonce)]]);
      WithFile(View(), Final(a), files[Temp(a, nonce)]);
      WithoutFile(named, Temp(a, nonce));
      ForeignKeptTrans(before, View(), named);
      ForeignKeptTrans(before, named, named.(files := named.files - {Temp(a, nonce)}));
      ok := Move(Temp(a, nonce), Final(a));
    }

    /** Remove what a failed publication staged; errors on the way are swallowed. */
    method Unstage(id: RunId, nonce: string, r: Record, ghost before: Store)
      requires Staging(before, View()) && id !in runs
      modifies this`calls, this`files, this`entries, this`history
      ensures calls >= old(calls)
      ensures Staging(before, View())
      ensures Extends(old(history), history)
           && forall i :: |old(history)| <= i < |history| ==> Staging(before, history[i])
    {
      var html, markdown := ArtifactOf(id, r, Html), ArtifactOf(id, r, Markdown);
      UnstageFile(Temp(html, nonce), before);
      UnstageFile(Temp(markdown, nonce), before);
      UnstageFile(Final(html), before);
      UnstageFile(Final(markdown), before);
      if PendingRun(id, nonce) in entries {
        var _ := Drop(PendingRun(id, nonce));
      }
    }

    method UnstageFile(f: File, ghost before: Store)
      requires Staging(before, View()) && !f.Foreign? && (f.Final? ==> f.artifact.run !in runs)
      modifies this`calls, this`files, this`history
      ensures calls >= old(calls)
      ensures Staging(before, View())
      ensures Extends(old(history), history)
           && forall i :: |old(history)| <= i < |history| ==> Staging(before, history[i])
    {
      WithoutFile(View(), f);
      ForeignKeptTrans(before, View(), View().(files := files - {f}));
      var _ := Unlink(f);
    }

    /** After the commit: plan with the new run protected, and carry the plan out. */
    method Settle(ghost before: Store, leased: LeaseSet, retain: int, id: RunId, ghost r: Record) returns (clean: Option<bool>)
      requires Committed(before, id, r, View()) && !NoPlan(View(), leased, retain, Some(id))
      modifies this
      ensures clean.Some? && AfterCommit(before, leased, retain, id, r, View())
      ensures clean == Some(true) ==> Published(before, leased, retain, id, r, View())
      ensures old(Smooth()) ==> clean == Some(true)
      ensures Extends(old(history), history)
           && forall i :: |old(history)| <= i < |history| ==> AfterCommit(before, leased, retain, id, r, history[i])
    {
      var plan := Inspect(View(), leased, retain, Some(id));
      if plan.Fail? { return None; }
      var ok := ApplyPlan(plan.value, View(), leased, retain, Some(id));
      assert forall s :: CleanupVisits(old(View()), plan.value, s) ==> Cleaning(old(View()), leased, retain, Some(id), s);
      clean := Some(ok);
    }

    /** Stage the pair and commit it, or take back what was staged. */
    method StageAndCommit(id: RunId, nonce: string, r: Record, ghost before: Store) returns (ok: bool)
      requires before == View() && StoreOk(before) && id !in runs
      modifies this
      ensures calls >= old(calls) && (old(Smooth()) ==> ok)
      ensures if ok then Committed(before, id, r, View()) else Staging(before, View())
      ensures Extends(old(history), history)
      ensures forall i :: |old(history)| <= i < |history| ==> Staging(before, history[i]) || Committed(before, id, r, history[i])
    {
      ok := Stage(id, nonce, r, before);
      if ok {
        ok := CommitRun(id, nonce, r);
      }
      if !ok {
        Unstage(id, nonce, r, before);
      }
    }

    /**
     Publish one run: check that there is a slot, stage the pair, commit by one rename,
     and only then retire older runs. Ok(false) is a commit whose cleanup was deferred.
     */
    method Publish(id: RunId, nonce: string, r: Record, leased: LeaseSet, retain: int) returns (result: Result<bool>)
      modifies this
      ensures PublishReturns(old(View()), leased, retain, id, r, View(), result)
      ensures result == Ok(true) ==> Published(old(View()), leased, retain, id, r, View())
      ensures old(Smooth()) ==> (result == Ok(true) <==>
        1 <= retain <= 100 && !NoPlan(old(View()), leased, retain - 1, None) && !Taken(old(View()), id, nonce, r))
      ensures Extends(old(history), history)
           && forall i :: |old(history)| <= i < |history| ==> PublishVisits(old(View()), leased, retain, id, r, history[i])
    {
      ghost var before := View();
      if retain < 1 || retain > 100 { return Fail(BadRetention); }
      var room := Inspect(View(), leased, retain - 1, None);
      if room.Fail? { return Fail(room.error); }
      if PendingRun(id, nonce) in entries || id in runs
         || Final(ArtifactOf(id, r, Html)) in files || Final(ArtifactOf(id, r, Markdown)) in files {
        return Fail(Exists);
      }
      assert !Taken(before, id, nonce, r);
      var ok := StageAndCommit(id, nonce, r, before);
      if !ok { return Fail(Io); }
      SlotIsReserved(before, Store(before.runs, files, entries), leased, retain, id, r);
      var clean := Settle(before, leased, retain, id, r);
      result := if clean.None? then Fail(CommittedInvalid) else Ok(clean.value);
    }
  }
}
