/** What the operations of the claim store mean to its gate checks and to each other. */
module ClaimLaws {
  import opened Prelude
  import opened ClaimRules
  import opened ClaimRuns

  // ------------------------------------------------------------ how long a claim lasts

  /** The gate says yes for this handle, and in this state, exactly up to the given time. */
  ghost predicate CurrentUntil(s: Store, h: HandleId, taskId: TaskId, state: State, expiry: int) {
    forall t :: ValidNow(t) ==>
      && (IsCurrent(s, h, None, None, t) <==> t < expiry)
      && (IsCurrent(s, h, Some(taskId), Some(state), t) <==> t < expiry)
      && forall other :: other != state ==> !IsCurrent(s, h, None, Some(other), t)
  }

  /** A launch permission lasts for the time asked for, from the time of asking. */
  lemma GrantLasts(s: Store, op: Op, f: Fresh)
    requires op.DoAcquire? || op.DoAcquireExternal? || op.DoReclaim?
    requires Apply(s, op, f).response.Granted?
    ensures var o := Apply(s, op, f);
      CurrentUntil(o.store, o.response.holder, op.claim.taskId, Active, op.claim.nowMs + op.claim.ttlMs)
  {
  }

  /** An external claim is current for the supervisor that acquired it, and for no other. */
  lemma ExternalGrantIsOwn(s: Store, c: ClaimRequest, owner: Identity, objective: string, f: Fresh, who: Identity, t: int)
    requires TryAcquireExternal(s, c, owner, objective, f).response.Granted?
    requires ValidExternal(c.taskId, f.ref, who, t)
    ensures var o := TryAcquireExternal(s, c, owner, objective, f);
      IsExternalCurrent(o.store, o.response.holder, c.taskId, who, None, t) <==> who == owner && t < c.nowMs + c.ttlMs
  {
  }

  /** A renewal lasts for the time asked for, from the time of renewing. */
  lemma RenewalLasts(s: Store, h: HandleId, now: int, ttl: int)
    requires Renew(s, h, now, ttl).response.Done?
    ensures h in s.holders && s.holders[h].grip.taskId in s.claims
    ensures var t := s.holders[h].grip.taskId;
      CurrentUntil(Renew(s, h, now, ttl).store, h, t, s.claims[t].state, now + ttl)
  {
  }

  /** A transition is seen at the gate, and changes nothing about the expiry. */
  lemma TransitionIsSeen(s: Store, h: HandleId, from: State, to: State, now: int)
    requires Transition(s, h, from, to, now).response.Done?
    ensures h in s.holders && s.holders[h].grip.taskId in s.claims
    ensures var t := s.holders[h].grip.taskId;
      && CurrentUntil(s, h, t, from, s.claims[t].expiresAt)
      && CurrentUntil(Transition(s, h, from, to, now).store, h, t, to, s.claims[t].expiresAt)
  {
  }

  /** A reattached holder has what was left of the claim, and no more. */
  lemma ReattachLasts(s: Store, t: TaskId, claimId: Ref, who: Identity, now: int, f: Fresh)
    requires ReattachExternal(s, t, claimId, who, now, f).response.Attached?
    ensures t in s.claims && now < s.claims[t].expiresAt
    ensures var o := ReattachExternal(s, t, claimId, who, now, f);
      && CurrentUntil(o.store, o.response.holder, t, s.claims[t].state, s.claims[t].expiresAt)
      && forall other, at :: ValidExternal(t, claimId, other, at) ==>
           (IsExternalCurrent(o.store, o.response.holder, t, other, None, at) <==> other == who && at < s.claims[t].expiresAt)
  {
  }

  // ---------------------------------------------------------- what a current holder can do

  /** Exactly a current holder can renew. */
  lemma RenewIffCurrent(s: Store, h: HandleId, now: int, ttl: int)
    ensures Renew(s, h, now, ttl).response.Done? <==> IsCurrent(s, h, None, None, now) && ValidTtl(ttl)
  {
  }

  lemma TransitionIffCurrent(s: Store, h: HandleId, from: State, to: State, now: int)
    ensures Transition(s, h, from, to, now).response.Done? <==>
      IsCurrent(s, h, None, Some(from), now)
      && (from, to) in {(Active, Running), (Running, AwaitingReview), (AwaitingReview, Completed)}
  {
  }

  lemma ReleaseIffCurrent(s: Store, h: HandleId, now: int)
    ensures Release(s, h, now).response.Done? <==> IsCurrent(s, h, None, None, now)
  {
  }

  /** An acquire is granted exactly to a valid request for a free task. */
  lemma AcquireIffFree(s: Store, c: ClaimRequest, who: Identity, objective: string, f: Fresh)
    ensures TryAcquire(s, c, f).response.Granted? <==> s.open && ValidClaim(c) && c.taskId !in s.claims
    ensures TryAcquireExternal(s, c, who, objective, f).response.Granted? <==>
      s.open && ValidClaim(c) && ValidIdentity(who) && ValidHexDigest(objective) && c.taskId !in s.claims
  {
  }

  /** A released task is free, and only it. */
  lemma ReleasedIsFree(s: Store, h: HandleId, now: int, c: ClaimRequest, f: Fresh)
    requires Release(s, h, now).response.Done? && ValidClaim(c)
    ensures var s' := Release(s, h, now).store;
      TryAcquire(s', c, f).response.Granted? <==> c.taskId !in s.claims || c.taskId == s.holders[h].grip.taskId
  {
  }

  /** The holder of a claim that has run out, and only it, can begin its recovery. */
  lemma BeginRecoveryIffExpired(s: Store, h: HandleId, now: int, f: Fresh)
    ensures BeginRecovery(s, h, now, f).response.Quarantined? <==>
      s.open && ValidNow(now) && h in s.holders && HolderOwns(s, s.holders[h])
      && !IsCurrent(s, h, None, None, now)
  {
  }

  // ------------------------------------------------------------------------- recovery

  /** The recovery handle is the one that matches the quarantined row. */
  ghost predicate Recovers(s: Store, r: HandleId, t: TaskId) {
    s.open && r in s.recoveries && s.recoveries[r].grip.taskId == t && RecoveryOwns(s, s.recoveries[r])
  }

  lemma QuarantineRecovers(s: Store, op: Op, f: Fresh)
    requires op.DoBeginRecovery? || op.DoBeginExternalRecovery?
    requires Apply(s, op, f).response.Quarantined?
    ensures Recovers(Apply(s, op, f).store, Apply(s, op, f).response.recovery, OpTask(s, op))
  {
  }

  /** Recording says Done exactly when nothing is missing any more for a release or a reclaim. */
  lemma RecordedDoneIffReleasable(s: Store, r: HandleId, t: TaskId, now: int, killed: bool, reaped: bool, revoked: bool,
                                  c: ClaimRequest, f: Fresh)
    requires Recovers(s, r, t) && ValidNow(now) && (killed || reaped || revoked) && ValidClaim(c) && c.taskId == t
    ensures var o := RecordRecovery(s, r, now, killed, reaped, revoked);
      && Recovers(o.store, r, t) && (o.response.Done? || o.response.ProofIncomplete?)
      && (o.response.Done? <==> ReleaseRecovered(o.store, r, now).response.Done?)
      && (o.response.Done? <==> Reclaim(o.store, r, c, f).response.Granted?)
  {
  }

  /** All three facts, in one call or in three in any order, make a recovery complete. */
  lemma ThreeFactsAreEnough(s: Store, r: HandleId, t: TaskId, now: int, first: Fact, second: Fact, third: Fact)
    requires Recovers(s, r, t) && ValidNow(now) && first != second && first != third && second != third
    ensures RecordRecovery(s, r, now, true, true, true).response.Done?
    ensures var s1 := RecordRecovery(s, r, now, first.Killed?, first.Reaped?, first.BindRevoked?).store;
      var s2 := RecordRecovery(s1, r, now, second.Killed?, second.Reaped?, second.BindRevoked?).store;
      RecordRecovery(s2, r, now, third.Killed?, third.Reaped?, third.BindRevoked?).response.Done?
  {
  }

  /** Without one of them it is not. */
  lemma MissingFactIsNotEnough(s: Store, r: HandleId, t: TaskId, now: int, fact: Fact)
    requires Recovers(s, r, t) && FactOf(s.claims[t], fact).None?
    ensures RecordRecovery(s, r, now, !fact.Killed?, !fact.Reaped?, !fact.BindRevoked?).response != Done
    ensures forall c, f :: !Reclaim(s, r, c, f).response.Granted?
    ensures !ReleaseRecovered(s, r, now).response.Done?
  {
  }

  // ------------------------------------------------------------------------- receipts

  /** Ending an external claim leaves a receipt that its supervisor, and no other, can read. */
  lemma TerminalReceiptReads(s: Store, h: HandleId, t: TaskId, who: Identity, now: int, status: string,
                             other: Identity, at: int)
    requires IsExternalCurrent(s, h, t, who, None, now) && HolderOriginFits(s, h)
    requires ReleaseExternalTerminal(s, h, now, status).response.Done?
    requires ValidExternal(t, s.claims[t].ref, other, at)
    ensures InspectReceipt(ReleaseExternalTerminal(s, h, now, status).store, t, s.claims[t].ref, other, at)
         == if other == who then ReceiptFound(status, now) else ReceiptMismatch
  {
  }

  /** The holder remembers the origin of its row, as `DigestInv` keeps it. */
  predicate HolderOriginFits(s: Store, h: HandleId) {
    h in s.holders && (HolderOwns(s, s.holders[h]) ==> s.holders[h].origin == s.claims[s.holders[h].grip.taskId].origin)
  }

  /** So does ending one that was recovered. */
  lemma RecoveredReceiptReads(s: Store, r: HandleId, t: TaskId, who: Identity, now: int, status: string,
                              other: Identity, at: int)
    requires Recovers(s, r, t) && ExternalRowMatches(s, t, s.claims[t].ref, who)
    requires ReleaseExternalRecovered(s, r, now, status).response.Done?
    requires ValidExternal(t, s.claims[t].ref, other, at)
    ensures InspectReceipt(ReleaseExternalRecovered(s, r, now, status).store, t, s.claims[t].ref, other, at)
         == if other.supervisorId == who.supervisorId && other.roomId == who.roomId && other.supervisorToken == who.supervisorToken
            then ReceiptFound(status, now) else ReceiptMismatch
  {
  }

  // ------------------------------------------------- the remaining answers, exactly

  lemma ReattachIffOwnAndLive(s: Store, t: TaskId, claimId: Ref, who: Identity, now: int, f: Fresh)
    ensures ReattachExternal(s, t, claimId, who, now, f).response.Attached? <==>
      s.open && ValidExternal(t, claimId, who, now) && ExternalRowMatches(s, t, claimId, who)
      && Live(s.claims[t].state) && now < s.claims[t].expiresAt
  {
  }

  lemma ExternalRecoveryIffOver(s: Store, t: TaskId, claimId: Ref, who: Identity, now: int, f: Fresh)
    ensures BeginExternalRecovery(s, t, claimId, who, now, f).response.Quarantined? <==>
      s.open && ValidExternal(t, claimId, who, now) && ExternalRowMatches(s, t, claimId, who)
      && (s.claims[t].state.Recovering? || (Live(s.claims[t].state) && s.claims[t].expiresAt <= now))
  {
  }

  /** A current holder of an external claim can end it, once. */
  lemma TerminalReleaseIffCurrent(s: Store, h: HandleId, now: int, status: string)
    requires HolderOriginFits(s, h)
    ensures ReleaseExternalTerminal(s, h, now, status).response.Done? <==>
      IsCurrent(s, h, None, None, now) && s.holders[h].origin.External? && TerminalStatus(status)
      && (s.holders[h].grip.taskId, s.holders[h].grip.ref) !in s.receipts
  {
  }

  /** A boot reap frees exactly the tasks whose in-box claims are from before the boot. */
  lemma ReapFreesExactly(w: World, i: StoreId, now: int, boot: int, t: TaskId)
    requires Inv(w) && i in w.stores && w.stores[i].open && ValidNow(now) && ValidNow(boot) && boot <= now && t in w.claims
    ensures var s' := ReapExpiredAtBoot(View(w, i), now, boot).store;
      if w.claims[t].origin.InBox? && w.claims[t].acquiredAt < boot then t !in s'.claims
      else t in s'.claims && s'.claims[t] == w.claims[t]
  {
    assert RowSane(w.claims[t]);
  }

  // --------------------------------------------------- what a row and a receipt remember

  /** The row says of its claim what was asked for when it was granted. */
  ghost predicate FromRequest(step: Step, t: TaskId, row: Row) {
    && step.Call? && row.ref == step.f.ref && row.digest == Sha256(step.f.token)
    && match step.op
       case DoAcquire(c) => RequestFits(c, t, row) && row.origin == InBox
       case DoAcquireExternal(c, who, objective) =>
         RequestFits(c, t, row) && row.origin == External(who.supervisorId, Sha256(who.supervisorToken), who.roomId, objective)
       case DoReclaim(_, c) => RequestFits(c, t, row) && row.origin == InBox
       case _ => false
  }

  predicate RequestFits(c: ClaimRequest, t: TaskId, row: Row) {
    c.taskId == t && row.engine == c.engine && row.generation == c.generation && row.acquiredAt == c.nowMs
  }

  predicate SameOrigins(a: Row, b: Row) {
    && a.ref == b.ref && a.digest == b.digest && a.origin == b.origin
    && a.engine == b.engine && a.generation == b.generation && a.acquiredAt == b.acquiredAt
  }

  lemma GrantFits(w: World, step: Step)
    requires Enabled(w, step) && step.Call? && OutcomeOf(w, step).response.Granted?
    ensures var t := OpTask(View(w, step.i), step.op);
      t in Next(w, step).claims && FromRequest(step, t, Next(w, step).claims[t])
  {
  }

  /** A row after a call is one that was there, in origin, or one that the call granted. */
  lemma RowOrigin(w: World, step: Step, t: TaskId)
    requires Enabled(w, step) && t in Next(w, step).claims
    ensures (t in w.claims && SameOrigins(w.claims[t], Next(w, step).claims[t]))
      || (step.Call? && OutcomeOf(w, step).response.Granted? && OpTask(View(w, step.i), step.op) == t)
  {
    if step.Call? {
      EveryEffect(View(w, step.i), step.op, step.f);
      TaskOfEffect(View(w, step.i), step.op, step.f);
    }
  }

  /** Every row in every reachable table is the claim that a launch of the run was granted, as it was asked for. */
  lemma {:induction false} RowsAreTheirRequests(steps: seq<Step>, n: nat, t: TaskId) returns (k: nat)
    requires ValidRun(steps) && n <= |steps| && t in StateAt(steps, n).claims
    ensures k < n && Launches(steps, k, t) && FromRequest(steps[k], t, StateAt(steps, n).claims[t])
    decreases n
  {
    StepAt(steps, n - 1);
    var w := StateAt(steps, n - 1);
    RowOrigin(w, steps[n - 1], t);
    if t in w.claims && SameOrigins(w.claims[t], StateAt(steps, n).claims[t]) {
      k := RowsAreTheirRequests(steps, n - 1, t);
    } else {
      GrantFits(w, steps[n - 1]);
      k := n - 1;
    }
  }

  /** A receipt, once left, is never lost or rewritten. */
  lemma {:induction false} ReceiptForever(steps: seq<Step>, m: nat, n: nat, key: (TaskId, Ref))
    requires ValidRun(steps) && m <= n <= |steps| && key in StateAt(steps, m).receipts
    ensures key in StateAt(steps, n).receipts && StateAt(steps, n).receipts[key] == StateAt(steps, m).receipts[key]
    decreases n
  {
    if m < n {
      ReceiptForever(steps, m, n - 1, key);
      StepAt(steps, n - 1);
      ReceiptStays(StateAt(steps, n - 1), steps[n - 1], key);
    }
  }

  lemma ReceiptStays(w: World, step: Step, key: (TaskId, Ref))
    requires Enabled(w, step) && key in w.receipts
    ensures key in Next(w, step).receipts && Next(w, step).receipts[key] == w.receipts[key]
  {
    if step.Call? {
      EveryEffect(View(w, step.i), step.op, step.f);
    }
  }

  /** A call that touches a row says when. */
  lemma TouchedRowIsDated(s: Store, op: Op, f: Fresh, t: TaskId)
    requires t in s.claims && t in Apply(s, op, f).store.claims && Apply(s, op, f).store.claims[t] != s.claims[t]
    ensures Apply(s, op, f).store.claims[t].updatedAt == OpNow(op)
  {
  }
}
