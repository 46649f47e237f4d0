/**
 The claim store as an object: a shared table, and per process the private data
 behind its holder and recovery handles. Every method is proved to compute the
 operation of `ClaimRules` with the same name.
 */
module ClaimStores {
  import opened Prelude
  import opened ClaimRules

  class ClaimTable {
    var claims: map<TaskId, Row>
    var receipts: map<(TaskId, Ref), Receipt>

    constructor ()
      ensures claims == map[] && receipts == map[]
    {
      claims := map[];
      receipts := map[];
    }
  }

  class ClaimStore {
    const db: ClaimTable
    var open: bool
    var holders: map<HandleId, Holder>
    var recoveries: map<HandleId, Recovery>

    constructor (db: ClaimTable, opened_: bool)
      ensures this.db == db
      ensures View() == Store(opened_, db.claims, db.receipts, map[], map[])
    {
      this.db := db;
      open := opened_;
      holders := map[];
      recoveries := map[];
    }

    ghost function View(): Store
      reads this, db
    {
      Store(open, db.claims, db.receipts, holders, recoveries)
    }

    method IsCurrent(h: HandleId, taskId: Option<TaskId>, state: Option<State>, nowMs: int) returns (current: bool)
      ensures current <==> ClaimRules.IsCurrent(View(), h, taskId, state, nowMs)
    {
      if !open || h !in holders || !ValidNow(nowMs) { return false; }
      var p := holders[h];
      if taskId.Some? && taskId.value != p.grip.taskId { return false; }
      if p.grip.taskId !in db.claims { return false; }
      var row := db.claims[p.grip.taskId];
      current := row.ref == p.grip.ref && row.digest == p.digest && row.version == p.grip.version
                 && Live(row.state) && row.expiresAt > nowMs && (state.None? || row.state == state.value);
    }

    /** The gate check of an external supervisor: the claim is current and is its own. */
    method IsExternalCurrent(h: HandleId, taskId: TaskId, who: Identity, state: Option<State>, nowMs: int) returns (current: bool)
      ensures current <==> ClaimRules.IsExternalCurrent(View(), h, taskId, who, state, nowMs)
    {
      if h !in holders { return false; }
      var p := holders[h];
      if !ValidExternal(taskId, p.grip.ref, who, nowMs) { return false; }
      match p.origin {
        case InBox => return false;
        case External(supervisorId, tokenDigest, roomId, _) =>
          if supervisorId != who.supervisorId || roomId != who.roomId || tokenDigest != Sha256(who.supervisorToken) {
            return false;
          }
      }
      current := IsCurrent(h, Some(taskId), state, nowMs);
    }

    method InspectExternalReceipt(t: TaskId, claimId: Ref, who: Identity, nowMs: int) returns (answer: ReceiptAnswer)
      ensures answer == InspectReceipt(View(), t, claimId, who, nowMs)
    {
      if !open { return ReceiptUnavailable; }
      if !ValidExternal(t, claimId, who, nowMs) { return ReceiptRefused; }
      if (t, claimId) !in db.receipts { return NoReceipt; }
      var r := db.receipts[(t, claimId)];
      if r.supervisorId != who.supervisorId || r.roomId != who.roomId || r.tokenDigest != Sha256(who.supervisorToken) {
        return ReceiptMismatch;
      }
      answer := ReceiptFound(r.status, r.releasedAt);
    }

    method TryAcquire(c: ClaimRequest, f: Fresh) returns (r: Response)
      modifies this`holders, db`claims
      ensures Outcome(View(), r) == ClaimRules.TryAcquire(old(View()), c, f)
    {
      if !open { return Refused(Unavailable); }
      if !ValidClaim(c) { return Refused(InvalidRequest); }
      if c.taskId in db.claims {
        var existing := db.claims[c.taskId];
        if Live(existing.state) && existing.expiresAt > c.nowMs { return Refused(AlreadyClaimed); }
        if Live(existing.state) { return Refused(ExpiredNeedsRecovery); }
        if existing.state.Recovering? { return Refused(RecoveryInProgress); }
        return Refused(RecordInvalid);
      }
      r := Insert(c, InBox, f);
    }

    method TryAcquireExternal(c: ClaimRequest, who: Identity, objective: string, f: Fresh) returns (r: Response)
      modifies this`holders, db`claims
      ensures Outcome(View(), r) == ClaimRules.TryAcquireExternal(old(View()), c, who, objective, f)
    {
      if !open { return Refused(Unavailable); }
      if !ValidClaim(c) { return Refused(InvalidRequest); }
      if !ValidIdentity(who) || !ValidHexDigest(objective) { return Refused(InvalidRequest); }
      if c.taskId in db.claims {
        var existing := db.claims[c.taskId];
        if Live(existing.state) && existing.expiresAt > c.nowMs { return Refused(AlreadyClaimed); }
        return Refused(if existing.state.Recovering? then RecoveryInProgress else ExpiredNeedsRecovery);
      }
      r := Insert(c, External(who.supervisorId, Sha256(who.supervisorToken), who.roomId, objective), f);
    }

    /** INSERT the first row of a task and hand out its holder. */
    method Insert(c: ClaimRequest, origin: Origin, f: Fresh) returns (r: Response)
      modifies this`holders, db`claims
      ensures View() == Issue(Put(old(View()), c.taskId, FreshRow(c, f, 1, origin)), c.taskId, FreshRow(c, f, 1, origin), f.handle)
      ensures r == Granted(f.handle)
    {
      var row := Row(f.ref, Sha256(f.token), c.engine, c.nowMs, c.nowMs + c.ttlMs, c.generation,
                     Active, 1, None, None, None, origin, c.nowMs);
      db.claims := db.claims[c.taskId := row];
      holders := holders[f.handle := Holder(Grip(c.taskId, row.ref, row.version), row.digest, row.origin)];
      r := Granted(f.handle);
    }

    method ReattachExternal(t: TaskId, claimId: Ref, who: Identity, nowMs: int, f: Fresh) returns (r: Response)
      modifies this`holders, db`claims
      ensures Outcome(View(), r) == ClaimRules.ReattachExternal(old(View()), t, claimId, who, nowMs, f)
    {
      if !open { return Refused(Unavailable); }
      if !ValidExternal(t, claimId, who, nowMs) { return Refused(InvalidRequest); }
      var matches := MatchesExternal(t, claimId, who);
      if !matches { return Refused(SupervisorMismatch); }
      var row := db.claims[t];
      if !Live(row.state) { return Refused(ExternalRecoveryRequired); }
      if row.expiresAt <= nowMs { return Refused(ExternalExpired); }
      var attached := row.(version := row.version + 1, updatedAt := nowMs);
      db.claims := db.claims[t := attached];
      holders := holders[f.handle := Holder(Grip(t, attached.ref, attached.version), attached.digest, attached.origin)];
      r := Attached(f.handle);
    }

    method MatchesExternal(t: TaskId, claimId: Ref, who: Identity) returns (matches: bool)
      ensures matches <==> ExternalRowMatches(View(), t, claimId, who)
    {
      if t !in db.claims { return false; }
      match db.claims[t].origin
      case InBox => matches := false;
      case External(supervisorId, tokenDigest, roomId, _) =>
        matches := db.claims[t].ref == claimId && supervisorId == who.supervisorId && roomId == who.roomId
                   && tokenDigest == Sha256(who.supervisorToken);
    }

    method BeginExternalRecovery(t: TaskId, claimId: Ref, who: Identity, nowMs: int, f: Fresh) returns (r: Response)
      modifies this`recoveries, db`claims
      ensures Outcome(View(), r) == ClaimRules.BeginExternalRecovery(old(View()), t, claimId, who, nowMs, f)
    {
      if !open { return Refused(Unavailable); }
      if !ValidExternal(t, claimId, who, nowMs) { return Refused(InvalidRequest); }
      var matches := MatchesExternal(t, claimId, who);
      if !matches { return Refused(SupervisorMismatch); }
      var row := db.claims[t];
      if Live(row.state) && row.expiresAt > nowMs { return Refused(ClaimNotExpired); }
      if !Live(row.state) && row.state != Recovering { return Refused(RecordInvalid); }
      r := EnterRecovery(t, nowMs, f);
    }

    /** Move the row into recovery under a new version and hand out its recovery handle. */
    method EnterRecovery(t: TaskId, nowMs: int, f: Fresh) returns (r: Response)
      requires t in db.claims
      modifies this`recoveries, db`claims
      ensures var row := old(db.claims)[t].(state := Recovering, version := old(db.claims)[t].version + 1, updatedAt := nowMs);
        View() == IssueRecovery(Put(old(View()), t, row), t, row, f.handle)
      ensures r == Quarantined(f.handle)
    {
      var row := db.claims[t];
      row := row.(state := Recovering, version := row.version + 1, updatedAt := nowMs);
      db.claims := db.claims[t := row];
      recoveries := recoveries[f.handle := Recovery(Grip(t, row.ref, row.version), row.origin)];
      r := Quarantined(f.handle);
    }

    /** The holder check every holder operation repeats inside its transaction. */
    method Owns(p: Holder) returns (owns: bool)
      ensures owns <==> HolderOwns(View(), p)
    {
      if p.grip.taskId !in db.claims { return false; }
      var row := db.claims[p.grip.taskId];
      owns := row.ref == p.grip.ref && row.digest == p.digest && row.version == p.grip.version && Live(row.state);
    }

    method OwnsRecovery(p: Recovery) returns (owns: bool)
      ensures owns <==> RecoveryOwns(View(), p)
    {
      if p.grip.taskId !in db.claims { return false; }
      var row := db.claims[p.grip.taskId];
      owns := row.ref == p.grip.ref && row.version == p.grip.version && row.state == Recovering;
    }

    method Transition(h: HandleId, from: State, to: State, nowMs: int) returns (r: Response)
      modifies this`holders, db`claims
      ensures Outcome(View(), r) == ClaimRules.Transition(old(View()), h, from, to, nowMs)
    {
      if !open { return Refused(Unavailable); }
      if h !in holders { return Refused(StaleHolder); }
      if !ValidNow(nowMs) || !AllowedTransition(from, to) { return Refused(InvalidRequest); }
      var p := holders[h];
      var owns := Owns(p);
      if !owns || db.claims[p.grip.taskId].state != from { return Refused(StaleHolder); }
      var row := db.claims[p.grip.taskId];
      if row.expiresAt <= nowMs { return Refused(ClaimExpired); }
      db.claims := db.claims[p.grip.taskId := row.(state := to, version := row.version + 1, updatedAt := nowMs)];
      holders := holders[h := p.(grip := p.grip.(version := p.grip.version + 1))];
      r := Done;
    }

    method Renew(h: HandleId, nowMs: int, ttlMs: int) returns (r: Response)
      modifies this`holders, db`claims
      ensures Outcome(View(), r) == ClaimRules.Renew(old(View()), h, nowMs, ttlMs)
    {
      if !open { return Refused(Unavailable); }
      if h !in holders { return Refused(StaleHolder); }
      if !ValidNow(nowMs) || !ValidTtl(ttlMs) { return Refused(InvalidRequest); }
      var p := holders[h];
      var owns := Owns(p);
      if !owns { return Refused(StaleHolder); }
      var row := db.claims[p.grip.taskId];
      if row.expiresAt <= nowMs { return Refused(ClaimExpired); }
      db.claims := db.claims[p.grip.taskId := row.(expiresAt := nowMs + ttlMs, version := row.version + 1, updatedAt := nowMs)];
      holders := holders[h := p.(grip := p.grip.(version := p.grip.version + 1))];
      r := Done;
    }

    method Release(h: HandleId, nowMs: int) returns (r: Response)
      modifies this`holders, db`claims
      ensures Outcome(View(), r) == ClaimRules.Release(old(View()), h, nowMs)
    {
      if !open { return Refused(Unavailable); }
      if h !in holders { return Refused(StaleHolder); }
      if !ValidNow(nowMs) { return Refused(InvalidRequest); }
      var owns := Owns(holders[h]);
      if !owns { return Refused(StaleHolder); }
      var t := holders[h].grip.taskId;
      if db.claims[t].expiresAt <= nowMs { return Refused(ClaimExpired); }
      db.claims := db.claims - {t};
      holders := holders - {h};
      r := Done;
    }

    /** INSERT the terminal receipt; false when its primary key is already taken. */
    method InsertReceipt(t: TaskId, status: string, nowMs: int) returns (inserted: bool)
      requires t in db.claims && db.claims[t].origin.External?
      modifies db`receipts
      ensures inserted <==> (t, db.claims[t].ref) !in old(db.receipts)
      ensures View() == if inserted then WithReceipt(old(View()), t, db.claims[t], status, nowMs) else old(View())
    {
      var row := db.claims[t];
      if (t, row.ref) in db.receipts { return false; }
      db.receipts := db.receipts[(t, row.ref) :=
        Receipt(row.origin.supervisorId, row.origin.tokenDigest, row.origin.roomId, status, nowMs)];
      inserted := true;
    }

    method ReleaseExternalTerminal(h: HandleId, nowMs: int, status: string) returns (r: Response)
      modifies this`holders, db
      ensures Outcome(View(), r) == ClaimRules.ReleaseExternalTerminal(old(View()), h, nowMs, status)
    {
      if !open { return Refused(Unavailable); }
      if h !in holders || holders[h].origin.InBox? { return Refused(StaleHolder); }
      if !ValidNow(nowMs) || !TerminalStatus(status) { return Refused(InvalidRequest); }
      var owns := Owns(holders[h]);
      var t := holders[h].grip.taskId;
      if !owns || db.claims[t].origin.InBox? { return Refused(StaleHolder); }
      if db.claims[t].expiresAt <= nowMs { return Refused(ExternalExpired); }
      var inserted := InsertReceipt(t, status, nowMs);
      if !inserted { return Refused(Unavailable); }
      db.claims := db.claims - {t};
      holders := holders - {h};
      r := Done;
    }

    method ReapExpiredAtBoot(nowMs: int, machineBootMs: int) returns (reaped: map<TaskId, Row>)
      modifies db`claims
      ensures View() == ClaimRules.ReapExpiredAtBoot(old(View()), nowMs, machineBootMs).store
      ensures reaped == map t | t in old(db.claims) && t !in db.claims :: old(db.claims)[t]
    {
      reaped := map[];
      if !open || !ValidNow(nowMs) || !ValidNow(machineBootMs) || machineBootMs > nowMs { return; }
      var before := db.claims;
      var doomed := set t | t in before && Reapable(before[t], machineBootMs);
      var left := doomed;
      while left != {}
        invariant left <= doomed
        invariant db.claims == map t | t in before && t !in doomed - left :: before[t]
        invariant reaped == map t | t in doomed && t !in left :: before[t]
        decreases left
      {
        var t :| t in left;
        reaped := reaped[t := before[t]];
        db.claims := db.claims - {t};
        left := left - {t};
      }
    }

    method BeginRecovery(h: HandleId, nowMs: int, f: Fresh) returns (r: Response)
      modifies this`holders, this`recoveries, db`claims
      ensures Outcome(View(), r) == ClaimRules.BeginRecovery(old(View()), h, nowMs, f)
    {
      if !open { return Refused(Unavailable); }
      if h !in holders { return Refused(StaleHolder); }
      if !ValidNow(nowMs) { return Refused(InvalidRequest); }
      var owns := Owns(holders[h]);
      if !owns { return Refused(StaleHolder); }
      var t := holders[h].grip.taskId;
      if db.claims[t].expiresAt > nowMs { return Refused(ClaimNotExpired); }
      r := EnterRecovery(t, nowMs, f);
      holders := holders - {h};
    }

    method RecordRecovery(h: HandleId, nowMs: int, killed: bool, reaped: bool, revoked: bool) returns (r: Response)
      modifies db`claims
      ensures Outcome(View(), r) == ClaimRules.RecordRecovery(old(View()), h, nowMs, killed, reaped, revoked)
    {
      if !open { return Refused(Unavailable); }
      if h !in recoveries { return Refused(StaleHolder); }
      if !ValidNow(nowMs) || (!killed && !reaped && !revoked) { return Refused(InvalidRequest); }
      var p := recoveries[h];
      var owns := OwnsRecovery(p);
      if !owns { return Refused(StaleHolder); }
      var row := db.claims[p.grip.taskId];
      if killed && row.killedAt.None? { row := row.(killedAt := Some(nowMs)); }
      if reaped && row.reapedAt.None? { row := row.(reapedAt := Some(nowMs)); }
      if revoked && row.bindRevokedAt.None? { row := row.(bindRevokedAt := Some(nowMs)); }
      row := row.(updatedAt := nowMs);
      db.claims := db.claims[p.grip.taskId := row];
      var complete := row.killedAt.Some? && row.reapedAt.Some? && row.bindRevokedAt.Some?;
      r := if complete then Done else ProofIncomplete;
    }

    method ReleaseRecovered(h: HandleId, nowMs: int) returns (r: Response)
      modifies this`recoveries, db`claims
      ensures Outcome(View(), r) == ClaimRules.ReleaseRecovered(old(View()), h, nowMs)
    {
      if !open { return Refused(Unavailable); }
      if h !in recoveries { return Refused(StaleHolder); }
      if !ValidNow(nowMs) { return Refused(InvalidRequest); }
      var owns := OwnsRecovery(recoveries[h]);
      if !owns { return Refused(StaleHolder); }
      var t := recoveries[h].grip.taskId;
      var row := db.claims[t];
      if row.killedAt.None? || row.reapedAt.None? || row.bindRevokedAt.None? { return Refused(RecoveryIncomplete); }
      db.claims := db.claims - {t};
      recoveries := recoveries - {h};
      r := Done;
    }

    method ReleaseExternalRecovered(h: HandleId, nowMs: int, status: string) returns (r: Response)
      modifies this`recoveries, db
      ensures Outcome(View(), r) == ClaimRules.ReleaseExternalRecovered(old(View()), h, nowMs, status)
    {
      if !open { return Refused(Unavailable); }
      if h !in recoveries || recoveries[h].origin.InBox? { return Refused(StaleHolder); }
      if !ValidNow(nowMs) || !TerminalStatus(status) { return Refused(InvalidRequest); }
      var owns := OwnsRecovery(recoveries[h]);
      var t := recoveries[h].grip.taskId;
      if !owns || db.claims[t].origin.InBox? { return Refused(StaleHolder); }
      var row := db.claims[t];
      if row.killedAt.None? || row.reapedAt.None? || row.bindRevokedAt.None? { return Refused(RecoveryIncomplete); }
      var inserted := InsertReceipt(t, status, nowMs);
      if !inserted { return Refused(Unavailable); }
      db.claims := db.claims - {t};
      recoveries := recoveries - {h};
      r := Done;
    }

    method Reclaim(h: HandleId, c: ClaimRequest, f: Fresh) returns (r: Response)
      modifies this, db`claims
      ensures Outcome(View(), r) == ClaimRules.Reclaim(old(View()), h, c, f)
    {
      if !open { return Refused(Unavailable); }
      if h !in recoveries { return Refused(StaleHolder); }
      if !ValidClaim(c) { return Refused(InvalidRequest); }
      if recoveries[h].grip.taskId != c.taskId { return Refused(InvalidRequest); }
      var owns := OwnsRecovery(recoveries[h]);
      if !owns { return Refused(StaleHolder); }
      var row := db.claims[c.taskId];
      if row.killedAt.None? || row.reapedAt.None? || row.bindRevokedAt.None? { return Refused(RecoveryIncomplete); }
      var replacement := Row(f.ref, Sha256(f.token), c.engine, c.nowMs, c.nowMs + c.ttlMs, c.generation,
                             Active, row.version + 1, None, None, None, InBox, c.nowMs);
      db.claims := db.claims[c.taskId := replacement];
      recoveries := recoveries - {h};
      holders := holders[f.handle := Holder(Grip(c.taskId, replacement.ref, replacement.version), replacement.digest, InBox)];
      r := Granted(f.handle);
    }

    method Close()
      modifies this`open
      ensures View() == old(View()).(open := false)
    {
      open := false;
    }
  }
}
