/**
 The durable claim table as values: one row per task, one receipt per finished
 external claim, and the private data behind the holder and recovery handles of
 one store. Each public operation of the claim store is one function from the
 store it sees to the store it leaves and the response it returns.

 Randomness and object identity are parameters: `Fresh` carries the claim ref,
 the private token and the handle that an operation would mint.
 */
module ClaimRules {
  import opened Prelude

  type TaskId = string
  type Ref = string
  type HandleId = nat

  /** Hashing is taken as injective, so a digest is its preimage, tagged. */
  datatype Digest = Sha256(preimage: string)

  const MAX_SAFE_INTEGER := 0x1F_FFFF_FFFF_FFFF
  const MIN_TTL_MS := 1_000
  const MAX_TTL_MS := 86_400_000

  datatype State = Active | Running | AwaitingReview | Completed | Recovering | Unknown(text: string)

  predicate Live(state: State) {
    state.Active? || state.Running? || state.AwaitingReview? || state.Completed?
  }

  predicate AllowedTransition(from: State, to: State) {
    || (from.Active? && to.Running?)
    || (from.Running? && to.AwaitingReview?)
    || (from.AwaitingReview? && to.Completed?)
  }

  datatype Origin =
    | InBox
    | External(supervisorId: string, tokenDigest: Digest, roomId: string, objectiveDigest: string)

  datatype Row = Row(
    ref: Ref,
    digest: Digest,
    engine: string,
    acquiredAt: int,
    expiresAt: int,
    generation: int,
    state: State,
    version: int,
    killedAt: Option<int>,
    reapedAt: Option<int>,
    bindRevokedAt: Option<int>,
    origin: Origin,
    updatedAt: int)
  {
    predicate RecoveryProven() {
      killedAt.Some? && reapedAt.Some? && bindRevokedAt.Some?
    }

    predicate NoFacts() {
      killedAt.None? && reapedAt.None? && bindRevokedAt.None?
    }
  }

  datatype Receipt = Receipt(supervisorId: string, tokenDigest: Digest, roomId: string, status: string, releasedAt: int)

  /** What every private handle remembers about the row it was issued for. */
  datatype Grip = Grip(taskId: TaskId, ref: Ref, version: int)
  datatype Holder = Holder(grip: Grip, digest: Digest, origin: Origin)
  datatype Recovery = Recovery(grip: Grip, origin: Origin)

  datatype Store = Store(
    open: bool,
    claims: map<TaskId, Row>,
    receipts: map<(TaskId, Ref), Receipt>,
    holders: map<HandleId, Holder>,
    recoveries: map<HandleId, Recovery>)

  datatype Cause =
    | Unavailable
    | InvalidRequest
    | StaleHolder
    | AlreadyClaimed
    | ExpiredNeedsRecovery
    | RecoveryInProgress
    | RecordInvalid
    | SupervisorMismatch
    | ExternalExpired
    | ExternalRecoveryRequired
    | ClaimExpired
    | ClaimNotExpired
    | RecoveryIncomplete

  datatype Response =
    | Granted(holder: HandleId)        // the only response that permits a launch
    | Attached(holder: HandleId)
    | Quarantined(recovery: HandleId)
    | Done
    | ProofIncomplete
    | Refused(cause: Cause)

  datatype Outcome = Outcome(store: Store, response: Response)

  datatype Fresh = Fresh(ref: Ref, token: string, handle: HandleId)
  datatype ClaimRequest = ClaimRequest(taskId: TaskId, engine: string, nowMs: int, ttlMs: int, generation: int)
  datatype Identity = Identity(supervisorId: string, supervisorToken: string, roomId: string)

  // ---------------------------------------------------------------- validation

  predicate Digit(c: char) { '0' <= c <= '9' }
  predicate Lower(c: char) { 'a' <= c <= 'z' }
  predicate Alphanumeric(c: char) { Digit(c) || Lower(c) || 'A' <= c <= 'Z' }

  predicate ValidTaskId(t: TaskId) {
    && 1 <= |t| <= 128
    && Alphanumeric(t[0])
    && forall i :: 1 <= i < |t| ==> Alphanumeric(t[i]) || t[i] in "._:-"
  }

  predicate ValidEngine(e: string) {
    && 1 <= |e| <= 64
    && Lower(e[0])
    && forall i :: 1 <= i < |e| ==> Lower(e[i]) || Digit(e[i]) || e[i] in "_-"
  }

  predicate ValidClaimRef(r: Ref) {
    && 16 <= |r| <= 124
    && r[..4] == "clm_"
    && forall i :: 4 <= i < |r| ==> Alphanumeric(r[i]) || r[i] in "_-"
  }

  predicate ValidHexDigest(d: string) {
    |d| == 64 && forall i :: 0 <= i < |d| ==> Digit(d[i]) || 'a' <= d[i] <= 'f'
  }

  predicate ValidSupervisorToken(t: string) {
    32 <= |t| <= 512 && forall i :: 0 <= i < |t| ==> ' ' <= t[i] && t[i] as int != 0x7f
  }

  predicate ValidNow(now: int) { 0 <= now <= MAX_SAFE_INTEGER }
  predicate ValidTtl(ttl: int) { MIN_TTL_MS <= ttl <= MAX_TTL_MS }

  predicate ValidClaim(c: ClaimRequest) {
    && ValidTaskId(c.taskId)
    && ValidEngine(c.engine)
    && ValidNow(c.nowMs)
    && ValidTtl(c.ttlMs)
    && 0 <= c.generation <= MAX_SAFE_INTEGER
  }

  predicate ValidIdentity(who: Identity) {
    ValidTaskId(who.supervisorId) && ValidSupervisorToken(who.supervisorToken) && ValidTaskId(who.roomId)
  }

  predicate ValidExternal(t: TaskId, claimId: Ref, who: Identity, now: int) {
    ValidTaskId(t) && ValidClaimRef(claimId) && ValidIdentity(who) && ValidNow(now)
  }

  predicate TerminalStatus(status: string) { status == "done" || status == "blocked" }

  // ------------------------------------------------------------------ matching

  predicate RowHeld(s: Store, g: Grip) {
    g.taskId in s.claims && s.claims[g.taskId].ref == g.ref && s.claims[g.taskId].version == g.version
  }

  /** The holder still names the row exactly, and the row is live. */
  predicate HolderOwns(s: Store, h: Holder) {
    && RowHeld(s, h.grip)
    && s.claims[h.grip.taskId].digest == h.digest
    && Live(s.claims[h.grip.taskId].state)
  }

  predicate RecoveryOwns(s: Store, r: Recovery) {
    RowHeld(s, r.grip) && s.claims[r.grip.taskId].state.Recovering?
  }

  predicate ExternalRowMatches(s: Store, t: TaskId, claimId: Ref, who: Identity) {
    && t in s.claims
    && s.claims[t].origin.External?
    && s.claims[t].ref == claimId
    && s.claims[t].origin.supervisorId == who.supervisorId
    && s.claims[t].origin.roomId == who.roomId
    && s.claims[t].origin.tokenDigest == Sha256(who.supervisorToken)
  }

  // ---------------------------------------------------------------- operations

  function Refuse(s: Store, cause: Cause): Outcome {
    Outcome(s, Refused(cause))
  }

  function FreshRow(c: ClaimRequest, f: Fresh, version: int, origin: Origin): Row {
    Row(f.ref, Sha256(f.token), c.engine, c.nowMs, c.nowMs + c.ttlMs, c.generation,
        Active, version, None, None, None, origin, c.nowMs)
  }

  function GripOf(t: TaskId, row: Row): Grip {
    Grip(t, row.ref, row.version)
  }

  function Put(s: Store, t: TaskId, row: Row): Store {
    s.(claims := s.claims[t := row])
  }

  function Issue(s: Store, t: TaskId, row: Row, handle: HandleId): Store {
    s.(holders := s.holders[handle := Holder(GripOf(t, row), row.digest, row.origin)])
  }

  function IssueRecovery(s: Store, t: TaskId, row: Row, handle: HandleId): Store {
    s.(recoveries := s.recoveries[handle := Recovery(GripOf(t, row), row.origin)])
  }

  function OccupiedCause(row: Row, now: int): Cause {
    if Live(row.state) && row.expiresAt > now then AlreadyClaimed
    else if Live(row.state) then ExpiredNeedsRecovery
    else if row.state.Recovering? then RecoveryInProgress
    else RecordInvalid
  }

  function TryAcquire(s: Store, c: ClaimRequest, f: Fresh): Outcome {
    if !s.open then Refuse(s, Unavailable)
    else if !ValidClaim(c) then Refuse(s, InvalidRequest)
    else if c.taskId in s.claims then Refuse(s, OccupiedCause(s.claims[c.taskId], c.nowMs))
    else
      var row := FreshRow(c, f, 1, InBox);
      Outcome(Issue(Put(s, c.taskId, row), c.taskId, row, f.handle), Granted(f.handle))
  }

  function ExternalOccupiedCause(row: Row, now: int): Cause {
    if Live(row.state) && row.expiresAt > now then AlreadyClaimed
    else if row.state.Recovering? then RecoveryInProgress
    else ExpiredNeedsRecovery
  }

  function TryAcquireExternal(s: Store, c: ClaimRequest, who: Identity, objective: string, f: Fresh): Outcome {
    if !s.open then Refuse(s, Unavailable)
    else if !ValidClaim(c) || !ValidIdentity(who) || !ValidHexDigest(objective) then Refuse(s, InvalidRequest)
    else if c.taskId in s.claims then Refuse(s, ExternalOccupiedCause(s.claims[c.taskId], c.nowMs))
    else
      var row := FreshRow(c, f, 1,
        External(who.supervisorId, Sha256(who.supervisorToken), who.roomId, objective));
      Outcome(Issue(Put(s, c.taskId, row), c.taskId, row, f.handle), Granted(f.handle))
  }

  function ReattachExternal(s: Store, t: TaskId, claimId: Ref, who: Identity, now: int, f: Fresh): Outcome {
    if !s.open then Refuse(s, Unavailable)
    else if !ValidExternal(t, claimId, who, now) then Refuse(s, InvalidRequest)
    else if !ExternalRowMatches(s, t, claimId, who) then Refuse(s, SupervisorMismatch)
    else
      var row := s.claims[t];
      if !Live(row.state) then Refuse(s, ExternalRecoveryRequired)
      else if row.expiresAt <= now then Refuse(s, ExternalExpired)
      else
        var attached := row.(version := row.version + 1, updatedAt := now);
        Outcome(Issue(Put(s, t, attached), t, attached, f.handle), Attached(f.handle))
  }

  function BeginExternalRecovery(s: Store, t: TaskId, claimId: Ref, who: Identity, now: int, f: Fresh): Outcome {
    if !s.open then Refuse(s, Unavailable)
    else if !ValidExternal(t, claimId, who, now) then Refuse(s, InvalidRequest)
    else if !ExternalRowMatches(s, t, claimId, who) then Refuse(s, SupervisorMismatch)
    else
      var row := s.claims[t];
      if Live(row.state) && row.expiresAt > now then Refuse(s, ClaimNotExpired)
      else if !Live(row.state) && !row.state.Recovering? then Refuse(s, RecordInvalid)
      else
        var recovering := row.(state := Recovering, version := row.version + 1, updatedAt := now);
        Outcome(IssueRecovery(Put(s, t, recovering), t, recovering, f.handle), Quarantined(f.handle))
  }

  function Transition(s: Store, h: HandleId, from: State, to: State, now: int): Outcome {
    if !s.open then Refuse(s, Unavailable)
    else if h !in s.holders then Refuse(s, StaleHolder)
    else if !ValidNow(now) || !AllowedTransition(from, to) then Refuse(s, InvalidRequest)
    else
      var p := s.holders[h];
      if !HolderOwns(s, p) || s.claims[p.grip.taskId].state != from then Refuse(s, StaleHolder)
      else
        var t, row := p.grip.taskId, s.claims[p.grip.taskId];
        if row.expiresAt <= now then Refuse(s, ClaimExpired)
        else
          var advanced := row.(state := to, version := row.version + 1, updatedAt := now);
          Outcome(Put(s, t, advanced).(holders :=
                    s.holders[h := p.(grip := p.grip.(version := p.grip.version + 1))]), Done)
  }

  function Renew(s: Store, h: HandleId, now: int, ttl: int): Outcome {
    if !s.open then Refuse(s, Unavailable)
    else if h !in s.holders then Refuse(s, StaleHolder)
    else if !ValidNow(now) || !ValidTtl(ttl) then Refuse(s, InvalidRequest)
    else
      var p := s.holders[h];
      if !HolderOwns(s, p) then Refuse(s, StaleHolder)
      else
        var t, row := p.grip.taskId, s.claims[p.grip.taskId];
        if row.expiresAt <= now then Refuse(s, ClaimExpired)
        else
          var renewed := row.(expiresAt := now + ttl, version := row.version + 1, updatedAt := now);
          Outcome(Put(s, t, renewed).(holders :=
                    s.holders[h := p.(grip := p.grip.(version := p.grip.version + 1))]), Done)
  }

  function Release(s: Store, h: HandleId, now: int): Outcome {
    if !s.open then Refuse(s, Unavailable)
    else if h !in s.holders then Refuse(s, StaleHolder)
    else if !ValidNow(now) then Refuse(s, InvalidRequest)
    else if !HolderOwns(s, s.holders[h]) then Refuse(s, StaleHolder)
    else if s.claims[s.holders[h].grip.taskId].expiresAt <= now then Refuse(s, ClaimExpired)
    else Outcome(s.(claims := s.claims - {s.holders[h].grip.taskId}, holders := s.holders - {h}), Done)
  }

  /** A receipt is inserted under its primary key; a second insert rolls the whole transaction back. */
  function WithReceipt(s: Store, t: TaskId, row: Row, status: string, now: int): Store
    requires row.origin.External?
  {
    s.(receipts := s.receipts[(t, row.ref) :=
         Receipt(row.origin.supervisorId, row.origin.tokenDigest, row.origin.roomId, status, now)])
  }

  function ReleaseExternalTerminal(s: Store, h: HandleId, now: int, status: string): Outcome {
    if !s.open then Refuse(s, Unavailable)
    else if h !in s.holders || !s.holders[h].origin.External? then Refuse(s, StaleHolder)
    else if !ValidNow(now) || !TerminalStatus(status) then Refuse(s, InvalidRequest)
    else
      var p := s.holders[h];
      if !HolderOwns(s, p) || !s.claims[p.grip.taskId].origin.External? then Refuse(s, StaleHolder)
      else
        var t, row := p.grip.taskId, s.claims[p.grip.taskId];
        if row.expiresAt <= now then Refuse(s, ExternalExpired)
        else if (t, row.ref) in s.receipts then Refuse(s, Unavailable)
        else Outcome(WithReceipt(s, t, row, status, now).(claims := s.claims - {t}, holders := s.holders - {h}), Done)
  }

  predicate Reapable(row: Row, boot: int) {
    row.origin.InBox? && (Live(row.state) || row.state.Recovering?) && row.acquiredAt < boot
  }

  function ReapExpiredAtBoot(s: Store, now: int, boot: int): Outcome {
    if !s.open || !ValidNow(now) || !ValidNow(boot) || boot > now then Outcome(s, Done)
    else Outcome(s.(claims := map t | t in s.claims && !Reapable(s.claims[t], boot) :: s.claims[t]), Done)
  }

  function BeginRecovery(s: Store, h: HandleId, now: int, f: Fresh): Outcome {
    if !s.open then Refuse(s, Unavailable)
    else if h !in s.holders then Refuse(s, StaleHolder)
    else if !ValidNow(now) then Refuse(s, InvalidRequest)
    else
      var p := s.holders[h];
      if !HolderOwns(s, p) then Refuse(s, StaleHolder)
      else
        var t, row := p.grip.taskId, s.claims[p.grip.taskId];
        if row.expiresAt > now then Refuse(s, ClaimNotExpired)
        else
          var recovering := row.(state := Recovering, version := row.version + 1, updatedAt := now);
          Outcome(IssueRecovery(Put(s, t, recovering), t, recovering, f.handle).(holders := s.holders - {h}),
                  Quarantined(f.handle))
  }

  /** Recovery facts are write-once: an earlier time is never replaced. */
  function Coalesce(flag: bool, old_: Option<int>, now: int): Option<int> {
    if flag && old_.None? then Some(now) else old_
  }

  function RecordRecovery(s: Store, h: HandleId, now: int, killed: bool, reaped: bool, revoked: bool): Outcome {
    if !s.open then Refuse(s, Unavailable)
    else if h !in s.recoveries then Refuse(s, StaleHolder)
    else if !ValidNow(now) || (!killed && !reaped && !revoked) then Refuse(s, InvalidRequest)
    else
      var p := s.recoveries[h];
      if !RecoveryOwns(s, p) then Refuse(s, StaleHolder)
      else
        var t, row := p.grip.taskId, s.claims[p.grip.taskId];
        var current := row.(
          killedAt := Coalesce(killed, row.killedAt, now),
          reapedAt := Coalesce(reaped, row.reapedAt, now),
          bindRevokedAt := Coalesce(revoked, row.bindRevokedAt, now),
          updatedAt := now);
        Outcome(Put(s, t, current), if current.RecoveryProven() then Done else ProofIncomplete)
  }

  function ReleaseRecovered(s: Store, h: HandleId, now: int): Outcome {
    if !s.open then Refuse(s, Unavailable)
    else if h !in s.recoveries then Refuse(s, StaleHolder)
    else if !ValidNow(now) then Refuse(s, InvalidRequest)
    else
      var p := s.recoveries[h];
      if !RecoveryOwns(s, p) then Refuse(s, StaleHolder)
      else if !s.claims[p.grip.taskId].RecoveryProven() then Refuse(s, RecoveryIncomplete)
      else Outcome(s.(claims := s.claims - {p.grip.taskId}, recoveries := s.recoveries - {h}), Done)
  }

  function ReleaseExternalRecovered(s: Store, h: HandleId, now: int, status: string): Outcome {
    if !s.open then Refuse(s, Unavailable)
    else if h !in s.recoveries || !s.recoveries[h].origin.External? then Refuse(s, StaleHolder)
    else if !ValidNow(now) || !TerminalStatus(status) then Refuse(s, InvalidRequest)
    else
      var p := s.recoveries[h];
      if !RecoveryOwns(s, p) || !s.claims[p.grip.taskId].origin.External? then Refuse(s, StaleHolder)
      else
        var t, row := p.grip.taskId, s.claims[p.grip.taskId];
        if !row.RecoveryProven() then Refuse(s, RecoveryIncomplete)
        else if (t, row.ref) in s.receipts then Refuse(s, Unavailable)
        else Outcome(WithReceipt(s, t, row, status, now)
                       .(claims := s.claims - {t}, recoveries := s.recoveries - {h}), Done)
  }

  function Reclaim(s: Store, h: HandleId, c: ClaimRequest, f: Fresh): Outcome {
    if !s.open then Refuse(s, Unavailable)
    else if h !in s.recoveries then Refuse(s, StaleHolder)
    else if !ValidClaim(c) || s.recoveries[h].grip.taskId != c.taskId then Refuse(s, InvalidRequest)
    else if !RecoveryOwns(s, s.recoveries[h]) then Refuse(s, StaleHolder)
    else if !s.claims[c.taskId].RecoveryProven() then Refuse(s, RecoveryIncomplete)
    else
      var replacement := FreshRow(c, f, s.claims[c.taskId].version + 1, InBox);
      Outcome(Issue(Put(s, c.taskId, replacement), c.taskId, replacement, f.handle)
                .(recoveries := s.recoveries - {h}), Granted(f.handle))
  }

  /** The read-only gate check: the holder owns the row, the lease is unexpired, and the state is as asked. */
  predicate IsCurrent(s: Store, h: HandleId, taskId: Option<TaskId>, state: Option<State>, now: int) {
    && s.open
    && h in s.holders
    && ValidNow(now)
    && (taskId.Some? ==> taskId.value == s.holders[h].grip.taskId)
    && HolderOwns(s, s.holders[h])
    && s.claims[s.holders[h].grip.taskId].expiresAt > now
    && (state.Some? ==> s.claims[s.holders[h].grip.taskId].state == state.value)
  }

  predicate IsExternalCurrent(s: Store, h: HandleId, taskId: TaskId, who: Identity, state: Option<State>, now: int) {
    && h in s.holders
    && ValidExternal(taskId, s.holders[h].grip.ref, who, now)
    && s.holders[h].origin.External?
    && s.holders[h].origin.supervisorId == who.supervisorId
    && s.holders[h].origin.roomId == who.roomId
    && s.holders[h].origin.tokenDigest == Sha256(who.supervisorToken)
    && IsCurrent(s, h, Some(taskId), state, now)
  }

  datatype ReceiptAnswer =
    | ReceiptUnavailable
    | ReceiptRefused
    | NoReceipt
    | ReceiptMismatch
    | ReceiptFound(status: string, releasedAt: int)

  /** The receipt of a finished external claim, for the supervisor that owned it. */
  function InspectReceipt(s: Store, t: TaskId, claimId: Ref, who: Identity, now: int): ReceiptAnswer {
    if !s.open then ReceiptUnavailable
    else if !ValidExternal(t, claimId, who, now) then ReceiptRefused
    else if (t, claimId) !in s.receipts then NoReceipt
    else
      var r := s.receipts[(t, claimId)];
      if r.supervisorId != who.supervisorId || r.roomId != who.roomId || r.tokenDigest != Sha256(who.supervisorToken)
      then ReceiptMismatch
      else ReceiptFound(r.status, r.releasedAt)
  }

  // ------------------------------------------------------------- one dispatcher

  datatype Op =
    | DoAcquire(claim: ClaimRequest)
    | DoAcquireExternal(claim: ClaimRequest, who: Identity, objective: string)
    | DoReattach(taskId: TaskId, claimId: Ref, who: Identity, now: int)
    | DoBeginExternalRecovery(taskId: TaskId, claimId: Ref, who: Identity, now: int)
    | DoTransition(h: HandleId, from: State, to: State, now: int)
    | DoRenew(h: HandleId, now: int, ttl: int)
    | DoRelease(h: HandleId, now: int)
    | DoReleaseTerminal(h: HandleId, now: int, status: string)
    | DoReap(now: int, boot: int)
    | DoBeginRecovery(h: HandleId, now: int)
    | DoRecord(h: HandleId, now: int, killed: bool, reaped: bool, revoked: bool)
    | DoReleaseRecovered(h: HandleId, now: int)
    | DoReleaseExternalRecovered(h: HandleId, now: int, status: string)
    | DoReclaim(h: HandleId, claim: ClaimRequest)
    | DoClose

  function Apply(s: Store, op: Op, f: Fresh): Outcome {
    match op
    case DoAcquire(c) => TryAcquire(s, c, f)
    case DoAcquireExternal(c, who, objective) => TryAcquireExternal(s, c, who, objective, f)
    case DoReattach(t, id, who, now) => ReattachExternal(s, t, id, who, now, f)
    case DoBeginExternalRecovery(t, id, who, now) => BeginExternalRecovery(s, t, id, who, now, f)
    case DoTransition(h, from, to, now) => Transition(s, h, from, to, now)
    case DoRenew(h, now, ttl) => Renew(s, h, now, ttl)
    case DoRelease(h, now) => Release(s, h, now)
    case DoReleaseTerminal(h, now, status) => ReleaseExternalTerminal(s, h, now, status)
    case DoReap(now, boot) => ReapExpiredAtBoot(s, now, boot)
    case DoBeginRecovery(h, now) => BeginRecovery(s, h, now, f)
    case DoRecord(h, now, k, r, b) => RecordRecovery(s, h, now, k, r, b)
    case DoReleaseRecovered(h, now) => ReleaseRecovered(s, h, now)
    case DoReleaseExternalRecovered(h, now, status) => ReleaseExternalRecovered(s, h, now, status)
    case DoReclaim(h, c) => Reclaim(s, h, c, f)
    case DoClose => Outcome(s.(open := false), Done)
  }
}
