/**
 The durable spending state as values: the parsed state, the JSON document it is
 stored as, and each operation from the state read to the state written.
 */
module BudgetStateRules {
  import opened Prelude
  import opened Sums
  import opened BudgetDays

  const STATE_VERSION := 2
  const MAX_STORED_DAYS: nat := 32
  const MAX_ACTIVE_RESERVATIONS: nat := 1024
  const MAX_IDENTIFIER_BYTES := 192
  const CENT: nat := 1_000_000                       // 0.01 USD
  const MAX_STORED: nat := 100_000_000 * CENT        // 1,000,000 USD
  const MAX_PER_RUN: nat := 10_000 * CENT
  const MAX_PER_DAY: nat := 100_000 * CENT

  datatype Limits = Limits(perRun: int, perDay: int)
  const DEFAULT_LIMITS := Limits(100 * CENT, 500 * CENT)

  datatype Stored = Stored(id: string, runId: string, reserved: int)
  datatype DayRecord = DayRecord(settled: int, reservations: map<string, Stored>)
  datatype State = State(limits: Limits, days: map<Day, DayRecord>)

  /** What a caller presents to reserve, settle or cancel. */
  datatype Ticket = Ticket(id: string, runId: string, day: Day, reserved: int)

  /** The JSON document: one entry per own key of `days`, in key order. */
  datatype FileDay = FileDay(day: Day, settled: int, reservations: seq<Stored>)
  datatype File = File(version: int, limits: Option<Limits>, days: seq<FileDay>)

  // ---------------------------------------------------------------- validation

  predicate Alphanumeric(c: char) { '0' <= c <= '9' || 'a' <= c <= 'z' || 'A' <= c <= 'Z' }

  predicate ValidIdentifier(id: string) {
    && 1 <= |id| <= MAX_IDENTIFIER_BYTES
    && Alphanumeric(id[0])
    && forall i :: 1 <= i < |id| ==> Alphanumeric(id[i]) || id[i] in "._:@/+~-"
  }

  predicate ValidLimits(l: Limits) {
    CENT <= l.perRun <= MAX_PER_RUN && CENT <= l.perDay <= MAX_PER_DAY
  }

  predicate ValidTicket(t: Ticket) {
    ValidIdentifier(t.id) && ValidIdentifier(t.runId) && ValidDay(t.day) && 0 < t.reserved <= MAX_STORED
  }

  predicate ValidStored(s: Stored) {
    ValidIdentifier(s.id) && ValidIdentifier(s.runId) && 0 < s.reserved <= MAX_STORED
  }

  // --------------------------------------------------------------------- totals

  function Amount(m: map<string, Stored>, id: string): int {
    if id in m then m[id].reserved else 0
  }

  ghost function HeldOn(m: map<string, Stored>): int {
    Sum(m.Keys, id => Amount(m, id))
  }

  function CountOn(days: map<Day, DayRecord>, d: Day): int {
    if d in days then |days[d].reservations| else 0
  }

  ghost function Count(days: map<Day, DayRecord>): int {
    Sum(days.Keys, d => CountOn(days, d))
  }

  ghost function RecordTotal(r: DayRecord): int {
    r.settled + HeldOn(r.reservations)
  }

  /** The day's durable spend: settled plus every reservation still active. */
  ghost function TodayTotal(s: State, d: Day): int {
    if d in s.days then RecordTotal(s.days[d]) else 0
  }

  // ---------------------------------------------------------------- valid state

  ghost predicate ValidRecord(r: DayRecord) {
    && 0 <= r.settled <= MAX_STORED
    && (forall id :: id in r.reservations ==> r.reservations[id].id == id && ValidStored(r.reservations[id]))
    && RecordTotal(r) <= MAX_STORED
  }

  ghost predicate IdsDistinct(days: map<Day, DayRecord>) {
    forall d, e, id :: d in days && e in days && id in days[d].reservations && id in days[e].reservations ==> d == e
  }

  ghost predicate ValidDays(days: map<Day, DayRecord>) {
    && (forall d :: d in days ==> ValidDay(d) && ValidRecord(days[d]))
    && IdsDistinct(days)
    && Count(days) <= MAX_ACTIVE_RESERVATIONS
  }

  ghost predicate ValidState(s: State) {
    ValidLimits(s.limits) && ValidDays(s.days) && |s.days| <= MAX_STORED_DAYS
  }

  const EmptyState := State(DEFAULT_LIMITS, map[])

  // ------------------------------------------------------- the document's meaning

  function ToMap(items: seq<Stored>): map<string, Stored> {
    if items == [] then map[]
    else ToMap(items[..|items| - 1])[items[|items| - 1].id := items[|items| - 1]]
  }

  function RecordOf(f: FileDay): DayRecord {
    DayRecord(f.settled, ToMap(f.reservations))
  }

  function DaysOf(days: seq<FileDay>): map<Day, DayRecord> {
    if days == [] then map[]
    else DaysOf(days[..|days| - 1])[days[|days| - 1].day := RecordOf(days[|days| - 1])]
  }

  function ItemCount(days: seq<FileDay>): nat {
    if days == [] then 0 else ItemCount(days[..|days| - 1]) + |days[|days| - 1].reservations|
  }

  function StateOf(f: File): State {
    State(if f.version == STATE_VERSION && f.limits.Some? then f.limits.value else DEFAULT_LIMITS, DaysOf(f.days))
  }

  /** The keys of one JSON object are distinct. */
  ghost predicate DistinctDays(days: seq<FileDay>) {
    forall i, j :: 0 <= i < j < |days| ==> days[i].day != days[j].day
  }

  ghost predicate ItemsDistinct(items: seq<Stored>) {
    forall p, q :: 0 <= p < q < |items| ==> items[p].id != items[q].id
  }

  ghost predicate AllDistinct(days: seq<FileDay>) {
    && (forall i :: 0 <= i < |days| ==> ItemsDistinct(days[i].reservations))
    && forall i, j, p, q :: 0 <= i < j < |days| && 0 <= p < |days[i].reservations| && 0 <= q < |days[j].reservations|
         ==> days[i].reservations[p].id != days[j].reservations[q].id
  }

  ghost predicate FileDayOk(f: FileDay) {
    && ValidDay(f.day)
    && 0 <= f.settled <= MAX_STORED
    && (forall p :: 0 <= p < |f.reservations| ==> ValidStored(f.reservations[p]))
    && RecordTotal(RecordOf(f)) <= MAX_STORED
  }

  ghost predicate HeaderOk(f: File) {
    || (f.version == 1 && f.limits.None?)
    || (f.version == STATE_VERSION && f.limits.Some? && ValidLimits(f.limits.value))
  }

  /** Everything the reader demands of a stored document. */
  ghost predicate FileOk(f: File) {
    && HeaderOk(f)
    && |f.days| <= MAX_STORED_DAYS
    && (forall i :: 0 <= i < |f.days| ==> FileDayOk(f.days[i]))
    && AllDistinct(f.days)
    && ItemCount(f.days) <= MAX_ACTIVE_RESERVATIONS
  }

  /** f lists exactly the reservations of r, each once, in some order. */
  ghost predicate Lists(r: DayRecord, f: FileDay) {
    && f.settled == r.settled
    && ItemsDistinct(f.reservations)
    && ToMap(f.reservations) == r.reservations
  }

  /** The writer's output for a state: current version, its limits, its days in ascending order. */
  ghost predicate Serializes(s: State, f: File) {
    && f.version == STATE_VERSION && f.limits == Some(s.limits)
    && (forall i, j :: 0 <= i < j < |f.days| ==> Before(f.days[i].day, f.days[j].day))
    && (forall d :: d in s.days <==> exists i :: 0 <= i < |f.days| && f.days[i].day == d)
    && (forall i :: 0 <= i < |f.days| ==> f.days[i].day in s.days && Lists(s.days[f.days[i].day], f.days[i]))
  }

  // ----------------------------------------------------------------- operations

  datatype Error =
    | Invalid
    | AlreadyActive
    | ReservationsFull
    | SpendOutOfBound
    | HistoryFull
    | UnknownReservation
    | Mismatch

  datatype Outcome = Ok(state: State) | Err(error: Error)

  function Quiet(r: DayRecord): bool { r.settled == 0 && r.reservations == map[] }

  /** First pass: drop other days that carry nothing. */
  function DropQuiet(days: map<Day, DayRecord>, keep: Day): map<Day, DayRecord> {
    map d | d in days && (d == keep || !Quiet(days[d])) :: days[d]
  }

  function Droppable(days: map<Day, DayRecord>, keep: Day): set<Day> {
    set d | d in days && d != keep && days[d].reservations == map[]
  }

  ghost predicate Oldest(days: set<Day>, d: Day) {
    d in days && forall e :: e in days ==> d == e || Before(d, e)
  }

  lemma {:induction false} OldestExists(days: set<Day>)
    requires days != {}
    ensures exists d :: Oldest(days, d)
    decreases |days|
  {
    var d :| d in days;
    if days == {d} {
      assert Oldest(days, d);
    } else {
      OldestExists(days - {d});
      var e :| Oldest(days - {d}, e);
      var least := if Before(d, e) then d else e;
      forall x | x in days ensures least == x || Before(least, x) {
        if x != d { assert x in days - {d}; }
      }
      assert Oldest(days, least);
    }
  }

  ghost function TheOldest(days: set<Day>): (d: Day)
    requires days != {}
    ensures Oldest(days, d)
  {
    OldestExists(days);
    var d :| Oldest(days, d);
    d
  }

  /** Second pass: drop the oldest day without reservations until the history fits. */
  ghost function DropOldest(days: map<Day, DayRecord>, keep: Day): Option<map<Day, DayRecord>>
    decreases |days|
  {
    if |days| <= MAX_STORED_DAYS then Some(days)
    else if Droppable(days, keep) == {} then None
    else
      var d := TheOldest(Droppable(days, keep));
      assert |days - {d}| < |days| by { Shrinks(days, d); }
      DropOldest(days - {d}, keep)
  }

  lemma Shrinks(days: map<Day, DayRecord>, d: Day)
    requires d in days
    ensures |days - {d}| == |days| - 1
  {
    assert (days - {d}).Keys == days.Keys - {d};
    assert |days.Keys - {d}| == |days.Keys| - 1;
  }

  ghost function Prune(s: State, keep: Day): Option<State> {
    var kept := DropOldest(DropQuiet(s.days, keep), keep);
    if kept.None? then None else Some(s.(days := kept.value))
  }

  ghost function Pruned(s: State, keep: Day): Outcome {
    if Prune(s, keep).None? then Err(HistoryFull) else Ok(Prune(s, keep).value)
  }

  ghost predicate ActiveSomewhere(s: State, id: string) {
    exists d :: d in s.days && id in s.days[d].reservations
  }

  function RecordAt(s: State, d: Day): DayRecord {
    if d in s.days then s.days[d] else DayRecord(0, map[])
  }

  ghost function Reserve(s: State, t: Ticket): Outcome {
    if !ValidTicket(t) then Err(Invalid)
    else if ActiveSomewhere(s, t.id) then Err(AlreadyActive)
    else if Count(s.days) >= MAX_ACTIVE_RESERVATIONS then Err(ReservationsFull)
    else if RecordTotal(RecordAt(s, t.day)) + t.reserved > MAX_STORED then Err(SpendOutOfBound)
    else
      var r := RecordAt(s, t.day);
      var r' := r.(reservations := r.reservations[t.id := Stored(t.id, t.runId, t.reserved)]);
      Pruned(s.(days := s.days[t.day := r']), t.day)
  }

  /** The presented reservation is active and equal to the stored one. */
  predicate Found(s: State, t: Ticket) {
    t.day in s.days && t.id in s.days[t.day].reservations
  }

  predicate Names(s: State, t: Ticket) {
    Found(s, t) && s.days[t.day].reservations[t.id].runId == t.runId && s.days[t.day].reservations[t.id].reserved == t.reserved
  }

  /** The state in which the named reservation has been replaced by its cost. */
  function Finished(s: State, t: Ticket, cost: int): State
    requires t.day in s.days
  {
    var r := s.days[t.day];
    s.(days := s.days[t.day := DayRecord(r.settled + cost, r.reservations - {t.id})])
  }

  ghost function Settle(s: State, t: Ticket, cost: int): Outcome {
    if !ValidTicket(t) || cost < 0 || cost > MAX_STORED then Err(Invalid)
    else if !Found(s, t) then Err(UnknownReservation)
    else if !Names(s, t) then Err(Mismatch)
    else if RecordTotal(s.days[t.day]) + cost - t.reserved > MAX_STORED then Err(SpendOutOfBound)
    else Pruned(Finished(s, t, cost), t.day)
  }

  ghost function Cancel(s: State, t: Ticket): Outcome {
    if !ValidTicket(t) then Err(Invalid)
    else if !Found(s, t) then Err(UnknownReservation)
    else if !Names(s, t) then Err(Mismatch)
    else Pruned(Finished(s, t, 0), t.day)
  }

  function SetLimits(s: State, l: Limits): Outcome {
    if ValidLimits(l) then Ok(s.(limits := l)) else Err(Invalid)
  }
}
