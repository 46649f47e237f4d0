/**
 The durable spending authority as an object over its one stored document. Each
 operation reads and checks the document, changes the parsed state, prunes it and
 writes a new document; `writable` says whether the write reached its rename.
 */
module BudgetStates {
  import opened Prelude
  import opened Sums
  import opened BudgetDays
  import opened BudgetStateRules
  import opened BudgetStateProofs

  method HeldTotal(m: map<string, Stored>) returns (total: int)
    ensures total == HeldOn(m)
  {
    total := 0;
    var left := m.Keys;
    ghost var f := id => Amount(m, id);
    while left != {}
      invariant left <= m.Keys
      invariant total == Sum(m.Keys - left, f)
      decreases left
    {
      var id :| id in left;
      Pick(m.Keys - (left - {id}), f, id);
      assert m.Keys - (left - {id}) - {id} == m.Keys - left;
      total := total + m[id].reserved;
      left := left - {id};
    }
    assert m.Keys - left == m.Keys;
    Same(m.Keys, f, id => Amount(m, id));
  }

  method CountAll(days: map<Day, DayRecord>) returns (total: int)
    ensures total == Count(days)
  {
    total := 0;
    var left := days.Keys;
    ghost var f := d => CountOn(days, d);
    while left != {}
      invariant left <= days.Keys
      invariant total == Sum(days.Keys - left, f)
      decreases left
    {
      var d :| d in left;
      Pick(days.Keys - (left - {d}), f, d);
      assert days.Keys - (left - {d}) - {d} == days.Keys - left;
      total := total + |days[d].reservations|;
      left := left - {d};
    }
    assert days.Keys - left == days.Keys;
    Same(days.Keys, f, d => CountOn(days, d));
  }

  // -------------------------------------------------------------------- reading

  ghost function Ids(items: seq<Stored>): set<string> {
    set p | 0 <= p < |items| :: items[p].id
  }

  lemma IdsStep(items: seq<Stored>, p: nat)
    requires p < |items|
    ensures Ids(items[..p + 1]) == Ids(items[..p]) + {items[p].id}
  {
    assert items[..p + 1] == items[..p] + [items[p]];
    forall id | id in Ids(items[..p]) ensures id in Ids(items[..p + 1]) {
      var q :| 0 <= q < p && items[..p][q].id == id;
      assert items[..p + 1][q].id == id;
    }
    assert items[..p + 1][p].id == items[p].id;
  }

  /** An id met before, in this day or an earlier one, spoils the day. */
  lemma RepeatedId(items: seq<Stored>, p: nat, seen: set<string>)
    requires p < |items| && items[p].id in seen + Ids(items[..p])
    ensures !(ItemsDistinct(items) && Ids(items) !! seen)
  {
    if items[p].id in seen {
      assert items[p].id in Ids(items);
    } else {
      var q :| 0 <= q < p && items[..p][q].id == items[p].id;
      assert items[q].id == items[p].id;
    }
  }

  /** One day's entry: its shape, its reservations one by one, then its total. */
  method ParseDay(f: FileDay, seen: set<string>, count: nat) returns (r: Option<DayRecord>)
    ensures r == if FileDayOk(f) && ItemsDistinct(f.reservations) && Ids(f.reservations) !! seen
                    && count + |f.reservations| <= MAX_ACTIVE_RESERVATIONS
                 then Some(RecordOf(f)) else None
  {
    if !ValidDay(f.day) || f.settled < 0 || f.settled > MAX_STORED { return None; }
    var items := f.reservations;
    var reservations: map<string, Stored> := map[];
    var known := seen;
    for p := 0 to |items|
      invariant reservations == ToMap(items[..p])
      invariant known == seen + Ids(items[..p])
      invariant Ids(items[..p]) !! seen && ItemsDistinct(items[..p])
      invariant forall q :: 0 <= q < p ==> ValidStored(items[q])
      invariant p > 0 ==> count + p <= MAX_ACTIVE_RESERVATIONS
    {
      IdsStep(items, p);
      assert items[..p + 1][..p] == items[..p];
      if !ValidStored(items[p]) { return None; }
      if items[p].id in known {
        RepeatedId(items, p, seen);
        return None;
      }
      known := known + {items[p].id};
      reservations := reservations[items[p].id := items[p]];
      if count + p + 1 > MAX_ACTIVE_RESERVATIONS { return None; }
    }
    assert items[..|items|] == items;
    var reserved := HeldTotal(reservations);
    if f.settled + reserved > MAX_STORED { return None; }
    if count + |items| > MAX_ACTIVE_RESERVATIONS { return None; }
    r := Some(DayRecord(f.settled, reservations));
  }

  ghost function AllIds(days: seq<FileDay>): set<string> {
    if days == [] then {} else AllIds(days[..|days| - 1]) + Ids(days[|days| - 1].reservations)
  }

  lemma {:induction false} AllIdsHas(days: seq<FileDay>, id: string)
    ensures id in AllIds(days) <==> exists i :: 0 <= i < |days| && id in Ids(days[i].reservations)
  {
    if days != [] {
      AllIdsHas(days[..|days| - 1], id);
    }
  }

  ghost predicate DaysOk(days: seq<FileDay>) {
    && (forall i :: 0 <= i < |days| ==> FileDayOk(days[i]))
    && AllDistinct(days)
    && ItemCount(days) <= MAX_ACTIVE_RESERVATIONS
  }

  ghost predicate NextDayOk(days: seq<FileDay>, day: FileDay) {
    && FileDayOk(day) && ItemsDistinct(day.reservations) && Ids(day.reservations) !! AllIds(days)
    && ItemCount(days) + |day.reservations| <= MAX_ACTIVE_RESERVATIONS
  }

  lemma LongerOk(days: seq<FileDay>, day: FileDay)
    requires DaysOk(days) && NextDayOk(days, day)
    ensures DaysOk(days + [day])
  {
    var more, n := days + [day], |days|;
    assert more[..n] == days;
    forall k, p, q | 0 <= k < n && 0 <= p < |more[k].reservations| && 0 <= q < |day.reservations|
      ensures more[k].reservations[p].id != day.reservations[q].id
    {
      assert days[k].reservations[p].id in Ids(days[k].reservations);
      AllIdsHas(days, days[k].reservations[p].id);
      assert day.reservations[q].id in Ids(day.reservations);
    }
    assert AllDistinct(more);
  }

  lemma LongerWasOk(days: seq<FileDay>, day: FileDay)
    requires DaysOk(days + [day])
    ensures NextDayOk(days, day)
  {
    var more, n := days + [day], |days|;
    assert more[..n] == days && more[n] == day;
    forall id | id in Ids(day.reservations) ensures id !in AllIds(days) {
      AllIdsHas(days, id);
      forall k | 0 <= k < n ensures id !in Ids(days[k].reservations) {
        assert more[k] == days[k];
      }
    }
  }

  /** A document prefix is accepted exactly when the next day adds nothing wrong. */
  lemma PrefixOk(days: seq<FileDay>, i: nat)
    requires i < |days| && DaysOk(days[..i])
    ensures DaysOk(days[..i + 1]) <==> NextDayOk(days[..i], days[i])
  {
    assert days[..i + 1] == days[..i] + [days[i]];
    if NextDayOk(days[..i], days[i]) { LongerOk(days[..i], days[i]); }
    if DaysOk(days[..i + 1]) { LongerWasOk(days[..i], days[i]); }
  }

  lemma BadPrefix(days: seq<FileDay>, i: nat)
    requires i <= |days| && DaysOk(days)
    ensures DaysOk(days[..i])
    decreases |days| - i
  {
    if i == |days| {
      assert days[..i] == days;
    } else {
      BadPrefix(days, i + 1);
      assert days[..i + 1][..i] == days[..i];
    }
  }

  method ParseDays(days: seq<FileDay>) returns (r: Option<map<Day, DayRecord>>)
    ensures r == if DaysOk(days) then Some(DaysOf(days)) else None
  {
    var records: map<Day, DayRecord> := map[];
    var seen: set<string> := {};
    var count := 0;
    for i := 0 to |days|
      invariant DaysOk(days[..i])
      invariant records == DaysOf(days[..i]) && seen == AllIds(days[..i]) && count == ItemCount(days[..i])
    {
      PrefixOk(days, i);
      assert days[..i + 1][..i] == days[..i];
      var record := ParseDay(days[i], seen, count);
      if record.None? {
        if DaysOk(days) { BadPrefix(days, i + 1); }
        return None;
      }
      records := records[days[i].day := record.value];
      seen := seen + set p | 0 <= p < |days[i].reservations| :: days[i].reservations[p].id;
      count := count + |days[i].reservations|;
    }
    assert days[..|days|] == days;
    r := Some(records);
  }

  method ParseState(f: File) returns (r: Option<State>)
    ensures r == if FileOk(f) then Some(StateOf(f)) else None
  {
    if !(f.version == 1 && f.limits.None?) && !(f.version == STATE_VERSION && f.limits.Some?) { return None; }
    if |f.days| > MAX_STORED_DAYS { return None; }
    if f.version == STATE_VERSION && !ValidLimits(f.limits.value) { return None; }
    var days := ParseDays(f.days);
    if days.None? { return None; }
    r := Some(State(if f.version == STATE_VERSION then f.limits.value else DEFAULT_LIMITS, days.value));
  }

  // -------------------------------------------------------------------- pruning

  lemma OldestUnique(days: set<Day>, d: Day, e: Day)
    requires Oldest(days, d) && Oldest(days, e)
    ensures d == e
  {
  }

  method FindOldest(days: set<Day>) returns (d: Day)
    requires days != {}
    ensures d == TheOldest(days)
  {
    d :| d in days;
    var left := days - {d};
    while left != {}
      invariant left <= days && d in days && d !in left
      invariant forall e :: e in days && e !in left ==> d == e || Before(d, e)
      decreases left
    {
      var e :| e in left;
      left := left - {e};
      if Before(e, d) { d := e; }
    }
    assert Oldest(days, d);
    OldestUnique(days, d, TheOldest(days));
  }

  method DropQuietDays(before: map<Day, DayRecord>, keep: Day) returns (days: map<Day, DayRecord>)
    ensures days == DropQuiet(before, keep)
  {
    days := before;
    var left := before.Keys;
    while left != {}
      invariant left <= before.Keys
      invariant days == map d | d in before && (d in left || d == keep || !Quiet(before[d])) :: before[d]
      decreases left
    {
      var d :| d in left;
      if d != keep && before[d].settled == 0 && before[d].reservations == map[] { days := days - {d}; }
      left := left - {d};
    }
  }

  method PruneState(s: State, keep: Day) returns (r: Option<State>)
    ensures r == Prune(s, keep)
  {
    var days := DropQuietDays(s.days, keep);
    while |days| > MAX_STORED_DAYS
      invariant DropOldest(days, keep) == DropOldest(DropQuiet(s.days, keep), keep)
      decreases |days|
    {
      var candidates := set d | d in days && d != keep && days[d].reservations == map[];
      assert candidates == Droppable(days, keep);
      if candidates == {} { return None; }
      var oldest := FindOldest(candidates);
      Shrinks(days, oldest);
      days := days - {oldest};
    }
    r := Some(s.(days := days));
  }

  // -------------------------------------------------------------------- writing

  method SerializeDay(d: Day, r: DayRecord) returns (f: FileDay)
    requires forall id :: id in r.reservations ==> r.reservations[id].id == id
    ensures f.day == d && Lists(r, f)
  {
    var items: seq<Stored> := [];
    var left := r.reservations.Keys;
    while left != {}
      invariant left <= r.reservations.Keys
      invariant ItemsDistinct(items) && ToMap(items).Keys == r.reservations.Keys - left
      invariant forall p :: 0 <= p < |items| ==> items[p].id !in left
      invariant forall id :: id in ToMap(items) ==> id in r.reservations && ToMap(items)[id] == r.reservations[id]
      decreases left
    {
      var id :| id in left;
      var more := items + [r.reservations[id]];
      assert more[..|more| - 1] == items;
      items := more;
      left := left - {id};
    }
    assert ToMap(items) == r.reservations;
    f := FileDay(d, r.settled, items);
  }

  /** The days written so far: ascending, each faithful, and all of them before what is left. */
  ghost predicate WrittenSoFar(s: State, days: seq<FileDay>, left: set<Day>) {
    && (forall i, j :: 0 <= i < j < |days| ==> Before(days[i].day, days[j].day))
    && (forall i, d :: 0 <= i < |days| && d in left ==> Before(days[i].day, d))
    && (forall d :: d in s.days && d !in left ==> ListsDay(days, d))
    && (forall i :: 0 <= i < |days| ==> days[i].day in s.days && Lists(s.days[days[i].day], days[i]))
  }

  lemma WriteOneMore(s: State, days: seq<FileDay>, left: set<Day>, day: FileDay)
    requires WrittenSoFar(s, days, left) && left <= s.days.Keys
    requires Oldest(left, day.day) && Lists(s.days[day.day], day)
    ensures WrittenSoFar(s, days + [day], left - {day.day})
  {
    var more := days + [day];
    assert more[|days|].day == day.day;
    forall d | d in s.days && d !in left - {day.day} ensures ListsDay(more, d) {
      if d != day.day {
        var i :| 0 <= i < |days| && days[i].day == d;
        assert more[i].day == d;
      }
    }
  }

  method SerializeState(s: State) returns (f: File)
    requires ValidState(s)
    ensures Serializes(s, f)
  {
    var days: seq<FileDay> := [];
    var left := s.days.Keys;
    while left != {}
      invariant left <= s.days.Keys
      invariant WrittenSoFar(s, days, left)
      decreases left
    {
      var d := FindOldest(left);
      assert Oldest(left, d) && ValidRecord(s.days[d]);
      var day := SerializeDay(d, s.days[d]);
      WriteOneMore(s, days, left, day);
      days := days + [day];
      left := left - {d};
    }
    f := File(STATE_VERSION, Some(s.limits), days);
    forall d | d in s.days ensures exists i :: 0 <= i < |f.days| && f.days[i].day == d {
      assert ListsDay(days, d);
    }
  }

  datatype Result = Unavailable | Rejected(error: Error) | Saved | NotSaved

  /** The presented reservation must be active and equal to the stored one. */
  method FindReservation(s: State, t: Ticket) returns (error: Option<Error>)
    ensures error == if Names(s, t) then None else if Found(s, t) then Some(Mismatch) else Some(UnknownReservation)
  {
    if t.day !in s.days || t.id !in s.days[t.day].reservations { return Some(UnknownReservation); }
    var stored := s.days[t.day].reservations[t.id];
    if stored.runId != t.runId || stored.reserved != t.reserved { return Some(Mismatch); }
    error := None;
  }

  class BudgetState {
    var file: Option<File>

    constructor ()
      ensures View() == Some(EmptyState)
    {
      file := None;
    }

    ghost predicate Readable()
      reads this
    {
      file.Some? ==> DistinctDays(file.value.days)
    }

    /** The state on disk, or None when the document fails a check. */
    ghost function View(): Option<State>
      reads this
    {
      if file.None? then Some(EmptyState)
      else if FileOk(file.value) then Some(StateOf(file.value)) else None
    }

    lemma ViewIsValid()
      requires Readable() && View().Some?
      ensures ValidState(View().value)
    {
      if file.Some? {
        AcceptedIsValid(file.value);
      } else {
        assert Count(map[]) == 0;
      }
    }

    method ReadState() returns (r: Option<State>)
      requires Readable()
      ensures r == View() && (r.Some? ==> ValidState(r.value))
    {
      if file.None? {
        r := Some(EmptyState);
      } else {
        r := ParseState(file.value);
      }
      if r.Some? { ViewIsValid(); }
    }

    method WriteState(s: State, writable: bool) returns (r: Result)
      requires Readable() && ValidState(s)
      modifies this
      ensures Readable()
      ensures if writable then r == Saved && file.Some? && file.value.version == STATE_VERSION && View() == Some(s)
              else r == NotSaved && file == old(file)
    {
      var f := SerializeState(s);
      WrittenReadsBack(s, f);
      if !writable { return NotSaved; }
      file := Some(f);
      r := Saved;
    }

    /** How an operation's outcome reaches the disk. */
    twostate predicate Performed(o: Outcome, writable: bool, r: Result)
      reads this
    {
      match o
      case Err(e) => r == Rejected(e) && file == old(file)
      case Ok(s) => if writable then r == Saved && View() == Some(s) else r == NotSaved && file == old(file)
    }

    method PruneAndWrite(s: State, keep: Day, writable: bool) returns (r: Result)
      requires Readable()
      requires Pruned(s, keep).Ok? ==> ValidState(Pruned(s, keep).state)
      modifies this
      ensures Readable()
      ensures Performed(Pruned(s, keep), writable, r)
    {
      var pruned := PruneState(s, keep);
      if pruned.None? { return Rejected(HistoryFull); }
      r := WriteState(pruned.value, writable);
    }

    method Reserve(t: Ticket, writable: bool) returns (r: Result)
      requires Readable()
      modifies this
      ensures Readable()
      ensures if ValidTicket(t) && old(View()).None? then r == Unavailable && file == old(file)
              else Performed(BudgetStateRules.Reserve(if old(View()).Some? then old(View()).value else EmptyState, t), writable, r)
    {
      if !ValidTicket(t) { return Rejected(Invalid); }
      var read := ReadState();
      if read.None? { return Unavailable; }
      r := ReserveIn(read.value, t, writable);
    }

    method ReserveIn(s: State, t: Ticket, writable: bool) returns (r: Result)
      requires Readable() && ValidTicket(t) && ValidState(s)
      modifies this
      ensures Readable()
      ensures Performed(BudgetStateRules.Reserve(s, t), writable, r)
    {
      var active := exists d :: d in s.days && t.id in s.days[d].reservations;
      if active { return Rejected(AlreadyActive); }
      var count := CountAll(s.days);
      if count >= MAX_ACTIVE_RESERVATIONS { return Rejected(ReservationsFull); }
      var record := if t.day in s.days then s.days[t.day] else DayRecord(0, map[]);
      var held := HeldTotal(record.reservations);
      if record.settled + held + t.reserved > MAX_STORED { return Rejected(SpendOutOfBound); }
      var next := record.(reservations := record.reservations[t.id := Stored(t.id, t.runId, t.reserved)]);
      assert BudgetStateRules.Reserve(s, t) == Pruned(s.(days := s.days[t.day := next]), t.day);
      if BudgetStateRules.Reserve(s, t).Ok? { ReserveWritesValid(s, t); }
      r := PruneAndWrite(s.(days := s.days[t.day := next]), t.day, writable);
    }

    method Settle(t: Ticket, cost: int, writable: bool) returns (r: Result)
      requires Readable()
      modifies this
      ensures Readable()
      ensures if ValidTicket(t) && 0 <= cost <= MAX_STORED && old(View()).None? then r == Unavailable && file == old(file)
              else Performed(BudgetStateRules.Settle(if old(View()).Some? then old(View()).value else EmptyState, t, cost), writable, r)
    {
      if !ValidTicket(t) || cost < 0 || cost > MAX_STORED { return Rejected(Invalid); }
      var read := ReadState();
      if read.None? { return Unavailable; }
      r := SettleIn(read.value, t, cost, writable);
    }

    method SettleIn(s: State, t: Ticket, cost: int, writable: bool) returns (r: Result)
      requires Readable() && ValidTicket(t) && 0 <= cost <= MAX_STORED && ValidState(s)
      modifies this
      ensures Readable()
      ensures Performed(BudgetStateRules.Settle(s, t, cost), writable, r)
    {
      var missing := FindReservation(s, t);
      if missing.Some? { return Rejected(missing.value); }
      var record := s.days[t.day];
      var remaining := HeldTotal(record.reservations - {t.id});
      assert remaining == HeldOn(record.reservations) - t.reserved by { AmountRemoved(record.reservations, t.id); }
      if record.settled + cost + remaining > MAX_STORED { return Rejected(SpendOutOfBound); }
      var next := Finished(s, t, cost);
      assert Pruned(next, t.day).Ok? ==> ValidState(Pruned(next, t.day).state) by {
        if Pruned(next, t.day).Ok? { FinishWritesValid(s, t, cost); }
      }
      r := PruneAndWrite(next, t.day, writable);
    }

    method Cancel(t: Ticket, writable: bool) returns (r: Result)
      requires Readable()
      modifies this
      ensures Readable()
      ensures if ValidTicket(t) && old(View()).None? then r == Unavailable && file == old(file)
              else Performed(BudgetStateRules.Cancel(if old(View()).Some? then old(View()).value else EmptyState, t), writable, r)
    {
      if !ValidTicket(t) { return Rejected(Invalid); }
      var read := ReadState();
      if read.None? { return Unavailable; }
      var s := read.value;
      var missing := FindReservation(s, t);
      if missing.Some? { return Rejected(missing.value); }
      var record := s.days[t.day];
      var next := s.(days := s.days[t.day := record.(reservations := record.reservations - {t.id})]);
      assert next == Finished(s, t, 0);
      if Pruned(next, t.day).Ok? { EveryWriteIsValid(s, DoCancel(t)); }
      r := PruneAndWrite(next, t.day, writable);
    }

    method SetLimits(l: Limits, writable: bool) returns (r: Result)
      requires Readable()
      modifies this
      ensures Readable()
      ensures if ValidLimits(l) && old(View()).None? then r == Unavailable && file == old(file)
              else Performed(BudgetStateRules.SetLimits(if old(View()).Some? then old(View()).value else EmptyState, l), writable, r)
    {
      if !ValidLimits(l) { return Rejected(Invalid); }
      var read := ReadState();
      if read.None? { return Unavailable; }
      r := WriteState(read.value.(limits := l), writable);
    }

    /** Read the day's durable spend; a version-1 document is first rewritten in the current version. */
    method TodayUsd(d: Day, writable: bool) returns (total: Option<int>)
      requires Readable()
      modifies this
      ensures Readable() && View() == old(View())
      ensures total.Some? ==> ValidDay(d) && View().Some? && total.value == TodayTotal(View().value, d)
      ensures total.None? <==> !ValidDay(d) || View().None? || (old(file).Some? && old(file).value.version == 1 && !writable)
      ensures total.Some? && file.Some? ==> file.value.version == STATE_VERSION
    {
      if !ValidDay(d) { return None; }
      var read := ReadState();
      if read.None? { return None; }
      if file.Some? && file.value.version == 1 {
        var w := WriteState(read.value, writable);
        if !writable { return None; }
      }
      if d !in read.value.days { return Some(0); }
      var held := HeldTotal(read.value.days[d].reservations);
      total := Some(read.value.days[d].settled + held);
    }
  }
}
