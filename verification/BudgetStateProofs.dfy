/**
 What is durable survives: every state an operation writes passes all the checks
 of the reader and reads back as itself, and a reservation leaves the state only
 by a settle or cancel that names it exactly.
 */
module BudgetStateProofs {
  import opened Sums
  import opened BudgetDays
  import opened BudgetStateRules

  // -------------------------------------------------- documents read as written

  ghost predicate ListsId(items: seq<Stored>, id: string) {
    exists p :: 0 <= p < |items| && items[p].id == id
  }

  lemma {:induction false} ToMapOnly(items: seq<Stored>, id: string)
    requires id in ToMap(items)
    ensures ListsId(items, id)
  {
    var n := |items| - 1;
    if items[n].id != id {
      ToMapOnly(items[..n], id);
      var p :| 0 <= p < n && items[..n][p].id == id;
      assert items[p].id == id;
    }
  }

  lemma {:induction false} ToMapHas(items: seq<Stored>, p: nat)
    requires ItemsDistinct(items) && p < |items|
    ensures items[p].id in ToMap(items) && ToMap(items)[items[p].id] == items[p]
  {
    var n := |items| - 1;
    if p < n {
      ToMapHas(items[..n], p);
    }
  }

  lemma {:induction false} ToMapSize(items: seq<Stored>)
    requires ItemsDistinct(items)
    ensures |ToMap(items)| == |items|
  {
    if items != [] {
      var n := |items| - 1;
      var before, last := items[..n], items[n];
      ToMapSize(before);
      if last.id in ToMap(before) {
        ToMapOnly(before, last.id);
      }
      assert ToMap(items).Keys == ToMap(before).Keys + {last.id};
    }
  }

  ghost predicate ListsDay(days: seq<FileDay>, d: Day) {
    exists i :: 0 <= i < |days| && days[i].day == d
  }

  lemma {:induction false} DaysOfOnly(days: seq<FileDay>, d: Day)
    requires d in DaysOf(days)
    ensures ListsDay(days, d)
  {
    var n := |days| - 1;
    if days[n].day != d {
      DaysOfOnly(days[..n], d);
      var i :| 0 <= i < n && days[..n][i].day == d;
      assert days[i].day == d;
    }
  }

  lemma {:induction false} DaysOfHas(days: seq<FileDay>, i: nat)
    requires DistinctDays(days) && i < |days|
    ensures days[i].day in DaysOf(days) && DaysOf(days)[days[i].day] == RecordOf(days[i])
  {
    var n := |days| - 1;
    if i < n {
      DaysOfHas(days[..n], i);
    }
  }

  lemma {:induction false} DaysOfSize(days: seq<FileDay>)
    requires DistinctDays(days)
    ensures |DaysOf(days)| == |days|
  {
    if days != [] {
      var n := |days| - 1;
      var before, last := days[..n], days[n];
      DaysOfSize(before);
      if last.day in DaysOf(before) {
        DaysOfOnly(before, last.day);
      }
      assert DaysOf(days).Keys == DaysOf(before).Keys + {last.day};
    }
  }

  lemma {:induction false} CountItems(days: seq<FileDay>)
    requires DistinctDays(days)
    requires forall i :: 0 <= i < |days| ==> ItemsDistinct(days[i].reservations)
    ensures Count(DaysOf(days)) == ItemCount(days)
  {
    if days != [] {
      var n := |days| - 1;
      var before, last := days[..n], days[n];
      CountItems(before);
      if last.day in DaysOf(before) {
        DaysOfOnly(before, last.day);
      }
      ToMapSize(last.reservations);
      CountPut(DaysOf(before), last.day, RecordOf(last));
    }
  }

  /** Every record read is a valid record. */
  lemma RecordsRead(f: File, d: Day)
    requires DistinctDays(f.days) && FileOk(f) && d in DaysOf(f.days)
    ensures ValidDay(d) && ValidRecord(DaysOf(f.days)[d])
  {
    DaysOfOnly(f.days, d);
    var i :| 0 <= i < |f.days| && f.days[i].day == d;
    DaysOfHas(f.days, i);
    assert FileDayOk(f.days[i]);
    var items := f.days[i].reservations;
    forall id | id in ToMap(items) ensures ToMap(items)[id].id == id && ValidStored(ToMap(items)[id]) {
      ToMapOnly(items, id);
      var p :| 0 <= p < |items| && items[p].id == id;
      ToMapHas(items, p);
    }
  }

  lemma IdsRead(f: File, d: Day, e: Day, id: string)
    requires DistinctDays(f.days) && AllDistinct(f.days)
    requires d in DaysOf(f.days) && e in DaysOf(f.days)
    requires id in DaysOf(f.days)[d].reservations && id in DaysOf(f.days)[e].reservations
    ensures d == e
  {
    DaysOfOnly(f.days, d);
    DaysOfOnly(f.days, e);
    var i :| 0 <= i < |f.days| && f.days[i].day == d;
    var j :| 0 <= j < |f.days| && f.days[j].day == e;
    DaysOfHas(f.days, i);
    DaysOfHas(f.days, j);
    ToMapOnly(f.days[i].reservations, id);
    ToMapOnly(f.days[j].reservations, id);
  }

  /** Accepting a document yields a valid state. */
  lemma AcceptedIsValid(f: File)
    requires DistinctDays(f.days) && FileOk(f)
    ensures ValidState(StateOf(f))
  {
    DaysOfSize(f.days);
    CountItems(f.days);
    var days := DaysOf(f.days);
    forall d | d in days ensures ValidDay(d) && ValidRecord(days[d]) {
      RecordsRead(f, d);
    }
    forall d, e, id | d in days && e in days && id in days[d].reservations && id in days[e].reservations ensures d == e {
      IdsRead(f, d, e, id);
    }
  }

  lemma SerializedDay(s: State, f: File, d: Day)
    requires Serializes(s, f) && d in s.days
    ensures d in DaysOf(f.days) && DaysOf(f.days)[d] == s.days[d]
  {
    var i :| 0 <= i < |f.days| && f.days[i].day == d;
    DaysOfHas(f.days, i);
    assert Lists(s.days[d], f.days[i]);
  }

  lemma SerializedDays(s: State, f: File)
    requires Serializes(s, f)
    ensures DistinctDays(f.days) && DaysOf(f.days) == s.days
  {
    forall d | d in s.days ensures d in DaysOf(f.days) && DaysOf(f.days)[d] == s.days[d] {
      SerializedDay(s, f, d);
    }
    forall d | d in DaysOf(f.days) ensures d in s.days {
      DaysOfOnly(f.days, d);
    }
  }

  lemma WrittenDayOk(s: State, f: File, i: nat)
    requires ValidState(s) && Serializes(s, f) && i < |f.days|
    ensures FileDayOk(f.days[i])
  {
    var fd := f.days[i];
    assert Lists(s.days[fd.day], fd) && RecordOf(fd) == s.days[fd.day];
    assert ValidRecord(s.days[fd.day]);
    forall p | 0 <= p < |fd.reservations| ensures ValidStored(fd.reservations[p]) {
      ToMapHas(fd.reservations, p);
    }
  }

  lemma WrittenIdsDistinct(s: State, f: File, i: nat, j: nat, p: nat, q: nat)
    requires ValidState(s) && Serializes(s, f) && i < j < |f.days|
    requires p < |f.days[i].reservations| && q < |f.days[j].reservations|
    ensures f.days[i].reservations[p].id != f.days[j].reservations[q].id
  {
    assert Lists(s.days[f.days[i].day], f.days[i]) && Lists(s.days[f.days[j].day], f.days[j]);
    ToMapHas(f.days[i].reservations, p);
    ToMapHas(f.days[j].reservations, q);
  }

  lemma WrittenAllDistinct(s: State, f: File)
    requires ValidState(s) && Serializes(s, f)
    requires forall i :: 0 <= i < |f.days| ==> ItemsDistinct(f.days[i].reservations)
    ensures AllDistinct(f.days)
  {
    forall i, j, p, q | 0 <= i < j < |f.days| && 0 <= p < |f.days[i].reservations| && 0 <= q < |f.days[j].reservations|
      ensures f.days[i].reservations[p].id != f.days[j].reservations[q].id
    {
      WrittenIdsDistinct(s, f, i, j, p, q);
    }
  }

  /** A valid state, written, passes every check of the reader and reads back as itself. */
  lemma WrittenReadsBack(s: State, f: File)
    requires ValidState(s) && Serializes(s, f)
    ensures DistinctDays(f.days) && FileOk(f) && StateOf(f) == s
  {
    SerializedDays(s, f);
    DaysOfSize(f.days);
    forall i | 0 <= i < |f.days| ensures FileDayOk(f.days[i]) && ItemsDistinct(f.days[i].reservations) {
      WrittenDayOk(s, f, i);
    }
    CountItems(f.days);
    WrittenAllDistinct(s, f);
  }

  // -------------------------------------------------------- totals under change

  lemma AmountAdded(m: map<string, Stored>, item: Stored)
    requires item.id !in m
    ensures HeldOn(m[item.id := item]) == HeldOn(m) + item.reserved
  {
    var m' := m[item.id := item];
    Pick(m'.Keys, id => Amount(m', id), item.id);
    assert m'.Keys - {item.id} == m.Keys;
    Same(m.Keys, id => Amount(m', id), id => Amount(m, id));
  }

  lemma AmountRemoved(m: map<string, Stored>, id: string)
    requires id in m
    ensures HeldOn(m - {id}) == HeldOn(m) - m[id].reserved
  {
    var m' := m - {id};
    Pick(m.Keys, i => Amount(m, i), id);
    assert m'.Keys == m.Keys - {id};
    Same(m'.Keys, i => Amount(m', i), i => Amount(m, i));
  }

  lemma CountPut(days: map<Day, DayRecord>, d: Day, r: DayRecord)
    ensures Count(days[d := r]) == Count(days) - CountOn(days, d) + |r.reservations|
  {
    var days' := days[d := r];
    Pick(days'.Keys, e => CountOn(days', e), d);
    if d in days {
      Pick(days.Keys, e => CountOn(days, e), d);
    } else {
      assert days.Keys - {d} == days.Keys;
    }
    assert days'.Keys - {d} == days.Keys - {d};
    Same(days.Keys - {d}, e => CountOn(days', e), e => CountOn(days, e));
  }

  /** Keeping some of the days keeps the count no larger. */
  lemma CountSub(days: map<Day, DayRecord>, kept: map<Day, DayRecord>)
    requires kept.Keys <= days.Keys && forall d :: d in kept ==> kept[d] == days[d]
    ensures Count(kept) <= Count(days)
  {
    Same(kept.Keys, d => CountOn(kept, d), d => CountOn(days, d));
    Subset(kept.Keys, days.Keys, d => CountOn(days, d));
  }

  // -------------------------------------------------------------------- pruning

  /** Pruning only removes days that hold no reservation, and never the protected day. */
  lemma {:induction false} DropOldestKeeps(days: map<Day, DayRecord>, keep: Day)
    requires DropOldest(days, keep).Some?
    ensures var k := DropOldest(days, keep).value;
      && |k| <= MAX_STORED_DAYS && k.Keys <= days.Keys
      && (forall d :: d in k ==> k[d] == days[d])
      && (forall d :: d in days && d !in k ==> d != keep && days[d].reservations == map[])
    decreases |days|
  {
    if |days| > MAX_STORED_DAYS {
      var d := TheOldest(Droppable(days, keep));
      Shrinks(days, d);
      DropOldestKeeps(days - {d}, keep);
    }
  }

  /** A day with spend is dropped only after every older day that could be dropped. */
  lemma {:induction false} DropsOldestFirst(days: map<Day, DayRecord>, keep: Day, d: Day, e: Day)
    requires DropOldest(days, keep).Some?
    requires d in days && d !in DropOldest(days, keep).value
    requires e in days && e in DropOldest(days, keep).value && Before(e, d)
    ensures e == keep || days[e].reservations != map[]
    decreases |days|
  {
    if |days| > MAX_STORED_DAYS {
      var o := TheOldest(Droppable(days, keep));
      Shrinks(days, o);
      DropOldestKeeps(days - {o}, keep);
      if o != d {
        DropsOldestFirst(days - {o}, keep, d, e);
      } else {
        assert e !in Droppable(days, keep);
      }
    }
  }

  lemma PruneKeeps(s: State, keep: Day)
    requires Prune(s, keep).Some?
    ensures var p := Prune(s, keep).value;
      && p.limits == s.limits && |p.days| <= MAX_STORED_DAYS && p.days.Keys <= s.days.Keys
      && (forall d :: d in p.days ==> p.days[d] == s.days[d])
      && (forall d :: d in s.days && d !in p.days ==> d != keep && s.days[d].reservations == map[])
  {
    DropOldestKeeps(DropQuiet(s.days, keep), keep);
  }

  lemma PruneKeepsValid(s: State, keep: Day)
    requires ValidLimits(s.limits) && ValidDays(s.days) && Prune(s, keep).Some?
    ensures ValidState(Prune(s, keep).value)
  {
    PruneKeeps(s, keep);
    CountSub(s.days, Prune(s, keep).value.days);
  }

  // ------------------------------------------------- every write is a valid state

  lemma PutKeepsDistinct(s: State, d: Day, r: DayRecord)
    requires IdsDistinct(s.days)
    requires forall id :: id in r.reservations ==>
      (d in s.days && id in s.days[d].reservations) || !ActiveSomewhere(s, id)
    ensures IdsDistinct(s.days[d := r])
  {
    var days := s.days[d := r];
    forall a, b, id | a in days && b in days && id in days[a].reservations && id in days[b].reservations ensures a == b {
      if a == d && b != d { assert id in s.days[b].reservations; }
      if b == d && a != d { assert id in s.days[a].reservations; }
    }
  }

  lemma PutKeepsValid(s: State, d: Day, r: DayRecord)
    requires ValidState(s) && ValidDay(d) && ValidRecord(r)
    requires forall id :: id in r.reservations ==>
      (d in s.days && id in s.days[d].reservations) || !ActiveSomewhere(s, id)
    requires Count(s.days) - CountOn(s.days, d) + |r.reservations| <= MAX_ACTIVE_RESERVATIONS
    ensures ValidDays(s.days[d := r])
  {
    CountPut(s.days, d, r);
    PutKeepsDistinct(s, d, r);
  }

  lemma NewRecord(r: DayRecord, item: Stored)
    requires ValidRecord(r) && ValidStored(item) && item.id !in r.reservations
    requires RecordTotal(r) + item.reserved <= MAX_STORED
    ensures ValidRecord(r.(reservations := r.reservations[item.id := item]))
    ensures |r.reservations[item.id := item]| == |r.reservations| + 1
  {
    AmountAdded(r.reservations, item);
    assert r.reservations[item.id := item].Keys == r.reservations.Keys + {item.id};
  }

  lemma ReserveWritesValid(s: State, t: Ticket)
    requires ValidState(s) && Reserve(s, t).Ok?
    ensures ValidState(Reserve(s, t).state)
  {
    var r := RecordAt(s, t.day);
    var item := Stored(t.id, t.runId, t.reserved);
    var r' := r.(reservations := r.reservations[t.id := item]);
    assert ValidRecord(r);
    NewRecord(r, item);
    PutKeepsValid(s, t.day, r');
    PruneKeepsValid(s.(days := s.days[t.day := r']), t.day);
  }

  lemma FinishRecord(r: DayRecord, id: string, cost: int)
    requires ValidRecord(r) && id in r.reservations && cost >= 0
    requires RecordTotal(r) + cost - r.reservations[id].reserved <= MAX_STORED
    ensures ValidRecord(DayRecord(r.settled + cost, r.reservations - {id}))
    ensures |r.reservations - {id}| <= |r.reservations|
  {
    AmountRemoved(r.reservations, id);
    var left := r.reservations - {id};
    assert left.Keys == r.reservations.Keys - {id};
    forall i | i in left.Keys ensures 0 <= Amount(left, i) {
      assert ValidStored(r.reservations[i]);
    }
    NonNegative(left.Keys, i => Amount(left, i));
  }

  lemma FinishWritesValid(s: State, t: Ticket, cost: int)
    requires ValidState(s) && Names(s, t) && cost >= 0
    requires RecordTotal(s.days[t.day]) + cost - t.reserved <= MAX_STORED
    requires Prune(Finished(s, t, cost), t.day).Some?
    ensures ValidState(Prune(Finished(s, t, cost), t.day).value)
  {
    assert ValidRecord(s.days[t.day]);
    FinishRecord(s.days[t.day], t.id, cost);
    PutKeepsValid(s, t.day, Finished(s, t, cost).days[t.day]);
    PruneKeepsValid(Finished(s, t, cost), t.day);
  }

  datatype Op = DoReserve(t: Ticket) | DoSettle(t: Ticket, cost: int) | DoCancel(t: Ticket) | DoSetLimits(l: Limits)

  ghost function Apply(s: State, op: Op): Outcome {
    match op
    case DoReserve(t) => Reserve(s, t)
    case DoSettle(t, cost) => Settle(s, t, cost)
    case DoCancel(t) => Cancel(s, t)
    case DoSetLimits(l) => SetLimits(s, l)
  }

  /** Every operation that writes, writes a valid state. */
  lemma EveryWriteIsValid(s: State, op: Op)
    requires ValidState(s) && Apply(s, op).Ok?
    ensures ValidState(Apply(s, op).state)
  {
    match op
    case DoReserve(t) => ReserveWritesValid(s, t);
    case DoSettle(t, cost) => FinishWritesValid(s, t, cost);
    case DoCancel(t) =>
      assert ValidRecord(s.days[t.day]) && ValidStored(s.days[t.day].reservations[t.id]);
      FinishWritesValid(s, t, 0);
    case DoSetLimits(l) =>
  }

  /** The reservation `id` of day d is active with exactly these contents. */
  predicate Active(s: State, d: Day, id: string, item: Stored) {
    d in s.days && id in s.days[d].reservations && s.days[d].reservations[id] == item
  }

  lemma PrunedKeepsActive(s: State, keep: Day, d: Day, id: string, item: Stored)
    requires Prune(s, keep).Some?
    ensures Active(Prune(s, keep).value, d, id, item) <==> Active(s, d, id, item)
  {
    PruneKeeps(s, keep);
  }

  predicate NamedBy(t: Ticket, d: Day, id: string, item: Stored) {
    t == Ticket(id, item.runId, d, item.reserved)
  }

  lemma FinishEndsOnlyNamed(s: State, t: Ticket, cost: int, d: Day, id: string, item: Stored)
    requires Names(s, t) && Active(s, d, id, item)
    requires Prune(Finished(s, t, cost), t.day).Some?
    ensures Active(Prune(Finished(s, t, cost), t.day).value, d, id, item)
       <==> !NamedBy(t, d, id, item)
  {
    PrunedKeepsActive(Finished(s, t, cost), t.day, d, id, item);
  }

  lemma ReserveEndsNothing(s: State, t: Ticket, d: Day, id: string, item: Stored)
    requires Reserve(s, t).Ok? && Active(s, d, id, item)
    ensures Active(Reserve(s, t).state, d, id, item)
  {
    var r := RecordAt(s, t.day);
    PrunedKeepsActive(s.(days := s.days[t.day := r.(reservations := r.reservations[t.id := Stored(t.id, t.runId, t.reserved)])]),
                      t.day, d, id, item);
  }

  /** An active reservation leaves the state only by a settle or cancel that names it exactly. */
  lemma ReservationsNeverVanish(s: State, op: Op, d: Day, id: string, item: Stored)
    requires Apply(s, op).Ok? && Active(s, d, id, item)
    ensures Active(Apply(s, op).state, d, id, item) <==> !((op.DoSettle? || op.DoCancel?) && NamedBy(op.t, d, id, item))
  {
    match op
    case DoReserve(t) => ReserveEndsNothing(s, t, d, id, item);
    case DoSettle(t, cost) => FinishEndsOnlyNamed(s, t, cost, d, id, item);
    case DoCancel(t) => FinishEndsOnlyNamed(s, t, 0, d, id, item);
    case DoSetLimits(l) =>
  }

  /** Reading a document, applying one operation and writing the result yields a document that reads as the result. */
  lemma OperationRoundTrip(f: File, op: Op, g: File)
    requires DistinctDays(f.days) && FileOk(f)
    requires Apply(StateOf(f), op).Ok? && Serializes(Apply(StateOf(f), op).state, g)
    ensures DistinctDays(g.days) && FileOk(g) && StateOf(g) == Apply(StateOf(f), op).state
  {
    AcceptedIsValid(f);
    EveryWriteIsValid(StateOf(f), op);
    WrittenReadsBack(Apply(StateOf(f), op).state, g);
  }

  /** Migrating a version-1 document writes a current document with the same days and the default limits. */
  lemma MigrationRoundTrip(f: File, g: File)
    requires DistinctDays(f.days) && FileOk(f) && f.version == 1 && Serializes(StateOf(f), g)
    ensures FileOk(g) && g.version == STATE_VERSION && StateOf(g) == State(DEFAULT_LIMITS, DaysOf(f.days))
  {
    AcceptedIsValid(f);
    WrittenReadsBack(StateOf(f), g);
  }
}
