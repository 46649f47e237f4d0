/** When the durable file gives up the spend of a day. */
module SpendHistory {
  import opened BudgetDays
  import BudgetRules
  import Disk = BudgetStateRules
  import DiskProofs = BudgetStateProofs
  import Spend = SpendRuns

  /**
   The spend of day `d` makes room for the new day `keep`: the file is full of days that all
   carry something, `d` holds no reservation, and every older day that stays is active or new.
   */
  ghost predicate GivesWay(before: Disk.State, keep: Day, after: Disk.State, d: Day) {
    && d in before.days && d !in after.days && before.days[d].settled != 0 && before.days[d].reservations == map[]
    && keep !in before.days && |before.days| == Disk.MAX_STORED_DAYS
    && (forall e :: e in before.days ==> !Disk.Quiet(before.days[e]))
    && (forall e :: e in after.days && Before(e, d) ==> e == keep || (e in before.days && before.days[e].reservations != map[]))
  }

  lemma PutCount(days: map<Day, Disk.DayRecord>, keep: Day, r: Disk.DayRecord)
    ensures |days[keep := r]| == |days| + if keep in days then 0 else 1
  {
    var put := days[keep := r];
    assert put.Keys == days.Keys + {keep};
    if keep in days {
      assert put.Keys == days.Keys;
    }
  }

  /** Nothing is dropped that carries something unless more than the limit of such days would be stored. */
  lemma QuietCount(days: map<Day, Disk.DayRecord>, keep: Day)
    ensures |Disk.DropQuiet(days, keep)| <= |days|
    ensures |Disk.DropQuiet(days, keep)| == |days| ==> forall e :: e in days ==> e == keep || !Disk.Quiet(days[e])
  {
    var kept := Disk.DropQuiet(days, keep);
    assert kept.Keys <= days.Keys;
    SubsetSize(kept.Keys, days.Keys);
  }

  lemma {:induction false} SubsetSize(a: set<Day>, b: set<Day>)
    requires a <= b
    ensures |a| <= |b| && (|a| == |b| ==> a == b)
  {
    if a != {} {
      var x :| x in a;
      SubsetSize(a - {x}, b - {x});
      assert a == (a - {x}) + {x} && b == (b - {x}) + {x};
    }
  }

  lemma DroppedMeansFull(s: Disk.State, keep: Day, r: Disk.DayRecord, d: Day)
    requires |s.days| <= Disk.MAX_STORED_DAYS && d in s.days && !Disk.Quiet(s.days[d])
    requires Disk.Prune(s.(days := s.days[keep := r]), keep).Some?
    requires d !in Disk.Prune(s.(days := s.days[keep := r]), keep).value.days
    ensures GivesWayDays(s.days, keep, r, d)
  {
    var put := s.days[keep := r];
    DiskProofs.PruneKeeps(s.(days := put), keep);
    assert d in Disk.DropQuiet(put, keep);
    PutCount(s.days, keep, r);
    QuietCount(put, keep);
    assert |Disk.DropQuiet(put, keep)| > Disk.MAX_STORED_DAYS;
    assert |Disk.DropQuiet(put, keep)| == |put|;
    forall e | e in s.days ensures !Disk.Quiet(s.days[e]) {
      assert e in put && put[e] == s.days[e];
    }
  }

  /** The file was full of days that carry something, and the write is for a new one. */
  ghost predicate GivesWayDays(days: map<Day, Disk.DayRecord>, keep: Day, r: Disk.DayRecord, d: Day) {
    && keep !in days && |days| == Disk.MAX_STORED_DAYS && d != keep
    && (forall e :: e in days ==> !Disk.Quiet(days[e]))
    && (d in days ==> days[d].reservations == map[])
  }

  lemma OlderStayActive(s: Disk.State, keep: Day, r: Disk.DayRecord, d: Day, e: Day)
    requires keep !in s.days && d in s.days && !Disk.Quiet(s.days[d])
    requires Disk.Prune(s.(days := s.days[keep := r]), keep).Some?
    requires var after := Disk.Prune(s.(days := s.days[keep := r]), keep).value;
      d !in after.days && e in after.days && Before(e, d)
    ensures e == keep || (e in s.days && s.days[e].reservations != map[])
  {
    var put := s.days[keep := r];
    DiskProofs.PruneKeeps(s.(days := put), keep);
    DiskProofs.DropOldestKeeps(Disk.DropQuiet(put, keep), keep);
    DiskProofs.DropsOldestFirst(Disk.DropQuiet(put, keep), keep, d, e);
  }

  lemma DropGivesWay(s: Disk.State, keep: Day, r: Disk.DayRecord, d: Day)
    requires |s.days| <= Disk.MAX_STORED_DAYS && d in s.days && s.days[d].settled != 0
    requires Disk.Prune(s.(days := s.days[keep := r]), keep).Some?
    requires d !in Disk.Prune(s.(days := s.days[keep := r]), keep).value.days
    ensures GivesWay(s, keep, Disk.Prune(s.(days := s.days[keep := r]), keep).value, d)
  {
    DroppedMeansFull(s, keep, r, d);
    forall e | e in Disk.Prune(s.(days := s.days[keep := r]), keep).value.days && Before(e, d)
      ensures e == keep || (e in s.days && s.days[e].reservations != map[])
    {
      OlderStayActive(s, keep, r, d, e);
    }
  }

  /** One step: spend is only lost to a reservation for a new day. */
  ghost predicate LosesAt(s: Spend.Sys, st: Spend.Step, d: Day) {
    && Spend.EnabledStep(s, st) && st.Reserve? && Spend.HookOk(s, st)
    && GivesWay(s.disk, Spend.Built(s, st).value.day, Spend.NextSys(s, st).disk, d)
  }

  lemma FinishLosesNothing(s: Spend.Sys, st: Spend.Step)
    requires Spend.SysInv(s) && Spend.EnabledStep(s, st) && (st.Settle? || st.Cancel?) && Spend.HookOk(s, st)
    ensures Spend.Dropped(s.disk, Spend.HookOutcome(s, st).state) == {}
  {
    var t := Spend.TicketOf(st.r);
    var r := Disk.Finished(s.disk, t, if st.Settle? then BudgetRules.CostOf(st.usage) else 0).days[t.day];
    forall d | d in Spend.Dropped(s.disk, Spend.HookOutcome(s, st).state) ensures false {
      DropGivesWay(s.disk, t.day, r, d);
    }
  }

  lemma ReserveLoses(s: Spend.Sys, st: Spend.Step, d: Day)
    requires Spend.SysInv(s) && Spend.EnabledStep(s, st) && st.Reserve? && Spend.HookOk(s, st) && d in Spend.Dropped(s.disk, Spend.HookOutcome(s, st).state)
    ensures LosesAt(s, st, d)
  {
    DiskReserveLoses(s.disk, Spend.TicketOf(Spend.Built(s, st).value), d);
  }

  lemma DiskReserveLoses(s: Disk.State, t: Disk.Ticket, d: Day)
    requires |s.days| <= Disk.MAX_STORED_DAYS && Disk.Reserve(s, t).Ok? && d in Spend.Dropped(s, Disk.Reserve(s, t).state)
    ensures GivesWay(s, t.day, Disk.Reserve(s, t).state, d)
  {
    var r := Disk.RecordAt(s, t.day);
    DropGivesWay(s, t.day, r.(reservations := r.reservations[t.id := Disk.Stored(t.id, t.runId, t.reserved)]), d);
  }

  lemma LostNow(s: Spend.Sys, st: Spend.Step, d: Day)
    requires Spend.SysInv(s) && Spend.EnabledStep(s, st) && d !in s.lost && d in Spend.NextSys(s, st).lost
    ensures LosesAt(s, st, d)
  {
    if st.Settle? || st.Cancel? {
      if Spend.HookOk(s, st) { FinishLosesNothing(s, st); }
    } else {
      ReserveLoses(s, st, d);
    }
  }

  ghost predicate LosesInRun(steps: seq<Spend.Step>, k: nat, d: Day)
    requires k < |steps|
  {
    Spend.ExecSys(steps[..k]).Some? && LosesAt(Spend.ExecSys(steps[..k]).value, steps[k], d)
  }

  lemma LosesInLonger(steps: seq<Spend.Step>, n: nat, k: nat, d: Day)
    requires k < n <= |steps| && LosesInRun(steps[..n], k, d)
    ensures LosesInRun(steps, k, d)
  {
    assert steps[..n][..k] == steps[..k];
  }

  /**
   A day is lost only at a write that reserves for a new day while the file is full: the
   32 days listed all carry something, the lost one has nothing reserved, and every older
   day that stays has.
   */
  lemma {:induction false} LostOnlyToANewDay(steps: seq<Spend.Step>, d: Day) returns (k: nat)
    requires Spend.ExecSys(steps).Some? && d in Spend.ExecSys(steps).value.lost
    ensures k < |steps| && LosesInRun(steps, k, d)
  {
    var n := |steps| - 1;
    var s := Spend.ExecSys(steps[..n]).value;
    if d in s.lost {
      k := LostOnlyToANewDay(steps[..n], d);
      LosesInLonger(steps, n, k, d);
    } else {
      Spend.SysInvAlways(steps[..n]);
      LostNow(s, steps[n], d);
      k := n;
    }
  }
}
