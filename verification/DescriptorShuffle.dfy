/**
 Moving three pipe ends to requested descriptor numbers. Every source is duplicated away
 from all the requested numbers first, so whatever order they overlap in, writing one
 number never destroys an end that is still to be moved.
 */
module DescriptorShuffle {
  import opened Prelude

  const LIFECYCLE_FD_MIN: int := 3
  const INT_MAX: int := 0x7FFF_FFFF

  /** An open descriptor: the open file it refers to, and whether exec closes it. */
  datatype Descriptor = Descriptor(file: nat, cloexec: bool)

  type Table = map<int, Descriptor>

  datatype Targets = Targets(info: int, status: int, block: int)

  predicate IsTarget(fd: int, t: Targets) {
    fd == t.info || fd == t.status || fd == t.block
  }

  predicate DistinctTargets(t: Targets) {
    t.info != t.status && t.info != t.block && t.status != t.block
  }

  predicate FreeFor(table: Table, limit: int, t: Targets, n: int) {
    LIFECYCLE_FD_MIN <= n < limit && n !in table && !IsTarget(n, t)
  }

  /** Three numbers are free for the duplicates. */
  ghost predicate Room(table: Table, limit: int, t: Targets) {
    exists a, b, c :: a < b < c && FreeFor(table, limit, t, a) && FreeFor(table, limit, t, b) && FreeFor(table, limit, t, c)
  }

  /** The file is open at this number and at no other. */
  ghost predicate OnlyAt(table: Table, file: nat, fd: int) {
    fd in table && table[fd].file == file && forall other :: other in table && other != fd ==> table[other].file != file
  }

  /** The descriptors of one process, with the lowest number it may not use. */
  class Descriptors {
    var table: Table
    const limit: int

    ghost predicate Valid()
      reads this
    {
      limit <= INT_MAX + 1 && forall fd :: fd in table ==> 0 <= fd < limit
    }

    constructor (table: Table, limit: int)
      requires limit <= INT_MAX + 1 && forall fd :: fd in table ==> 0 <= fd < limit
      ensures Valid() && this.table == table && this.limit == limit
    {
      this.table, this.limit := table, limit;
    }

    method Close(fd: int)
      requires Valid()
      modifies this
      ensures Valid() && table == old(table) - {fd}
    {
      table := table - {fd};
    }

    /** The lowest free number from `minimum` on, closed on exec; -1 without one. */
    method DupAbove(fd: int, minimum: int) returns (duplicate: int)
      requires Valid() && minimum >= 0
      modifies this
      ensures Valid()
      ensures duplicate < 0 ==> table == old(table)
      ensures duplicate < 0 ==> fd !in old(table) || forall n :: minimum <= n < limit ==> n in old(table)
      ensures duplicate >= 0 ==> fd in old(table) && minimum <= duplicate < limit && duplicate !in old(table)
      ensures duplicate >= 0 ==> table == old(table)[duplicate := Descriptor(old(table)[fd].file, true)]
      ensures duplicate >= 0 ==> forall n :: minimum <= n < duplicate ==> n in old(table)
    {
      if fd !in table { return -1; }
      duplicate := minimum;
      while duplicate < limit && duplicate in table
        invariant minimum <= duplicate && forall n :: minimum <= n < duplicate ==> n in table
      {
        duplicate := duplicate + 1;
      }
      if duplicate >= limit { return -1; }
      table := table[duplicate := Descriptor(table[fd].file, true)];
    }

    /** Make `target` refer to the file of `fd`, kept open on exec. */
    method Dup2(fd: int, target: int) returns (ok: bool)
      requires Valid()
      modifies this
      ensures Valid()
      ensures ok <==> fd in old(table) && 0 <= target < limit
      ensures table == (if ok && fd != target then old(table)[target := Descriptor(old(table)[fd].file, false)] else old(table))
    {
      ok := fd in table && 0 <= target < limit;
      if ok && fd != target {
        table := table[target := Descriptor(table[fd].file, false)];
      }
    }

    /** A duplicate on a number that is no target; anything tried on the way is closed again. */
    method DuplicateAway(fd: int, t: Targets) returns (safe: int)
      requires Valid()
      modifies this
      ensures Valid()
      ensures safe < 0 ==> table == old(table)
      ensures safe < 0 ==> fd !in old(table) || forall n :: !FreeFor(old(table), limit, t, n)
      ensures safe >= 0 ==> fd in old(table) && LIFECYCLE_FD_MIN <= safe < limit && safe !in old(table) && !IsTarget(safe, t)
      ensures safe >= 0 ==> table == old(table)[safe := Descriptor(old(table)[fd].file, true)]
    {
      var minimum := LIFECYCLE_FD_MIN;
      while true
        invariant Valid() && minimum >= LIFECYCLE_FD_MIN && table == old(table)
        invariant forall n :: LIFECYCLE_FD_MIN <= n < minimum ==> n in table || IsTarget(n, t)
        decreases limit - minimum
      {
        var duplicate := DupAbove(fd, minimum);
        if duplicate < 0 { return -1; }
        if !IsTarget(duplicate, t) { return duplicate; }
        Close(duplicate);
        assert table == old(table);
        if duplicate == INT_MAX { return -1; }
        minimum := duplicate + 1;
      }
    }

    method CloseSourceIfNotTarget(fd: int, t: Targets)
      requires Valid()
      modifies this
      ensures Valid() && table == (if IsTarget(fd, t) then old(table) else old(table) - {fd})
    {
      if fd >= 0 && !IsTarget(fd, t) {
        Close(fd);
      }
      assert table == old(table) - {fd} || IsTarget(fd, t);
    }

    /** Duplicate the three sources away, or give up with nothing changed. */
    method DuplicateAll(info: int, status: int, block: int, t: Targets) returns (safe: Option<Targets>)
      requires Valid() && info in table && status in table && block in table
      modifies this
      ensures Valid()
      ensures safe.None? ==> table == old(table) && !Room(old(table), limit, t)
      ensures safe.Some? ==> Duplicated(old(table), info, status, block, t, safe.value, table)
      ensures safe.Some? ==> Room(old(table), limit, t)
    {
      var safeInfo := DuplicateAway(info, t);
      if safeInfo < 0 { return None; }
      var safeStatus := DuplicateAway(status, t);
      if safeStatus < 0 {
        NoRoomLeft(old(table), table, limit, t, safeInfo, safeInfo);
        Close(safeInfo);
        assert table == old(table);
        return None;
      }
      var safeBlock := DuplicateAway(block, t);
      if safeBlock < 0 {
        NoRoomLeft(old(table), table, limit, t, safeInfo, safeStatus);
        Close(safeInfo);
        Close(safeStatus);
        assert table == old(table);
        return None;
      }
      safe := Some(Targets(safeInfo, safeStatus, safeBlock));
      RoomFor(old(table), limit, t, safeInfo, safeStatus, safeBlock);
    }

    /** Write the requested numbers one after another, as far as that goes. */
    method WriteTargets(safe: Targets, t: Targets) returns (ok: bool)
      requires Valid() && DistinctTargets(t) && safe.info in table && safe.status in table && safe.block in table
      requires !IsTarget(safe.info, t) && !IsTarget(safe.status, t) && !IsTarget(safe.block, t)
      modifies this
      ensures Valid()
      ensures ok ==> Written(old(table), safe, t, table)
      ensures ok <==> 0 <= t.info < limit && 0 <= t.status < limit && 0 <= t.block < limit
      ensures forall fd :: !IsTarget(fd, t) ==> SameAt(old(table), table, fd)
    {
      ok := Dup2(safe.info, t.info);
      if !ok { return; }
      ok := Dup2(safe.status, t.status);
      if !ok { return; }
      ok := Dup2(safe.block, t.block);
    }

    /** Close the duplicates, and the sources that are not themselves targets. */
    method CloseAll(safe: Targets, info: int, status: int, block: int, t: Targets)
      requires Valid()
      modifies this
      ensures Valid()
      ensures forall fd :: if ClosedAfter(fd, safe, info, status, block, t) then fd !in table else SameAt(old(table), table, fd)
    {
      Close(safe.info);
      Close(safe.status);
      Close(safe.block);
      CloseSourceIfNotTarget(info, t);
      CloseSourceIfNotTarget(status, t);
      CloseSourceIfNotTarget(block, t);
    }

    /**
     Move the three pipe ends. It succeeds exactly when three numbers are free for the
     duplicates and the targets are in range. On success each is open at exactly its own target and
     nowhere else, kept open on exec; nothing but the targets and the sources has changed.
     */
    method InstallLifecycleFds(info: int, status: int, block: int, t: Targets) returns (ok: bool)
      requires Valid() && DistinctTargets(t) && info in table && status in table && block in table
      requires OnlyAt(table, table[info].file, info)
      requires OnlyAt(table, table[status].file, status)
      requires OnlyAt(table, table[block].file, block)
      requires info != status && info != block && status != block
      modifies this
      ensures Valid()
      ensures ok <==> Room(old(table), limit, t) && 0 <= t.info < limit && 0 <= t.status < limit && 0 <= t.block < limit
      ensures ok ==> MovedTo(old(table), table, info, t.info)
      ensures ok ==> MovedTo(old(table), table, status, t.status)
      ensures ok ==> MovedTo(old(table), table, block, t.block)
      ensures forall fd :: !IsTarget(fd, t) && fd != info && fd != status && fd != block ==> SameAt(old(table), table, fd)
    {
      var safe := DuplicateAll(info, status, block, t);
      if safe.None? { return false; }
      ghost var duplicated := table;
      ok := WriteTargets(safe.value, t);
      ghost var written := table;
      CloseAll(safe.value, info, status, block, t);
      forall fd | !IsTarget(fd, t) && fd != info && fd != status && fd != block ensures SameAt(old(table), table, fd) {
        assert SameAt(duplicated, written, fd);
        assert !IsTarget(fd, safe.value) ==> SameAt(written, table, fd);
      }
      if ok {
        ShuffleMoves(old(table), info, status, block, t, safe.value, duplicated, written, table);
      }
    }
  }

  /** When two numbers taken leave none free, there were not three to begin with. */
  lemma NoRoomLeft(before: Table, now: Table, limit: int, t: Targets, x: int, y: int)
    requires forall n :: n in now ==> n in before || n == x || n == y
    requires forall n :: !FreeFor(now, limit, t, n)
    ensures !Room(before, limit, t)
  {
    forall n | FreeFor(before, limit, t, n) ensures n == x || n == y {
      assert !FreeFor(now, limit, t, n);
    }
  }

  lemma RoomFor(table: Table, limit: int, t: Targets, x: int, y: int, z: int)
    requires x != y && x != z && y != z
    requires FreeFor(table, limit, t, x) && FreeFor(table, limit, t, y) && FreeFor(table, limit, t, z)
    ensures Room(table, limit, t)
  {
    var a := if x < y then (if x < z then x else z) else (if y < z then y else z);
    var c := if x > y then (if x > z then x else z) else (if y > z then y else z);
    var b := x + y + z - a - c;
    assert a < b < c && FreeFor(table, limit, t, a) && FreeFor(table, limit, t, b) && FreeFor(table, limit, t, c);
  }

  ghost predicate SameAt(before: Table, after: Table, fd: int) {
    (fd in after <==> fd in before) && (fd in after ==> after[fd] == before[fd])
  }

  /** A duplicate, or a source that is not itself a target. */
  predicate ClosedAfter(fd: int, safe: Targets, info: int, status: int, block: int, t: Targets) {
    IsTarget(fd, safe) || ((fd == info || fd == status || fd == block) && !IsTarget(fd, t))
  }

  /** What was open at `source` is open at `target`, kept open on exec, and nowhere else. */
  ghost predicate MovedTo(before: Table, after: Table, source: int, target: int)
    requires source in before
  {
    OnlyAt(after, before[source].file, target) && !after[target].cloexec
  }

  /** The sources and three duplicates of them, on free numbers that are no targets. */
  ghost predicate Duplicated(before: Table, info: int, status: int, block: int, t: Targets, safe: Targets, after: Table) {
    && info in before && status in before && block in before
    && DistinctTargets(safe)
    && safe.info !in before && safe.status !in before && safe.block !in before
    && !IsTarget(safe.info, t) && !IsTarget(safe.status, t) && !IsTarget(safe.block, t)
    && after == before[safe.info := Descriptor(before[info].file, true)]
                      [safe.status := Descriptor(before[status].file, true)]
                      [safe.block := Descriptor(before[block].file, true)]
  }

  ghost predicate Written(before: Table, safe: Targets, t: Targets, after: Table) {
    && safe.info in before && safe.status in before && safe.block in before
    && t.info in after && after[t.info] == Descriptor(before[safe.info].file, false)
    && t.status in after && after[t.status] == Descriptor(before[safe.status].file, false)
    && t.block in after && after[t.block] == Descriptor(before[safe.block].file, false)
  }

  /** Where each number ends up once everything has been written and closed. */
  lemma ShuffleMoves(start: Table, info: int, status: int, block: int, t: Targets, safe: Targets,
                     duplicated: Table, written: Table, after: Table)
    requires DistinctTargets(t) && info != status && info != block && status != block
    requires Duplicated(start, info, status, block, t, safe, duplicated) && Written(duplicated, safe, t, written)
    requires OnlyAt(start, start[info].file, info) && OnlyAt(start, start[status].file, status) && OnlyAt(start, start[block].file, block)
    requires forall fd :: !IsTarget(fd, t) ==> SameAt(duplicated, written, fd)
    requires forall fd :: if ClosedAfter(fd, safe, info, status, block, t) then fd !in after else SameAt(written, after, fd)
    ensures MovedTo(start, after, info, t.info) && MovedTo(start, after, status, t.status) && MovedTo(start, after, block, t.block)
  {
    assert start[info].file != start[status].file && start[info].file != start[block].file && start[status].file != start[block].file;
    forall fd | fd in after && !IsTarget(fd, t) ensures fd in start && after[fd] == start[fd] && fd != info && fd != status && fd != block {
      assert !ClosedAfter(fd, safe, info, status, block, t) && SameAt(written, after, fd) && SameAt(duplicated, written, fd);
    }
    assert !ClosedAfter(t.info, safe, info, status, block, t) && SameAt(written, after, t.info);
    assert !ClosedAfter(t.status, safe, info, status, block, t) && SameAt(written, after, t.status);
    assert !ClosedAfter(t.block, safe, info, status, block, t) && SameAt(written, after, t.block);
  }
}
