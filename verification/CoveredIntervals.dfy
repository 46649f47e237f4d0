/**
 The ranges of a text already covered by an assignment, as a sorted list of half-open
 intervals: insertion merges in place, lookup is a binary search.
 */
module CoveredIntervals {
  import opened Prelude

  datatype Interval = Interval(start: int, end: int)

  predicate Contains(i: Interval, p: int) {
    i.start <= p < i.end
  }

  /** Sorted, with no empty and no overlapping interval; neighbours may touch. */
  predicate Sorted(s: seq<Interval>) {
    && (forall i :: 0 <= i < |s| ==> s[i].start < s[i].end)
    && (forall i, j :: 0 <= i < j < |s| ==> s[i].end <= s[j].start)
  }

  predicate Covered(s: seq<Interval>, p: int) {
    exists i :: 0 <= i < |s| && Contains(s[i], p)
  }

  /** The first interval from `i` on that ends at or after `start`. */
  function FirstReaching(s: seq<Interval>, start: int, i: nat): (k: nat)
    requires i <= |s|
    ensures i <= k <= |s| && (forall j :: i <= j < k ==> s[j].end < start)
    ensures k < |s| ==> s[k].end >= start
    decreases |s| - i
  {
    if i < |s| && s[i].end < start then FirstReaching(s, start, i + 1) else i
  }

  lemma {:induction false} FirstReachingIs(s: seq<Interval>, start: int, i: nat, k: nat)
    requires i <= k <= |s| && (forall j :: i <= j < k ==> s[j].end < start) && (k < |s| ==> s[k].end >= start)
    ensures FirstReaching(s, start, i) == k
    decreases k - i
  {
    if i < k {
      FirstReachingIs(s, start, i + 1, k);
    }
  }

  /** Where the run of intervals that the growing one reaches ends, and what it has grown to. */
  function Absorb(s: seq<Interval>, i: nat, grown: Interval): (nat, Interval)
    requires i <= |s|
    decreases |s| - i
  {
    if i < |s| && s[i].start <= grown.end then
      Absorb(s, i + 1, Interval(if s[i].start < grown.start then s[i].start else grown.start,
                                if s[i].end > grown.end then s[i].end else grown.end))
    else (i, grown)
  }

  lemma {:induction false} AbsorbBounds(s: seq<Interval>, i: nat, grown: Interval)
    requires i <= |s|
    ensures i <= Absorb(s, i, grown).0 <= |s|
    decreases |s| - i
  {
    if i < |s| && s[i].start <= grown.end {
      AbsorbBounds(s, i + 1, Absorbed(grown, s[i]));
    }
  }

  function Absorbed(grown: Interval, i: Interval): Interval {
    Interval(if i.start < grown.start then i.start else grown.start, if i.end > grown.end then i.end else grown.end)
  }

  /** The list after covering one more range. */
  function Added(s: seq<Interval>, start: int, end: int): seq<Interval> {
    if end <= start then s
    else if s == [] || start >= s[|s| - 1].end then s + [Interval(start, end)]
    else
      var first := FirstReaching(s, start, 0);
      AbsorbBounds(s, first, Interval(start, end));
      var (next, merged) := Absorb(s, first, Interval(start, end));
      s[..first] + [merged] + s[next..]
  }

  // ------------------------------------------------------------------ what it means

  /** Absorbing neither loses nor invents a position. */
  lemma {:induction false} AbsorbCovers(s: seq<Interval>, i: nat, grown: Interval)
    requires i <= |s| && Sorted(s) && grown.start < grown.end
    requires forall j :: i <= j < |s| ==> s[j].end >= grown.start
    ensures var (next, merged) := Absorb(s, i, grown);
      && i <= next <= |s| && merged.start < merged.end
      && merged.start <= grown.start && grown.end <= merged.end
      && (merged.start == grown.start || (i < |s| && merged.start == s[i].start))
      && (next < |s| ==> merged.end < s[next].start)
      && (forall p :: Contains(merged, p) <==> Contains(grown, p) || exists j :: i <= j < next && Contains(s[j], p))
    decreases |s| - i
  {
    if i < |s| && s[i].start <= grown.end {
      var more := Absorbed(grown, s[i]);
      assert forall p :: Contains(more, p) <==> Contains(grown, p) || Contains(s[i], p);
      AbsorbCovers(s, i + 1, more);
    }
  }

  lemma AddedMeans(s: seq<Interval>, start: int, end: int)
    requires Sorted(s)
    ensures Sorted(Added(s, start, end))
    ensures forall p :: Covered(Added(s, start, end), p) <==> Covered(s, p) || start <= p < end
  {
    var t := Added(s, start, end);
    if start < end {
      if s == [] || start >= s[|s| - 1].end {
        forall p ensures Covered(t, p) <==> Covered(s, p) || start <= p < end {
          assert t[|s|] == Interval(start, end);
          if i :| 0 <= i < |s| && Contains(s[i], p) { assert Contains(t[i], p); }
        }
      } else {
        MergedMeans(s, start, end);
      }
    }
  }

  lemma SplicedSorted(s: seq<Interval>, first: nat, next: nat, merged: Interval)
    requires Sorted(s) && first <= next <= |s| && merged.start < merged.end
    requires forall j :: 0 <= j < first ==> s[j].end <= merged.start
    requires next < |s| ==> merged.end < s[next].start
    ensures Sorted(s[..first] + [merged] + s[next..])
  {
    assert forall j :: next < j < |s| ==> s[next].start < s[next].end <= s[j].start;
    var t := s[..first] + [merged] + s[next..];
    forall i, j | 0 <= i < j < |t| ensures t[i].end <= t[j].start {
      assert i < first ==> t[i] == s[i];
      assert i > first ==> t[i] == s[next + i - first - 1];
      assert j < first ==> t[j] == s[j];
      assert j > first ==> t[j] == s[next + j - first - 1];
    }
  }

  lemma MergedMeans(s: seq<Interval>, start: int, end: int)
    requires Sorted(s) && start < end && s != [] && start < s[|s| - 1].end
    ensures Sorted(Added(s, start, end))
    ensures forall p :: Covered(Added(s, start, end), p) <==> Covered(s, p) || start <= p < end
  {
    var first := FirstReaching(s, start, 0);
    assert forall j :: first < j < |s| ==> s[first].end <= s[j].start < s[j].end;
    AbsorbCovers(s, first, Interval(start, end));
    var (next, merged) := Absorb(s, first, Interval(start, end));
    assert forall j :: 0 <= j < first && first < |s| ==> s[j].end <= s[first].start;
    SplicedSorted(s, first, next, merged);
    assert Added(s, start, end) == s[..first] + [merged] + s[next..];
    forall p ensures Covered(Added(s, start, end), p) <==> Covered(s, p) || start <= p < end {
      SplitCover(s, first, next, merged, p);
      assert Contains(Interval(start, end), p) <==> start <= p < end;
    }
  }

  lemma SplitCover(s: seq<Interval>, first: nat, next: nat, merged: Interval, p: int)
    requires first <= next <= |s|
    ensures Covered(s[..first] + [merged] + s[next..], p) <==>
      || (exists j :: 0 <= j < first && Contains(s[j], p)) || Contains(merged, p)
      || (exists j :: next <= j < |s| && Contains(s[j], p))
  {
    var t := s[..first] + [merged] + s[next..];
    if j :| 0 <= j < first && Contains(s[j], p) { assert t[j] == s[j]; }
    if j :| next <= j < |s| && Contains(s[j], p) { assert t[first + 1 + j - next] == s[j]; }
    if Contains(merged, p) { assert t[first] == merged; }
    if k :| 0 <= k < |t| && Contains(t[k], p) {
      if k > first { assert t[k] == s[next + k - first - 1]; }
    }
  }

  datatype Range = Range(start: int, end: int)

  function AddedAll(ranges: seq<Range>): seq<Interval> {
    if ranges == [] then [] else Added(AddedAll(ranges[..|ranges| - 1]), ranges[|ranges| - 1].start, ranges[|ranges| - 1].end)
  }

  /** Any insertions in any order: the list stays sorted and covers exactly their union. */
  lemma {:induction false} CoversTheUnion(ranges: seq<Range>)
    ensures Sorted(AddedAll(ranges))
    ensures forall p :: Covered(AddedAll(ranges), p) <==> exists i :: 0 <= i < |ranges| && ranges[i].start <= p < ranges[i].end
  {
    if ranges != [] {
      var before, last := ranges[..|ranges| - 1], ranges[|ranges| - 1];
      CoversTheUnion(before);
      AddedMeans(AddedAll(before), last.start, last.end);
      forall p ensures Covered(AddedAll(ranges), p) <==> exists i :: 0 <= i < |ranges| && ranges[i].start <= p < ranges[i].end {
        if i :| 0 <= i < |before| && before[i].start <= p < before[i].end { assert ranges[i] == before[i]; }
      }
    }
  }

  // ------------------------------------------------------------------- the list in place

  class CoveredList {
    var intervals: seq<Interval>

    constructor ()
      ensures intervals == []
    {
      intervals := [];
    }

    /** The interval that covers a position, if there is one. */
    method Covering(position: int) returns (found: Option<Interval>)
      requires Sorted(intervals)
      ensures found.Some? <==> Covered(intervals, position)
      ensures found.Some? ==> found.value in intervals && Contains(found.value, position)
    {
      var low, high := 0, |intervals| - 1;
      while low <= high
        invariant 0 <= low <= high + 1 <= |intervals|
        invariant forall i :: 0 <= i < |intervals| && Contains(intervals[i], position) ==> low <= i <= high
        decreases high - low
      {
        var middle := (low + high) / 2;
        var interval := intervals[middle];
        if position < interval.start {
          high := middle - 1;
        } else if position >= interval.end {
          low := middle + 1;
        } else {
          return Some(interval);
        }
      }
      found := None;
    }

    method Add(start: int, end: int)
      requires Sorted(intervals)
      modifies this
      ensures intervals == Added(old(intervals), start, end)
      ensures Sorted(intervals)
      ensures forall p :: Covered(intervals, p) <==> Covered(old(intervals), p) || start <= p < end
    {
      AddedMeans(intervals, start, end);
      if end <= start { return; }
      if |intervals| == 0 || start >= intervals[|intervals| - 1].end {
        intervals := intervals + [Interval(start, end)];
        return;
      }
      var index := FindReaching(start);
      var grown, next := Interval(start, end), index;
      AbsorbBounds(intervals, index, grown);
      while next < |intervals| && intervals[next].start <= grown.end
        invariant index <= next <= |intervals|
        invariant Absorb(intervals, next, grown) == Absorb(intervals, index, Interval(start, end))
      {
        grown := Absorbed(grown, intervals[next]);
        next := next + 1;
      }
      intervals := intervals[..index] + [grown] + intervals[next..];
    }

    /** Binary search for the first interval that ends at or after `start`. */
    method FindReaching(start: int) returns (index: nat)
      requires Sorted(intervals)
      ensures index <= |intervals| && index == FirstReaching(intervals, start, 0)
    {
      var low, high := 0, |intervals|;
      while low < high
        invariant 0 <= low <= high <= |intervals|
        invariant forall i :: 0 <= i < low ==> intervals[i].end < start
        invariant forall i :: high <= i < |intervals| ==> intervals[i].end >= start
      {
        var middle := (low + high) / 2;
        if intervals[middle].end < start {
          low := middle + 1;
        } else {
          high := middle;
        }
      }
      index := low;
      FirstReachingIs(intervals, start, 0, index);
    }
  }
}
