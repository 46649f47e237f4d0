/** What trimming takes from a text. */
module TrimLaws {
  import opened TextLines

  predicate AllSpace(s: string) {
    forall i :: 0 <= i < |s| ==> Space(s[i])
  }

  /** Text that starts and ends with something other than white space, or none at all. */
  predicate Trimmed(s: string) {
    s == "" || (!Space(s[0]) && !Space(s[|s| - 1]))
  }

  lemma {:induction false} TrimEnd(t: string, after: string)
    requires Trimmed(t) && t != "" && AllSpace(after)
    ensures Trim(t + after) == t
    decreases |after|
  {
    if after == "" {
      assert t + after == t;
    } else {
      TrimEnd(t, after[..|after| - 1]);
      assert (t + after)[..|t + after| - 1] == t + after[..|after| - 1];
    }
  }

  /** Trimming takes exactly the white space around a text. */
  lemma {:induction false} TrimCuts(before: string, t: string, after: string)
    requires Trimmed(t) && AllSpace(before) && AllSpace(after)
    ensures Trim(before + t + after) == t
    decreases |before| + |after|
  {
    var s := before + t + after;
    if before != "" {
      TrimCuts(before[1..], t, after);
      assert s[1..] == before[1..] + t + after;
    } else if t != "" {
      TrimEnd(t, after);
      assert s == t + after;
    } else if after != "" {
      TrimCuts("", "", after[1..]);
      assert s[1..] == "" + "" + after[1..];
    }
  }

  lemma Wrapped(c: char, text: string, left: string, middle: string, right: string)
    requires text == left + middle + right && Space(c) && AllSpace(left) && AllSpace(right)
    ensures [c] + text == ([c] + left) + middle + right && AllSpace([c] + left)
    ensures text + [c] == left + middle + (right + [c]) && AllSpace(right + [c])
  {
  }

  /** Every text is white space, its trimmed text, and white space. */
  lemma {:induction false} TrimSplits(s: string) returns (before: string, after: string)
    ensures s == before + Trim(s) + after && Trimmed(Trim(s)) && AllSpace(before) && AllSpace(after)
    decreases |s|
  {
    before, after := "", "";
    if s != "" && Space(s[0]) {
      var left, right := TrimSplits(s[1..]);
      before, after := [s[0]] + left, right;
      Wrapped(s[0], s[1..], left, Trim(s), right);
      assert s == [s[0]] + s[1..];
    } else if s != "" && Space(s[|s| - 1]) {
      var left, right := TrimSplits(s[..|s| - 1]);
      before, after := left, right + [s[|s| - 1]];
      Wrapped(s[|s| - 1], s[..|s| - 1], left, Trim(s), right);
      assert s == s[..|s| - 1] + [s[|s| - 1]];
    }
  }
}
