/**
 Replacing every occurrence of a text by a marker, from left to right and
 without looking at what was put in. What is left between the markers are gaps of the
 original text, so a replaced text can only come back across a marker.
 */
module Redaction {
  import opened TextSearch

  ghost predicate Occurs(f: string, text: string) {
    exists k :: OccursAt(f, text, k)
  }

  // ------------------------------------------------------------------ replacing all

  /** The first occurrence, or the length of the text if there is none. */
  function First(text: string, f: string): (k: nat)
    ensures k <= |text| && (forall j :: 0 <= j < k ==> !OccursAt(f, text, j))
    ensures k < |text| && f != "" ==> OccursAt(f, text, k)
    ensures k == |text| && f != "" ==> forall j :: !OccursAt(f, text, j)
  {
    FirstFrom(text, f, 0)
  }

  function FirstFrom(text: string, f: string, from: nat): (k: nat)
    requires from <= |text|
    ensures from <= k <= |text| && (forall j :: from <= j < k ==> !OccursAt(f, text, j))
    ensures k < |text| ==> OccursAt(f, text, k)
    decreases |text| - from
  {
    if from == |text| || OccursAt(f, text, from) then from else FirstFrom(text, f, from + 1)
  }

  /** What lies between the occurrences taken from left to right. */
  function Gaps(text: string, f: string): (gaps: seq<string>)
    requires f != ""
    ensures gaps != []
    decreases |text|
  {
    var k := First(text, f);
    if k == |text| then [text] else [text[..k]] + Gaps(text[k + |f|..], f)
  }

  function Marked(gaps: seq<string>, m: string): string {
    if gaps == [] then "" else if |gaps| == 1 then gaps[0] else gaps[0] + m + Marked(gaps[1..], m)
  }

  function ReplaceAll(text: string, f: string, m: string): string
    requires f != ""
  {
    Marked(Gaps(text, f), m)
  }

  lemma FirstIs(text: string, f: string, cursor: nat, found: int)
    requires cursor <= |text| && f != "" && FirstFound(f, text, cursor, found)
    ensures First(text[cursor..], f) == (if found < 0 then |text| else found) - cursor
    ensures found >= 0 ==> found + |f| <= |text|
  {
    assert text[cursor..] == text[cursor..|text|];
    forall j ensures OccursAt(f, text[cursor..], j) <==> j >= 0 && OccursAt(f, text, cursor + j) {
      InSlice(f, text, cursor, |text|, j);
    }
    var k := First(text[cursor..], f);
    assert found >= 0 ==> OccursAt(f, text[cursor..], found - cursor);
    assert k < |text| - cursor ==> OccursAt(f, text, cursor + k);
  }

  lemma MarkedMore(gap: string, gaps: seq<string>, m: string)
    requires gaps != []
    ensures Marked([gap] + gaps, m) == gap + m + Marked(gaps, m)
  {
    assert ([gap] + gaps)[1..] == gaps;
  }

  lemma Regroup(a: string, b: string, c: string, d: string)
    ensures a + (b + c + d) == a + b + c + d
  {
  }

  /** Up to the first occurrence, the marker, and what becomes of the rest. */
  lemma ReplaceFirst(text: string, f: string, m: string)
    requires f != ""
    ensures var k := First(text, f);
      if k == |text| then ReplaceAll(text, f, m) == text
      else k + |f| <= |text| && ReplaceAll(text, f, m) == text[..k] + m + ReplaceAll(text[k + |f|..], f, m)
  {
    var k := First(text, f);
    if k < |text| {
      MarkedMore(text[..k], Gaps(text[k + |f|..], f), m);
    }
  }

  lemma ReplaceNothing(text: string, f: string, cursor: nat, found: int, m: string)
    requires cursor <= |text| && f != "" && FirstFound(f, text, cursor, found) && found < 0
    ensures ReplaceAll(text[cursor..], f, m) == text[cursor..]
  {
    FirstIs(text, f, cursor, found);
    ReplaceFirst(text[cursor..], f, m);
  }

  lemma ReplaceAtFirst(text: string, f: string, k: nat, m: string)
    requires f != "" && k == First(text, f) < |text|
    ensures k + |f| <= |text| && ReplaceAll(text, f, m) == text[..k] + m + ReplaceAll(text[k + |f|..], f, m)
  {
    ReplaceFirst(text, f, m);
  }

  lemma Slices(text: string, i: nat, k: nat, n: nat)
    requires i + k + n <= |text|
    ensures text[i..][..k] == text[i..i + k] && text[i..][k + n..] == text[i + k + n..]
  {
    TailOfTail(text, i, k + n);
  }

  lemma ReplaceNext(text: string, f: string, cursor: nat, found: int, m: string)
    requires cursor <= |text| && f != "" && FirstFound(f, text, cursor, found) && found >= 0
    ensures found + |f| <= |text|
    ensures ReplaceAll(text[cursor..], f, m) == text[cursor..found] + m + ReplaceAll(text[found + |f|..], f, m)
  {
    FirstIs(text, f, cursor, found);
    ReplaceHere(text, f, cursor, found, m);
  }

  lemma ReplaceHere(text: string, f: string, cursor: nat, found: nat, m: string)
    requires cursor <= found && f != "" && found + |f| <= |text| && First(text[cursor..], f) == found - cursor
    ensures ReplaceAll(text[cursor..], f, m) == text[cursor..found] + m + ReplaceAll(text[found + |f|..], f, m)
  {
    Slices(text, cursor, found - cursor, |f|);
    ReplaceAtFirst(text[cursor..], f, found - cursor, m);
  }

  /** A global replacement: find the next occurrence, copy up to it, put the marker, go on behind it. */
  method ReplaceEach(text: string, f: string, m: string) returns (out: string)
    requires f != ""
    ensures out == ReplaceAll(text, f, m)
  {
    out := "";
    var cursor, found := 0, 0;
    assert text[0..] == text;
    while found >= 0
      invariant cursor <= |text|
      invariant ReplaceAll(text, f, m) == if found >= 0 then out + ReplaceAll(text[cursor..], f, m) else out
      decreases found >= 0, |text| - cursor
    {
      found := IndexOf(text, f, cursor);
      if found < 0 {
        ReplaceNothing(text, f, cursor, found, m);
        out := out + text[cursor..];
      } else {
        ReplaceNext(text, f, cursor, found, m);
        Regroup(out, text[cursor..found], m, ReplaceAll(text[found + |f|..], f, m));
        out := out + text[cursor..found] + m;
        cursor := found + |f|;
      }
    }
  }

  // -------------------------------------------------------------- meeting the marker

  /** Laid over the marker at offset `d`, the text agrees with it wherever they overlap. */
  predicate Agrees(f: string, d: int, m: string) {
    forall i :: 0 <= i < |f| && 0 <= d + i < |m| ==> f[i] == m[d + i]
  }

  /** The text can overlap the marker. */
  predicate Meets(f: string, m: string) {
    exists d :: -(|f| as int) < d < |m| && Agrees(f, d, m)
  }

  /** An occurrence around a marker is on one side of it, or agrees with it. */
  lemma WhereItOccurs(x: string, y: string, f: string, p: int, m: string)
    requires f != "" && OccursAt(f, x + m + y, p)
    ensures OccursAt(f, x, p) || OccursAt(f, y, p - |x| - |m|)
         || (-(|f| as int) < p - |x| < |m| && Agrees(f, p - |x|, m))
  {
    var t := x + m + y;
    assert x == t[0..|x|] && y == t[|x| + |m|..|t|];
    InSlice(f, t, 0, |x|, p);
    InSlice(f, t, |x| + |m|, |t|, p - |x| - |m|);
    forall i | 0 <= i < |f| && 0 <= p - |x| + i < |m| ensures f[i] == m[p - |x| + i] {
      assert t[p..p + |f|][i] == t[p + i];
    }
  }

  /** Neither side has it and it cannot be across the marker: then it is nowhere. */
  lemma AcrossMarker(x: string, y: string, f: string, m: string)
    requires f != "" && !Occurs(f, x) && !Occurs(f, y)
    requires forall d :: -(|f| as int) < d < |m| && Agrees(f, d, m) ==> !OccursAt(f, x + m + y, |x| + d)
    ensures !Occurs(f, x + m + y)
  {
    if p :| OccursAt(f, x + m + y, p) {
      WhereItOccurs(x, y, f, p, m);
      assert p == |x| + (p - |x|);
    }
  }

  /** Gaps without the text stay without it once they are joined by markers. */
  lemma {:induction false} MarkedFree(gaps: seq<string>, f: string, m: string)
    requires f != "" && !Meets(f, m) && forall g :: g in gaps ==> !Occurs(f, g)
    ensures !Occurs(f, Marked(gaps, m))
  {
    if |gaps| > 1 {
      MarkedFree(gaps[1..], f, m);
      AcrossMarker(gaps[0], Marked(gaps[1..], m), f, m);
    }
  }

  lemma OccursInside(text: string, f: string, i: nat, j: nat)
    requires i <= j <= |text| && Occurs(f, text[i..j])
    ensures Occurs(f, text)
  {
    var k :| OccursAt(f, text[i..j], k);
    InSlice(f, text, i, j, k);
  }

  lemma GapFree(text: string, g: string, k: nat, f: string)
    requires k <= |text| && g != "" && (f == g || !Occurs(f, text))
    requires forall j :: 0 <= j < k ==> !OccursAt(g, text, j)
    ensures !Occurs(f, text[..k])
  {
    assert text[..k] == text[0..k];
    forall p ensures !OccursAt(f, text[..k], p) {
      InSlice(f, text, 0, k, p);
    }
  }

  /** A text that is absent, or that is the one being replaced, is in none of the gaps. */
  lemma {:induction false} GapsFree(text: string, g: string, f: string)
    requires g != "" && f != "" && (f == g || !Occurs(f, text))
    ensures forall gap :: gap in Gaps(text, g) ==> !Occurs(f, gap)
    decreases |text|
  {
    var k := First(text, g);
    if k < |text| {
      var rest := text[k + |g|..];
      assert rest == text[k + |g|..|text|];
      if f != g && Occurs(f, rest) {
        OccursInside(text, f, k + |g|, |text|);
      }
      GapsFree(rest, g, f);
      GapFree(text, g, k, f);
    }
  }

  /** The replaced text is gone, and no text that was absent comes into being. */
  lemma ReplacedIsGone(text: string, g: string, f: string, m: string)
    requires g != "" && f != "" && !Meets(f, m) && (f == g || !Occurs(f, text))
    ensures !Occurs(f, ReplaceAll(text, g, m))
  {
    GapsFree(text, g, f);
    MarkedFree(Gaps(text, g), f, m);
  }

  // ------------------------------------------- exactly when one replacement is enough

  /** Before its own second half, the text does not occur any earlier. */
  predicate Clear(f: string, k: nat)
    requires k <= |f|
  {
    forall p :: 0 <= p < k ==> !OccursAt(f, f[..k] + f, p)
  }

  /**
   The text comes back across a marker: it agrees with the marker at an offset at which
   it sticks out in front by a piece that a replacement can leave standing.
   */
  predicate ComesBack(f: string, m: string) {
    exists d :: -(|f| as int) < d < |m| && Agrees(f, d, m) && (d >= 0 || Clear(f, -d))
  }

  /** A text left in which it comes back: what sticks out in front, the text, and what sticks out behind. */
  function Witness(f: string, d: int, m: string): string
    requires -(|f| as int) < d < |m|
  {
    (if d < 0 then f[..-d] else "") + f + (if d + |f| > |m| then f[|m| - d..] else "")
  }

  lemma {:induction false} ShorterUntouched(text: string, f: string, m: string)
    requires f != "" && |text| < |f|
    ensures ReplaceAll(text, f, m) == text
  {
  }

  lemma FirstAfter(front: string, f: string, behind: string)
    requires f != "" && forall p :: 0 <= p < |front| ==> !OccursAt(f, front + f, p)
    ensures First(front + f + behind, f) == |front|
  {
    var text, n := front + f + behind, |front| + |f|;
    assert text[0..n] == front + f;
    assert OccursAt(f, text, |front|);
    forall p | 0 <= p < |front| ensures !OccursAt(f, text, p) {
      InSlice(f, text, 0, n, p);
    }
  }

  lemma ReplaceOnce(front: string, f: string, behind: string, m: string)
    requires f != "" && |behind| < |f| && forall p :: 0 <= p < |front| ==> !OccursAt(f, front + f, p)
    ensures ReplaceAll(front + f + behind, f, m) == front + m + behind
  {
    var text := front + f + behind;
    FirstAfter(front, f, behind);
    ReplaceFirst(text, f, m);
    assert text[..|front|] == front && text[|front| + |f|..] == behind;
    ShorterUntouched(behind, f, m);
  }

  lemma WitnessFront(f: string, d: int, m: string)
    requires f != "" && -(|f| as int) < d < 0 && Agrees(f, d, m) && Clear(f, -d)
    ensures Occurs(f, ReplaceAll(Witness(f, d, m), f, m))
  {
    var front, behind := f[..-d], if d + |f| > |m| then f[|m| - d..] else "";
    ReplaceOnce(front, f, behind, m);
    var out := front + m + behind;
    forall i | 0 <= i < |f| ensures out[0 + i] == f[i] {
      if 0 <= d + i < |m| { assert f[i] == m[d + i]; }
    }
    OccursByIndex(f, out, 0);
  }

  lemma WitnessBehind(f: string, d: int, m: string)
    requires f != "" && 0 <= d < |m| && Agrees(f, d, m)
    ensures Occurs(f, ReplaceAll(Witness(f, d, m), f, m))
  {
    var n := if d + |f| > |m| then |m| - d else |f|;
    var behind := f[n..];
    assert Witness(f, d, m) == "" + f + behind;
    ReplaceOnce("", f, behind, m);
    var out := "" + m + behind;
    forall i | 0 <= i < |f| ensures out[d + i] == f[i] {
      if d + i < |m| { assert f[i] == m[d + i]; }
    }
    OccursByIndex(f, out, d);
  }

  /** Nothing of the text is left when it does not come back across a marker. */
  lemma {:induction false} StaysGone(text: string, f: string, m: string)
    requires f != "" && !ComesBack(f, m)
    ensures !Occurs(f, ReplaceAll(text, f, m))
    decreases |text|
  {
    var k := First(text, f);
    ReplaceFirst(text, f, m);
    if k < |text| {
      var x, y := text[..k], ReplaceAll(text[k + |f|..], f, m);
      StaysGone(text[k + |f|..], f, m);
      GapFree(text, f, k, f);
      NotAcross(text, f, k, y, m);
      AcrossMarker(x, y, f, m);
    }
  }

  lemma NotAcross(text: string, f: string, k: nat, y: string, m: string)
    requires f != "" && !ComesBack(f, m) && k == First(text, f) < |text|
    ensures forall d :: -(|f| as int) < d < |m| && Agrees(f, d, m) ==> !OccursAt(f, text[..k] + m + y, k + d)
  {
    forall d | -(|f| as int) < d < |m| && Agrees(f, d, m) ensures !OccursAt(f, text[..k] + m + y, k + d) {
      if OccursAt(f, text[..k] + m + y, k + d) {
        FrontIsClear(text, f, k, -d, y, m);
      }
    }
  }

  /** What the text would need in front of the marker is a piece at which it is clear. */
  lemma FrontIsClear(text: string, f: string, k: nat, n: int, y: string, m: string)
    requires k + |f| <= |text| && OccursAt(f, text, k) && forall j :: 0 <= j < k ==> !OccursAt(f, text, j)
    requires 0 < n < |f| && OccursAt(f, text[..k] + m + y, k - n)
    ensures Clear(f, n)
  {
    var t := text[..k] + m + y;
    assert f[..n] == t[k - n..k - n + |f|][..n] == text[k - n..k];
    assert f[..n] + f == text[k - n..k + |f|];
    forall p | 0 <= p < n ensures !OccursAt(f, f[..n] + f, p) {
      InSlice(f, text, k - n, k + |f|, p);
    }
  }

  /**
   For one text, whatever it is: replacing all of its occurrences removes it from every
   input, if and only if it does not come back across the marker.
   */
  lemma GoneIffItCannotComeBack(f: string, m: string)
    requires f != ""
    ensures (forall text :: !Occurs(f, ReplaceAll(text, f, m))) <==> !ComesBack(f, m)
  {
    if ComesBack(f, m) {
      var d :| -(|f| as int) < d < |m| && Agrees(f, d, m) && (d >= 0 || Clear(f, -d));
      if d < 0 { WitnessFront(f, d, m); } else { WitnessBehind(f, d, m); }
    } else {
      forall text ensures !Occurs(f, ReplaceAll(text, f, m)) {
        StaysGone(text, f, m);
      }
    }
  }
}
