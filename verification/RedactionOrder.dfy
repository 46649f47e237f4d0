/** What it buys to replace the longest form first. */
module RedactionOrder {
  import opened TextSearch
  import opened Redaction
  import opened SecretForms

  /** Around the piece `l`, the form occurs only beside it, or is that very piece. */
  ghost predicate Apart(g: string, x: string, l: string, y: string) {
    forall p :: OccursAt(g, x + l + y, p) ==> p + |g| <= |x| || p >= |x| + |l| || (g == l && p == |x|)
  }

  // ---------------------------------------------------------------- one replacement

  /** No occurrence up to `n`, and behind it those of the rest. */
  lemma FirstBehind(front: string, y: string, g: string)
    requires g != "" && forall p :: OccursAt(g, front + y, p) ==> p >= |front|
    ensures First(front + y, g) == |front| + First(y, g)
  {
    var t := front + y;
    assert y == t[|front|..|t|];
    forall p ensures OccursAt(g, y, p) <==> p >= 0 && OccursAt(g, t, |front| + p) {
      InSlice(g, t, |front|, |t|, p);
    }
    var k := First(y, g);
    if k < |y| {
      assert OccursAt(g, t, |front| + k);
    }
    var n := First(t, g);
    if n < |t| {
      assert OccursAt(g, y, n - |front|);
    }
  }

  lemma NothingInFront(front: string, y: string, g: string, m: string)
    requires g != "" && forall p :: OccursAt(g, front + y, p) ==> p >= |front|
    ensures ReplaceAll(front + y, g, m) == front + ReplaceAll(y, g, m)
  {
    var k := First(y, g);
    FirstBehind(front, y, g);
    if k == |y| {
      Untouched(y, g, m);
      Untouched(front + y, g, m);
    } else {
      ReplaceBehind(front, y, g, k, m);
    }
  }

  lemma Untouched(text: string, g: string, m: string)
    requires g != "" && First(text, g) == |text|
    ensures ReplaceAll(text, g, m) == text
  {
    ReplaceFirst(text, g, m);
  }

  lemma ReplaceWhole(front: string, y: string, g: string, k: nat, m: string)
    requires g != "" && k + |g| <= |y| && First(front + y, g) == |front| + k
    ensures ReplaceAll(front + y, g, m) == (front + y[..k]) + m + ReplaceAll(y[k + |g|..], g, m)
  {
    var t, n := front + y, |front| + k;
    ReplaceAtFirst(t, g, n, m);
    SlicesBehind(front, y, k, |g|);
    assert t[..n] == front + y[..k] && t[n + |g|..] == y[k + |g|..];
  }

  lemma ReplaceBehind(front: string, y: string, g: string, k: nat, m: string)
    requires g != "" && k == First(y, g) < |y| && First(front + y, g) == |front| + k
    ensures ReplaceAll(front + y, g, m) == front + ReplaceAll(y, g, m)
  {
    ReplaceAtFirst(y, g, k, m);
    ReplaceWhole(front, y, g, k, m);
    Regroup(front, y[..k], m, ReplaceAll(y[k + |g|..], g, m));
  }

  lemma SlicesBehind(front: string, y: string, k: nat, n: nat)
    requires k + n <= |y|
    ensures (front + y)[..|front| + k] == front + y[..k] && (front + y)[|front| + k + n..] == y[k + n..]
  {
  }

  /** What is left in place of the piece once the form has been replaced. */
  function Left(g: string, l: string, m: string): string {
    if g == l then m else l
  }

  /** The form is not in front of the piece. */
  lemma ReplaceFromPiece(x: string, l: string, y: string, g: string, m: string)
    requires g != "" && Apart(g, x, l, y) && !Occurs(g, x)
    ensures ReplaceAll(x + l + y, g, m) == x + Left(g, l, m) + ReplaceAll(y, g, m)
  {
    var t := x + l + y;
    forall p | OccursAt(g, t, p) ensures p >= |x| + |l| || (g == l && p == |x|) {
      assert t[0..|x|] == x;
      InSlice(g, t, 0, |x|, p);
    }
    if g == l {
      assert OccursAt(l, t, |x|);
      assert First(t, l) == |x|;
      ReplaceFirst(t, l, m);
      assert t[..|x|] == x && t[|x| + |l|..] == y;
    } else {
      NothingInFront(x + l, y, g, m);
    }
  }

  lemma ApartBehind(x: string, l: string, y: string, g: string, n: nat)
    requires Apart(g, x, l, y) && n <= |x|
    ensures Apart(g, x[n..], l, y) && (x + l + y)[n..] == x[n..] + l + y
  {
    var t, s := x + l + y, x[n..] + l + y;
    assert t[n..] == s;
    assert t[n..] == t[n..|t|];
    forall p | OccursAt(g, s, p) ensures p + |g| <= |x[n..]| || p >= |x[n..]| + |l| || (g == l && p == |x[n..]|) {
      InSlice(g, t, n, |t|, p);
      assert OccursAt(g, t, n + p);
    }
  }

  /** The first occurrence in front of the piece is the first one of all. */
  lemma FirstInFront(x: string, l: string, y: string, g: string)
    requires g != "" && Occurs(g, x)
    ensures First(x, g) < |x| && First(x, g) + |g| <= |x| && First(x + l + y, g) == First(x, g)
  {
    var t, k := x + l + y, First(x, g);
    assert t[0..|x|] == x;
    forall p ensures OccursAt(g, x, p) <==> 0 <= p <= |x| - |g| && OccursAt(g, t, p) {
      InSlice(g, t, 0, |x|, p);
    }
  }

  /** A replacement that stays beside a piece, or is of that piece, works on both sides of it separately. */
  lemma {:induction false} ReplaceAround(x: string, l: string, y: string, g: string, m: string)
    requires g != "" && Apart(g, x, l, y)
    ensures ReplaceAll(x + l + y, g, m) == ReplaceAll(x, g, m) + Left(g, l, m) + ReplaceAll(y, g, m)
    decreases |x|
  {
    ReplaceFirst(x, g, m);
    if !Occurs(g, x) {
      assert !OccursAt(g, x, First(x, g));
      ReplaceFromPiece(x, l, y, g, m);
    } else {
      var t, k := x + l + y, First(x, g);
      FirstInFront(x, l, y, g);
      ReplaceFirst(t, g, m);
      assert t[..k] == x[..k];
      ApartBehind(x, l, y, g, k + |g|);
      ReplaceAround(x[k + |g|..], l, y, g, m);
      Regroup(x[..k] + m, ReplaceAll(x[k + |g|..], g, m), Left(g, l, m), ReplaceAll(y, g, m));
    }
  }

  // ------------------------------------------ nothing new overlaps what is still there

  /** The end of a replaced text is the text itself, or a piece of its end behind a marker. */
  ghost predicate EndsAs(x': string, x: string, m: string) {
    x' == x || exists a, n: nat :: n <= |x| && x' == a + m + x[n..]
  }

  lemma EndsFurtherOn(x: string, i: nat, front: string, rest': string, m: string)
    requires i <= |x| && EndsAs(rest', x[i..], m)
    ensures EndsAs(front + m + rest', x, m)
  {
    if rest' != x[i..] {
      var a, n: nat :| n <= |x[i..]| && rest' == a + m + x[i..][n..];
      TailOfTail(x, i, n);
      Regroup(front + m, a, m, x[i + n..]);
      assert front + m + rest' == (front + m + a) + m + x[i + n..];
    }
  }

  lemma {:induction false} ReplacedEnds(x: string, h: string, m: string)
    requires h != ""
    ensures EndsAs(ReplaceAll(x, h, m), x, m)
    decreases |x|
  {
    var k := First(x, h);
    if k == |x| {
      Untouched(x, h, m);
    } else {
      ReplacedEnds(x[k + |h|..], h, m);
      EndsFurtherOn(x, k + |h|, x[..k], ReplaceAll(x[k + |h|..], h, m), m);
      ReplaceAtFirst(x, h, k, m);
    }
  }

  lemma ApartAfterMarker(g: string, a: string, s: string, l: string, y: string, m: string)
    requires g != "" && !Meets(g, m) && Apart(g, s, l, y)
    ensures Apart(g, a + m + s, l, y)
  {
    var t, z := (a + m + s) + l + y, s + l + y;
    assert t == a + m + z;
    forall p | OccursAt(g, t, p)
      ensures p + |g| <= |a + m + s| || p >= |a + m + s| + |l| || (g == l && p == |a + m + s|)
    {
      WhereItOccurs(a, z, g, p, m);
    }
  }

  lemma ApartBeforeMarker(g: string, x: string, l: string, s: string, b: string, m: string)
    requires g != "" && !Meets(g, m) && Apart(g, x, l, s)
    ensures Apart(g, x, l, s + m + b)
  {
    var t, z := x + l + (s + m + b), x + l + s;
    assert t == z + m + b;
    forall p | OccursAt(g, t, p) ensures p + |g| <= |x| || p >= |x| + |l| || (g == l && p == |x|) {
      WhereItOccurs(z, b, g, p, m);
    }
  }

  lemma ApartUpTo(g: string, x: string, l: string, y: string, n: nat)
    requires Apart(g, x, l, y) && n <= |y|
    ensures Apart(g, x, l, y[..n])
  {
    var t, s := x + l + y, x + l + y[..n];
    assert t[0..|s|] == s;
    forall p | OccursAt(g, s, p) ensures p + |g| <= |x| || p >= |x| + |l| || (g == l && p == |x|) {
      InSlice(g, t, 0, |s|, p);
    }
  }

  lemma ApartInFront(g: string, x: string, l: string, y: string, h: string, m: string)
    requires g != "" && h != "" && !Meets(g, m) && Apart(g, x, l, y)
    ensures Apart(g, ReplaceAll(x, h, m), l, y)
  {
    ReplacedEnds(x, h, m);
    if ReplaceAll(x, h, m) != x {
      var a, n: nat :| n <= |x| && ReplaceAll(x, h, m) == a + m + x[n..];
      ApartBehind(x, l, y, g, n);
      ApartAfterMarker(g, a, x[n..], l, y, m);
    }
  }

  /** Replacing another form on both sides of the piece brings no overlap about. */
  lemma StaysApart(g: string, x: string, l: string, y: string, h: string, m: string)
    requires g != "" && h != "" && !Meets(g, m) && Apart(g, x, l, y)
    ensures Apart(g, ReplaceAll(x, h, m), l, ReplaceAll(y, h, m))
  {
    var x', k := ReplaceAll(x, h, m), First(y, h);
    ApartInFront(g, x, l, y, h, m);
    ReplaceFirst(y, h, m);
    if k < |y| {
      ApartUpTo(g, x', l, y, k);
      ApartBeforeMarker(g, x', l, y[..k], ReplaceAll(y[k + |h|..], h, m), m);
    }
  }

  // ---------------------------------------------------------------- the whole order

  predicate NoneMeets(order: seq<string>) {
    forall g :: g in order && |g| >= 8 ==> !Meets(g, MARKER)
  }

  /** No form at least as long as the piece overlaps it, except as that piece. */
  ghost predicate OnlyShorterOverlap(order: seq<string>, x: string, l: string, y: string) {
    forall g :: g in order && |g| >= 8 && |g| >= |l| ==> Apart(g, x, l, y)
  }

  /** Until the piece has its turn, both sides of it are worked on separately. */
  lemma {:induction false} BeforeItsTurn(forms: seq<string>, order: seq<string>, x: string, l: string, y: string)
    requires l !in forms && (forall g :: g in forms ==> g in order && |g| >= |l|)
    requires NoneMeets(order) && OnlyShorterOverlap(order, x, l, y)
    ensures ReplaceInOrder(x + l + y, forms) == ReplaceInOrder(x, forms) + l + ReplaceInOrder(y, forms)
    ensures OnlyShorterOverlap(order, ReplaceInOrder(x, forms), l, ReplaceInOrder(y, forms))
  {
    if forms != [] {
      var before, h := forms[..|forms| - 1], forms[|forms| - 1];
      BeforeItsTurn(before, order, x, l, y);
      if |h| >= 8 {
        var x', y' := ReplaceInOrder(x, before), ReplaceInOrder(y, before);
        ReplaceAround(x', l, y', h, MARKER);
        forall g | g in order && |g| >= 8 && |g| >= |l|
          ensures Apart(g, ReplaceAll(x', h, MARKER), l, ReplaceAll(y', h, MARKER))
        {
          StaysApart(g, x', l, y', h, MARKER);
        }
      }
    }
  }

  /** A form that cannot meet the marker stays beside it. */
  lemma ApartFromMarker(g: string, x: string, y: string)
    requires g != "" && !Meets(g, MARKER)
    ensures Apart(g, x, MARKER, y)
  {
    forall p | OccursAt(g, x + MARKER + y, p) ensures p + |g| <= |x| || p >= |x| + |MARKER| {
      WhereItOccurs(x, y, g, p, MARKER);
    }
    assert Agrees(MARKER, 0, MARKER);
  }

  lemma AtItsTurn(before: seq<string>, t: string, x: string, l: string, y: string)
    requires |l| >= 8 && ReplaceInOrder(t, before) == ReplaceInOrder(x, before) + l + ReplaceInOrder(y, before)
    requires Apart(l, ReplaceInOrder(x, before), l, ReplaceInOrder(y, before))
    ensures ReplaceInOrder(t, before + [l]) == ReplaceInOrder(x, before + [l]) + MARKER + ReplaceInOrder(y, before + [l])
  {
    assert (before + [l])[..|before|] == before;
    ReplaceAround(ReplaceInOrder(x, before), l, ReplaceInOrder(y, before), l, MARKER);
  }

  lemma AfterItsTurn(before: seq<string>, t: string, x: string, y: string, h: string)
    requires ReplaceInOrder(t, before) == ReplaceInOrder(x, before) + MARKER + ReplaceInOrder(y, before)
    requires |h| >= 8 ==> !Meets(h, MARKER)
    ensures ReplaceInOrder(t, before + [h]) == ReplaceInOrder(x, before + [h]) + MARKER + ReplaceInOrder(y, before + [h])
  {
    assert (before + [h])[..|before|] == before;
    if |h| >= 8 {
      ApartFromMarker(h, ReplaceInOrder(x, before), ReplaceInOrder(y, before));
      assert Agrees(MARKER, 0, MARKER) && h != MARKER;
      ReplaceAround(ReplaceInOrder(x, before), MARKER, ReplaceInOrder(y, before), h, MARKER);
    }
  }

  /** Once a marker is in the place of the piece it stays there. */
  lemma {:induction false} MarkerStays(before: seq<string>, later: seq<string>, t: string, x: string, y: string)
    requires ReplaceInOrder(t, before) == ReplaceInOrder(x, before) + MARKER + ReplaceInOrder(y, before)
    requires NoneMeets(later)
    ensures ReplaceInOrder(t, before + later) == ReplaceInOrder(x, before + later) + MARKER + ReplaceInOrder(y, before + later)
    decreases |later|
  {
    if later == [] {
      assert before + later == before;
    } else {
      var h := later[0];
      AfterItsTurn(before, t, x, y, h);
      assert before + later == before + [h] + later[1..];
      MarkerStays(before + [h], later[1..], t, x, y);
    }
  }

  /**
   Longest first: a form whose occurrence no form of its length or more overlaps is taken
   whole, and both sides of it are redacted on their own. A shorter form that lies in it or
   overlaps it never takes a piece of it first and leaves the rest readable.
   */
  lemma LongestTakenWhole(order: seq<string>, i: nat, x: string, y: string)
    requires i < |order| && |order[i]| >= 8 && LongestFirst(order)
    requires forall a, b :: 0 <= a < b < |order| ==> order[a] != order[b]
    requires NoneMeets(order) && OnlyShorterOverlap(order, x, order[i], y)
    ensures ReplaceInOrder(x + order[i] + y, order) == ReplaceInOrder(x, order) + MARKER + ReplaceInOrder(y, order)
  {
    var before, l, later := order[..i], order[i], order[i + 1..];
    assert order == before + [l] + later;
    OnlyLongerBefore(order, i);
    BeforeItsTurn(before, order, x, l, y);
    AtItsTurn(before, x + l + y, x, l, y);
    MarkerStays(before + [l], later, x + l + y, x, y);
  }
}
