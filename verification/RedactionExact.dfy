/** Exactly when a list of secrets is always redacted completely, brackets or not. */
module RedactionExact {
  import opened TextSearch
  import opened Redaction
  import opened SecretForms

  // --------------------------------------------------------- what sticks out of a marker

  /** The piece in front of the marker when the text is laid over it at offset `d`. */
  function Front(f: string, d: int): string
    requires -(|f| as int) < d
  {
    if d < 0 then f[..-d] else ""
  }

  /** The piece behind it. */
  function Behind(f: string, d: int): string
    requires d < |MARKER|
  {
    if d + |f| > |MARKER| && |MARKER| - d <= |f| then f[|MARKER| - d..] else ""
  }

  /** No form that is looked for occurs in the piece. */
  ghost predicate FreeOf(secrets: seq<Secret>, piece: string) {
    forall g :: IsForm(secrets, g) && |g| >= 8 ==> !Occurs(g, piece)
  }

  /** The form agrees with the marker at an offset at which both pieces that stick out can be left standing. */
  ghost predicate ReturnsAt(secrets: seq<Secret>, f: string, d: int) {
    && -(|f| as int) < d < |MARKER| && Agrees(f, d, MARKER)
    && FreeOf(secrets, Front(f, d)) && FreeOf(secrets, Behind(f, d))
  }

  ghost predicate Returns(secrets: seq<Secret>, f: string) {
    IsForm(secrets, f) && |f| >= 8 && exists d :: ReturnsAt(secrets, f, d)
  }

  // ------------------------------------------------------ nothing returns: all are gone

  lemma PieceIsInside(f: string, d: int, g: string)
    requires -(|f| as int) < d < |MARKER| && g != ""
    requires Occurs(g, Front(f, d)) || Occurs(g, Behind(f, d))
    ensures Occurs(g, f) && |g| < |f|
  {
    if Occurs(g, Front(f, d)) {
      var k :| OccursAt(g, Front(f, d), k);
      assert f[..-d] == f[0..-d];
      OccursInside(f, g, 0, -d);
    } else {
      var k :| OccursAt(g, Behind(f, d), k);
      assert f[|MARKER| - d..] == f[|MARKER| - d..|f|];
      OccursInside(f, g, |MARKER| - d, |f|);
    }
  }

  lemma OccursThrough(g: string, f: string, text: string)
    requires Occurs(g, f) && Occurs(f, text)
    ensures Occurs(g, text)
  {
    var k :| OccursAt(f, text, k);
    assert text[k..k + |f|] == f;
    OccursInside(text, g, k, k + |f|);
  }

  /** A form that is left although it cannot meet the marker: there is none. */
  lemma LeftMeets(text: string, secrets: seq<Secret>, order: seq<string>, spans: seq<Span>, f: string)
    requires IsOrder(secrets, order) && ValidSpans(ReplaceInOrder(text, order), spans)
    requires IsForm(secrets, f) && |f| >= 8 && Occurs(f, Redacted(text, order, spans))
    ensures Meets(f, MARKER)
  {
    if !Meets(f, MARKER) {
      FormIsGone(text, order, f);
      BetweenFree(ReplaceInOrder(text, order), spans, 0, f);
      MarkedFree(GapsBetween(ReplaceInOrder(text, order), spans, 0), f, MARKER);
    }
  }

  /** The shortest form that is left is one that returns. */
  lemma {:induction false} LeftReturns(text: string, secrets: seq<Secret>, order: seq<string>, spans: seq<Span>, f: string)
    returns (shortest: string)
    requires IsOrder(secrets, order) && ValidSpans(ReplaceInOrder(text, order), spans)
    requires IsForm(secrets, f) && |f| >= 8 && Occurs(f, Redacted(text, order, spans))
    ensures Returns(secrets, shortest)
    decreases |f|
  {
    LeftMeets(text, secrets, order, spans, f);
    var d :| -(|f| as int) < d < |MARKER| && Agrees(f, d, MARKER);
    if g :| IsForm(secrets, g) && |g| >= 8 && (Occurs(g, Front(f, d)) || Occurs(g, Behind(f, d))) {
      PieceIsInside(f, d, g);
      OccursThrough(g, f, Redacted(text, order, spans));
      shortest := LeftReturns(text, secrets, order, spans, g);
    } else {
      assert ReturnsAt(secrets, f, d);
      shortest := f;
    }
  }

  // -------------------------------------------------- one returns: a text that shows it

  /** No form that is looked for begins or ends with this character. */
  ghost predicate Separates(secrets: seq<Secret>, c: char) {
    forall g :: IsForm(secrets, g) && |g| >= 8 ==> g[0] != c && g[|g| - 1] != c
  }

  function Run(c: char, n: nat): string {
    seq(n, _ => c)
  }

  /** An occurrence that starts in front of a long run, and does not end in it, ends in front of it. */
  lemma OccursInFront(front: string, behind: string, c: char, n: nat, g: string, p: int)
    requires 0 < |g| <= n && g[|g| - 1] != c && OccursAt(g, front + Run(c, n) + behind, p) && p < |front|
    ensures Occurs(g, front)
  {
    var t := front + Run(c, n) + behind;
    assert t[p..p + |g|][|g| - 1] == t[p + |g| - 1];
    assert t[0..|front|] == front;
    InSlice(g, t, 0, |front|, p);
    assert OccursAt(g, front, p);
  }

  lemma OccursBehind(front: string, behind: string, c: char, n: nat, g: string, p: int)
    requires 0 < |g| <= n && g[0] != c && OccursAt(g, front + Run(c, n) + behind, p) && p >= |front|
    ensures Occurs(g, behind)
  {
    var t, i := front + Run(c, n) + behind, |front| + n;
    assert t[p..p + |g|][0] == t[p];
    assert t[i..|t|] == behind;
    InSlice(g, t, i, |t|, p - i);
    assert OccursAt(g, behind, p - i);
  }

  /** A long run of such a character keeps every form out of the join. */
  lemma NothingAcrossRun(front: string, behind: string, c: char, n: nat, g: string)
    requires 0 < |g| <= n && g[0] != c && g[|g| - 1] != c && !Occurs(g, front) && !Occurs(g, behind)
    ensures !Occurs(g, front + Run(c, n) + behind)
  {
    forall p ensures !OccursAt(g, front + Run(c, n) + behind, p) {
      if OccursAt(g, front + Run(c, n) + behind, p) {
        if p < |front| { OccursInFront(front, behind, c, n, g, p); } else { OccursBehind(front, behind, c, n, g, p); }
      }
    }
  }

  lemma {:induction false} AbsentFormsKeep(text: string, order: seq<string>)
    requires forall g :: g in order && |g| >= 8 ==> !Occurs(g, text)
    ensures ReplaceInOrder(text, order) == text
  {
    if order != [] {
      AbsentFormsKeep(text, order[..|order| - 1]);
      if |order[|order| - 1]| >= 8 {
        AbsentIsKept(text, order[|order| - 1]);
      }
    }
  }

  lemma OneSpan(front: string, middle: string, behind: string)
    requires middle != ""
    ensures var t, spans := front + middle + behind, [Span(|front|, |front| + |middle|)];
      ValidSpans(t, spans) && Marked(GapsBetween(t, spans, 0), MARKER) == front + MARKER + behind
  {
    var t, spans := front + middle + behind, [Span(|front|, |front| + |middle|)];
    assert t[0..|front|] == front && t[|front| + |middle|..] == behind;
    assert GapsBetween(t, spans[1..], |front| + |middle|) == [behind];
    assert GapsBetween(t, spans, 0) == [front] + [behind];
    MarkedMore(front, [behind], MARKER);
  }

  lemma PiecesMakeIt(f: string, d: int)
    requires f != "" && -(|f| as int) < d < |MARKER| && Agrees(f, d, MARKER)
    ensures Occurs(f, Front(f, d) + MARKER + Behind(f, d))
  {
    var out, k := Front(f, d) + MARKER + Behind(f, d), if d < 0 then 0 else d;
    forall i | 0 <= i < |f| ensures out[k + i] == f[i] {
      if 0 <= d + i < |MARKER| { assert f[i] == MARKER[d + i]; }
    }
    OccursByIndex(f, out, k);
  }

  lemma LongestIsFirst(order: seq<string>, g: string)
    requires LongestFirst(order) && g in order
    ensures |g| <= |order[0]|
  {
    var i :| 0 <= i < |order| && order[i] == g;
    if i > 0 {
      assert |order[0]| >= |order[i]|;
    }
  }

  lemma NothingOccurs(secrets: seq<Secret>, order: seq<string>, front: string, behind: string, c: char)
    requires IsOrder(secrets, order) && order != [] && Separates(secrets, c) && FreeOf(secrets, front) && FreeOf(secrets, behind)
    ensures forall g :: g in order && |g| >= 8 ==> !Occurs(g, front + Run(c, |order[0]|) + behind)
  {
    forall g | g in order && |g| >= 8 ensures !Occurs(g, front + Run(c, |order[0]|) + behind) {
      LongestIsFirst(order, g);
      NothingAcrossRun(front, behind, c, |order[0]|, g);
    }
  }

  /** Two pieces with a run between them that is taken for a token: the marker goes between them. */
  lemma PiecesRedacted(secrets: seq<Secret>, order: seq<string>, front: string, behind: string, c: char)
    returns (text: string, spans: seq<Span>)
    requires IsOrder(secrets, order) && order != [] && order[0] != ""
    requires Separates(secrets, c) && FreeOf(secrets, front) && FreeOf(secrets, behind)
    ensures ValidSpans(ReplaceInOrder(text, order), spans)
    ensures Redacted(text, order, spans) == front + MARKER + behind
  {
    var run := Run(c, |order[0]|);
    text, spans := front + run + behind, [Span(|front|, |front| + |run|)];
    NothingOccurs(secrets, order, front, behind, c);
    AbsentFormsKeep(text, order);
    OneSpan(front, run, behind);
  }

  /** A text in which a form that returns is left. */
  lemma ReturnShows(secrets: seq<Secret>, order: seq<string>, f: string, c: char) returns (text: string, spans: seq<Span>)
    requires IsOrder(secrets, order) && Returns(secrets, f) && Separates(secrets, c)
    ensures ValidSpans(ReplaceInOrder(text, order), spans) && Occurs(f, Redacted(text, order, spans))
  {
    var d :| ReturnsAt(secrets, f, d);
    LongestIsFirst(order, f);
    text, spans := PiecesRedacted(secrets, order, Front(f, d), Behind(f, d), c);
    PiecesMakeIt(f, d);
  }

  lemma FormsAreLong(secrets: seq<Secret>, f: string)
    requires IsForm(secrets, f) && forall s :: s in secrets ==> Encoded(s)
    ensures |f| >= 8
  {
    var s :| s in secrets && f in FormsOf(s);
    if f != s.text {
      EncodedFormsNeverMeet(s, f);
    }
  }

  /**
   Whatever the secrets: if some character begins and ends none of their forms, then the
   redaction is complete on every text, whatever looks like a token, exactly when no form
   returns, that is, agrees with the marker at an offset at which the pieces that stick out
   of it hold no form themselves.
   */
  lemma CleanIffNothingReturns(secrets: seq<Secret>, order: seq<string>, c: char)
    requires IsOrder(secrets, order) && Separates(secrets, c) && forall s :: s in secrets ==> Encoded(s)
    ensures AlwaysClean(secrets) <==> forall f :: !Returns(secrets, f)
  {
    if f :| Returns(secrets, f) {
      var text, spans := ReturnShows(secrets, order, f, c);
    } else {
      forall text, o, spans, f | IsOrder(secrets, o) && ValidSpans(ReplaceInOrder(text, o), spans) && IsForm(secrets, f)
        ensures !Occurs(f, Redacted(text, o, spans))
      {
        NothingLeft(text, secrets, o, spans, f);
      }
    }
  }

  lemma NothingLeft(text: string, secrets: seq<Secret>, order: seq<string>, spans: seq<Span>, f: string)
    requires IsOrder(secrets, order) && ValidSpans(ReplaceInOrder(text, order), spans) && IsForm(secrets, f)
    requires (forall s :: s in secrets ==> Encoded(s)) && forall g :: !Returns(secrets, g)
    ensures !Occurs(f, Redacted(text, order, spans))
  {
    FormsAreLong(secrets, f);
    if Occurs(f, Redacted(text, order, spans)) {
      var shortest := LeftReturns(text, secrets, order, spans, f);
    }
  }

  // ----------------------------------------------------------------------- one secret

  /** Three characters no encoding has; the secret's own text begins and ends with at most two. */
  function Separator(s: string): char
    requires s != ""
  {
    if s[0] != ' ' && s[|s| - 1] != ' ' then ' ' else if s[0] != '!' && s[|s| - 1] != '!' then '!' else '"'
  }

  lemma SeparatorSeparates(s: Secret)
    requires Encoded(s) && |s.text| >= 8
    ensures Separates([s], Separator(s.text))
  {
    forall g | IsForm([s], g) && |g| >= 8 ensures g[0] != Separator(s.text) && g[|g| - 1] != Separator(s.text) {
      if g != s.text {
        EncodedFormsNeverMeet(s, g);
        assert g[0] in g && g[|g| - 1] in g;
      }
    }
  }

  /** Every form is at least as long as the text, so none lies in what sticks out of the marker. */
  lemma PiecesAreFree(s: Secret, d: int)
    requires Encoded(s) && |s.text| >= 8 && -(|s.text| as int) < d < |MARKER|
    ensures FreeOf([s], Front(s.text, d)) && FreeOf([s], Behind(s.text, d))
  {
    forall g | IsForm([s], g) && |g| >= 8 ensures !Occurs(g, Front(s.text, d)) && !Occurs(g, Behind(s.text, d)) {
      if g != s.text {
        EncodedFormsNeverMeet(s, g);
      }
      if Occurs(g, Front(s.text, d)) || Occurs(g, Behind(s.text, d)) {
        PieceIsInside(s.text, d, g);
      }
    }
  }

  /** One secret, with brackets or without: the redaction is complete exactly when its text cannot overlap the marker. */
  lemma OneSecretIsClean(s: Secret, order: seq<string>)
    requires Encoded(s) && |s.text| >= 8 && IsOrder([s], order)
    ensures AlwaysClean([s]) <==> !Meets(s.text, MARKER)
  {
    SeparatorSeparates(s);
    CleanIffNothingReturns([s], order, Separator(s.text));
    if d :| -(|s.text| as int) < d < |MARKER| && Agrees(s.text, d, MARKER) {
      PiecesAreFree(s, d);
      assert s.text in FormsOf(s) && IsForm([s], s.text) && ReturnsAt([s], s.text, d);
      assert Returns([s], s.text);
    } else {
      forall f ensures !Returns([s], f) {
        if Returns([s], f) {
          OnlyTextReturns(s, f);
        }
      }
    }
  }

  lemma OnlyTextReturns(s: Secret, f: string)
    requires Encoded(s) && Returns([s], f)
    ensures f == s.text && Meets(f, MARKER)
  {
    var d :| ReturnsAt([s], f, d);
    assert Meets(f, MARKER);
    if f != s.text {
      EncodedFormsNeverMeet(s, f);
    }
  }
}
