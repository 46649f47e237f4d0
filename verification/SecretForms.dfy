/**
 Redacting the listed secrets from an output: every secret in its raw form and in the
 encodings of its bytes, longest form first, and then whatever has the shape of a token.
 */
module SecretForms {
  import opened TextSearch
  import opened Redaction

  const MARKER := "[REDACTED]"
  const WORD := "REDACTED"

  type Byte = x: int | 0 <= x < 256

  // ------------------------------------------------------------------------ encodings

  function Digit64(n: nat): char
    requires n < 64
  {
    if n < 26 then ('A' as int + n) as char
    else if n < 52 then ('a' as int + n - 26) as char
    else if n < 62 then ('0' as int + n - 52) as char
    else if n == 62 then '+' else '/'
  }

  /** The four characters of one to three bytes. */
  function Group64(bytes: seq<Byte>): string
    requires 1 <= |bytes| <= 3
  {
    if |bytes| == 1 then [Digit64(bytes[0] / 4), Digit64(bytes[0] % 4 * 16), '=', '=']
    else if |bytes| == 2 then
      [Digit64(bytes[0] / 4), Digit64(bytes[0] % 4 * 16 + bytes[1] / 16), Digit64(bytes[1] % 16 * 4), '=']
    else
      [Digit64(bytes[0] / 4), Digit64(bytes[0] % 4 * 16 + bytes[1] / 16),
       Digit64(bytes[1] % 16 * 4 + bytes[2] / 64), Digit64(bytes[2] % 64)]
  }

  function Base64(bytes: seq<Byte>): string {
    if bytes == [] then "" else if |bytes| < 3 then Group64(bytes) else Group64(bytes[..3]) + Base64(bytes[3..])
  }

  function Unpadded(s: string): string {
    if s != "" && s[|s| - 1] == '=' then Unpadded(s[..|s| - 1]) else s
  }

  function UrlChar(c: char): char {
    if c == '+' then '-' else if c == '/' then '_' else c
  }

  function Url(s: string): string {
    seq(|s|, i requires 0 <= i < |s| => UrlChar(s[i]))
  }

  function HexDigit(n: nat): char
    requires n < 16
  {
    if n < 10 then ('0' as int + n) as char else ('a' as int + n - 10) as char
  }

  function Hex(bytes: seq<Byte>): string {
    if bytes == [] then "" else [HexDigit(bytes[0] / 16), HexDigit(bytes[0] % 16)] + Hex(bytes[1..])
  }

  /** A secret: its text and the UTF-8 bytes of it, at least one for each code unit. */
  datatype Secret = Secret(text: string, bytes: seq<Byte>)

  predicate Encoded(s: Secret) {
    |s.text| <= |s.bytes|
  }

  /** The forms under which a secret is looked for; a short one is not looked for at all. */
  function FormsOf(s: Secret): seq<string> {
    if |s.text| < 8 then []
    else [s.text, Base64(s.bytes), Unpadded(Base64(s.bytes)), Unpadded(Url(Base64(s.bytes))), Hex(s.bytes)]
  }

  ghost predicate IsForm(secrets: seq<Secret>, f: string) {
    exists s :: s in secrets && f in FormsOf(s)
  }

  // ------------------------------------------------------ encodings never meet the marker

  predicate NoBracket(s: string) {
    '[' !in s && ']' !in s
  }

  /** Characters of an encoding: neither brackets nor quotes nor space. */
  predicate PlainChar(c: char) {
    c > '"' && c != '[' && c != ']'
  }

  predicate Plain(s: string) {
    forall c :: c in s ==> PlainChar(c)
  }

  /** What lies over an end of the marker has a bracket. */
  lemma CoversBracket(f: string, d: int)
    requires -(|f| as int) < d < |MARKER| && Agrees(f, d, MARKER) && (d <= 0 || d + |f| >= |MARKER|)
    ensures !NoBracket(f)
  {
    if d <= 0 {
      assert f[-d] == MARKER[0] && f[-d] in f;
    } else {
      assert f[|MARKER| - 1 - d] == MARKER[|MARKER| - 1] && f[|MARKER| - 1 - d] in f;
    }
  }

  /** A text without brackets can only lie inside the marker, and from eight characters on only as one word. */
  lemma WithoutBrackets(f: string)
    requires NoBracket(f) && |f| >= 8
    ensures Meets(f, MARKER) <==> f == WORD
  {
    if f == WORD {
      assert Agrees(f, 1, MARKER);
    }
    if d :| -(|f| as int) < d < |MARKER| && Agrees(f, d, MARKER) {
      if d <= 0 || d + |f| >= |MARKER| {
        CoversBracket(f, d);
      } else {
        assert forall i :: 0 <= i < 8 ==> f[i] == MARKER[1 + i];
        assert MARKER[1..9] == WORD;
        assert f == MARKER[1..9];
      }
    }
  }

  lemma PaddingOff(s: string, n: nat)
    requires 0 < n <= |s| <= n + 2 && s[n - 1] != '=' && forall i :: n <= i < |s| ==> s[i] == '='
    ensures Unpadded(s) == s[..n]
    decreases |s|
  {
    if |s| > n {
      assert s[..|s| - 1][..n] == s[..n];
      PaddingOff(s[..|s| - 1], n);
    } else {
      assert s[..n] == s;
    }
  }

  lemma DigitIsPlain(n: nat)
    requires n < 64
    ensures PlainChar(Digit64(n)) && Digit64(n) != '='
  {
  }

  lemma GroupIsPlain(bytes: seq<Byte>)
    requires 1 <= |bytes| <= 3
    ensures |Group64(bytes)| == 4 && Plain(Group64(bytes))
    ensures |bytes| == 3 ==> Group64(bytes)[3] != '='
  {
    DigitIsPlain(bytes[0] / 4);
    DigitIsPlain(bytes[0] % 4 * 16);
    if |bytes| == 2 {
      DigitIsPlain(bytes[0] % 4 * 16 + bytes[1] / 16);
      DigitIsPlain(bytes[1] % 16 * 4);
    } else if |bytes| == 3 {
      DigitIsPlain(bytes[0] % 4 * 16 + bytes[1] / 16);
      DigitIsPlain(bytes[1] % 16 * 4 + bytes[2] / 64);
      DigitIsPlain(bytes[2] % 64);
    }
  }

  lemma PlainJoined(a: string, b: string)
    requires Plain(a) && Plain(b)
    ensures Plain(a + b)
  {
  }

  lemma {:induction false} Base64IsPlain(bytes: seq<Byte>)
    ensures Plain(Base64(bytes))
  {
    if |bytes| >= 3 {
      GroupIsPlain(bytes[..3]);
      Base64IsPlain(bytes[3..]);
      PlainJoined(Group64(bytes[..3]), Base64(bytes[3..]));
    } else if bytes != [] {
      GroupIsPlain(bytes);
    }
  }

  lemma {:induction false} Base64Length(bytes: seq<Byte>)
    ensures 3 * |Base64(bytes)| >= 4 * |bytes|
  {
    if |bytes| >= 3 {
      GroupIsPlain(bytes[..3]);
      Base64Length(bytes[3..]);
    } else if bytes != [] {
      GroupIsPlain(bytes);
    }
  }

  lemma {:induction false} LittlePadding(bytes: seq<Byte>)
    ensures |Unpadded(Base64(bytes))| >= |Base64(bytes)| - 2
  {
    var s := Base64(bytes);
    if |bytes| >= 3 {
      LittlePadding(bytes[3..]);
      GroupIsPlain(bytes[..3]);
      UnpaddedBehind(Group64(bytes[..3]), Base64(bytes[3..]));
    } else if |bytes| == 2 {
      PaddingOff(s, 3);
    } else if |bytes| == 1 {
      PaddingOff(s, 2);
    }
  }

  lemma {:induction false} UnpaddedBehind(front: string, s: string)
    requires front != "" && front[|front| - 1] != '='
    ensures |Unpadded(front + s)| >= |front| + |Unpadded(s)|
    decreases |s|
  {
    if s == "" {
      assert front + s == front;
    } else {
      assert (front + s)[..|front + s| - 1] == front + s[..|s| - 1];
      UnpaddedBehind(front, s[..|s| - 1]);
    }
  }

  lemma {:induction false} UnpaddedIsPrefix(s: string)
    ensures Unpadded(s) <= s
  {
    if s != "" && s[|s| - 1] == '=' {
      UnpaddedIsPrefix(s[..|s| - 1]);
    }
  }

  lemma {:induction false} UrlUnpadded(s: string)
    ensures |Unpadded(Url(s))| == |Unpadded(s)|
  {
    if s != "" && s[|s| - 1] == '=' {
      assert Url(s)[..|s| - 1] == Url(s[..|s| - 1]);
      UrlUnpadded(s[..|s| - 1]);
    }
  }

  lemma {:induction false} HexShape(bytes: seq<Byte>)
    ensures Plain(Hex(bytes)) && |Hex(bytes)| == 2 * |bytes|
  {
    if bytes != [] {
      HexShape(bytes[1..]);
    }
  }

  lemma UrlIsPlain(s: string)
    requires Plain(s)
    ensures Plain(Url(s))
  {
    forall c | c in Url(s) ensures PlainChar(c) {
      var i :| 0 <= i < |s| && Url(s)[i] == c;
      assert s[i] in s;
    }
  }

  lemma UnpaddedIsPlain(s: string)
    requires Plain(s)
    ensures Plain(Unpadded(s))
  {
    UnpaddedIsPrefix(s);
    forall c | c in Unpadded(s) ensures PlainChar(c) {
      var i :| 0 <= i < |Unpadded(s)| && Unpadded(s)[i] == c;
      assert s[i] == c && s[i] in s;
    }
  }

  /** An encoding of at least eight bytes: as long at least, and plain. */
  predicate LongAndPlain(s: Secret, f: string) {
    |f| > 8 && |f| >= |s.text| && Plain(f)
  }

  lemma Base64Forms(s: Secret)
    requires Encoded(s) && |s.text| >= 8
    ensures LongAndPlain(s, Base64(s.bytes)) && LongAndPlain(s, Unpadded(Base64(s.bytes)))
    ensures LongAndPlain(s, Unpadded(Url(Base64(s.bytes))))
  {
    var b64 := Base64(s.bytes);
    Base64IsPlain(s.bytes);
    Base64Length(s.bytes);
    LittlePadding(s.bytes);
    UnpaddedIsPlain(b64);
    UrlUnpadded(b64);
    UrlIsPlain(b64);
    UnpaddedIsPlain(Url(b64));
  }

  /** Every form other than the raw text is as long at least, longer than eight characters, and free of brackets. */
  lemma EncodedFormsNeverMeet(s: Secret, f: string)
    requires Encoded(s) && f in FormsOf(s) && f != s.text
    ensures |f| > 8 && |f| >= |s.text| && Plain(f) && NoBracket(f) && !Meets(f, MARKER)
  {
    Base64Forms(s);
    HexShape(s.bytes);
    assert LongAndPlain(s, f);
    WithoutBrackets(f);
  }

  // -------------------------------------------------------------------- the redaction

  datatype Span = Span(start: nat, end: nat)

  /** Disjoint stretches of a text, in order. */
  predicate ValidSpans(text: string, spans: seq<Span>) {
    && (forall i :: 0 <= i < |spans| ==> spans[i].start < spans[i].end <= |text|)
    && (forall i, j :: 0 <= i < j < |spans| ==> spans[i].end <= spans[j].start)
  }

  /** The stretches of the text from `from` on that the spans leave standing. */
  function GapsBetween(text: string, spans: seq<Span>, from: nat): (gaps: seq<string>)
    requires ValidSpans(text, spans) && from <= |text| && (spans != [] ==> from <= spans[0].start)
    ensures gaps != []
    decreases |spans|
  {
    if spans == [] then [text[from..]]
    else [text[from..spans[0].start]] + GapsBetween(text, spans[1..], spans[0].end)
  }

  lemma {:induction false} BetweenFree(text: string, spans: seq<Span>, from: nat, f: string)
    requires ValidSpans(text, spans) && from <= |text| && (spans != [] ==> from <= spans[0].start)
    requires !Occurs(f, text)
    ensures forall gap :: gap in GapsBetween(text, spans, from) ==> !Occurs(f, gap)
    decreases |spans|
  {
    if spans == [] {
      assert text[from..] == text[from..|text|];
      if Occurs(f, text[from..]) { OccursInside(text, f, from, |text|); }
    } else {
      BetweenFree(text, spans[1..], spans[0].end, f);
      if Occurs(f, text[from..spans[0].start]) { OccursInside(text, f, from, spans[0].start); }
    }
  }

  function ReplaceInOrder(text: string, order: seq<string>): string {
    if order == [] then text
    else if |order[|order| - 1]| < 8 then ReplaceInOrder(text, order[..|order| - 1])
    else ReplaceAll(ReplaceInOrder(text, order[..|order| - 1]), order[|order| - 1], MARKER)
  }

  /** `shapes` finds the stretches of a text that look like tokens. */
  ghost predicate FindsShapes(shapes: string -> seq<Span>) {
    forall text :: ValidSpans(text, shapes(text))
  }

  function Redacted(text: string, order: seq<string>, spans: seq<Span>): string
    requires ValidSpans(ReplaceInOrder(text, order), spans)
  {
    Marked(GapsBetween(ReplaceInOrder(text, order), spans, 0), MARKER)
  }

  predicate LongestFirst(order: seq<string>) {
    forall i, j :: 0 <= i < j < |order| ==> |order[i]| >= |order[j]|
  }

  /** The forms of all secrets, each once, longest first. */
  ghost predicate IsOrder(secrets: seq<Secret>, order: seq<string>) {
    LongestFirst(order)
    && (forall f :: f in order <==> IsForm(secrets, f))
    && (forall i, j :: 0 <= i < j < |order| ==> order[i] != order[j])
  }

  /** Once it has had its turn a form is gone, and no later replacement brings it back. */
  lemma {:induction false} FormIsGone(text: string, order: seq<string>, f: string)
    requires f in order && |f| >= 8 && !Meets(f, MARKER)
    ensures !Occurs(f, ReplaceInOrder(text, order))
  {
    var before, last := order[..|order| - 1], order[|order| - 1];
    if f in before {
      FormIsGone(text, before, f);
    }
    if |last| >= 8 {
      ReplacedIsGone(ReplaceInOrder(text, before), last, f, MARKER);
    }
  }

  /**
   No form of a listed secret of eight characters or more occurs in the output, as long
   as no such secret, as it is written, can overlap the marker. The encoded forms never can.
   */
  lemma NothingListedSurvives(text: string, secrets: seq<Secret>, order: seq<string>, spans: seq<Span>, f: string)
    requires IsOrder(secrets, order) && ValidSpans(ReplaceInOrder(text, order), spans)
    requires forall s :: s in secrets ==> Encoded(s) && (|s.text| >= 8 ==> !Meets(s.text, MARKER))
    requires IsForm(secrets, f)
    ensures !Occurs(f, Redacted(text, order, spans))
  {
    var s :| s in secrets && f in FormsOf(s);
    if f != s.text {
      EncodedFormsNeverMeet(s, f);
    }
    FormIsGone(text, order, f);
    BetweenFree(ReplaceInOrder(text, order), spans, 0, f);
    MarkedFree(GapsBetween(ReplaceInOrder(text, order), spans, 0), f, MARKER);
  }

  /** In particular when the secrets have no brackets and none of them is the word inside the marker. */
  lemma PlainSecretsNeverSurvive(text: string, secrets: seq<Secret>, order: seq<string>, spans: seq<Span>, f: string)
    requires IsOrder(secrets, order) && ValidSpans(ReplaceInOrder(text, order), spans)
    requires forall s :: s in secrets ==> Encoded(s) && NoBracket(s.text) && s.text != WORD
    requires IsForm(secrets, f)
    ensures !Occurs(f, Redacted(text, order, spans))
  {
    forall s | s in secrets && |s.text| >= 8 ensures !Meets(s.text, MARKER) {
      WithoutBrackets(s.text);
    }
    NothingListedSurvives(text, secrets, order, spans, f);
  }

  /** Without brackets, the word inside the marker is the only secret that a redaction leaves readable. */
  lemma OneWordSurvives(f: string)
    requires NoBracket(f) && |f| >= 8
    ensures (forall text :: !Occurs(f, ReplaceAll(text, f, MARKER))) <==> f != WORD
  {
    WithoutBrackets(f);
    GoneIffItCannotComeBack(f, MARKER);
    if f == WORD {
      assert Agrees(f, 1, MARKER);
      assert ComesBack(f, MARKER);
    }
  }

  lemma AbsentIsKept(text: string, f: string)
    requires f != "" && !Occurs(f, text)
    ensures ReplaceAll(text, f, MARKER) == text
  {
    ReplaceFirst(text, f, MARKER);
    assert First(text, f) < |text| ==> OccursAt(f, text, First(text, f));
  }

  lemma OtherFormsAreAbsent(f: string)
    requires NoBracket(f) && f != WORD && |f| >= 8
    ensures !Occurs(f, WORD) && !Occurs(f, MARKER)
  {
    forall k ensures !OccursAt(f, MARKER, k) {
      if OccursAt(f, MARKER, k) {
        assert forall i :: 0 <= i < |f| ==> f[i] == MARKER[k..k + |f|][i] == MARKER[k + i];
        assert Agrees(f, k, MARKER);
        WithoutBrackets(f);
      }
    }
    assert WORD == MARKER[1..9];
    forall k ensures !OccursAt(f, WORD, k) {
      InSlice(f, MARKER, 1, 9, k);
    }
  }

  lemma WordReplaced()
    ensures ReplaceAll(WORD, WORD, MARKER) == MARKER
  {
    ReplaceOnce("", WORD, "", MARKER);
    assert "" + WORD + "" == WORD && "" + MARKER + "" == MARKER;
  }

  lemma {:induction false} WordBecomesMarker(order: seq<string>)
    requires forall f :: f in order ==> NoBracket(f)
    requires forall i, j :: 0 <= i < j < |order| ==> order[i] != order[j]
    ensures ReplaceInOrder(WORD, order) == if WORD in order then MARKER else WORD
  {
    if order != [] {
      var before, last := order[..|order| - 1], order[|order| - 1];
      WordBecomesMarker(before);
      assert order == before + [last];
      if last == WORD {
        WordReplaced();
      } else if |last| >= 8 {
        OtherFormsAreAbsent(last);
        AbsentIsKept(ReplaceInOrder(WORD, before), last);
      }
    }
  }

  /** No form occurs in what a text is redacted to, in whatever order and whatever looks like a token. */
  ghost predicate AlwaysClean(secrets: seq<Secret>) {
    forall text, order, spans, f ::
      IsOrder(secrets, order) && ValidSpans(ReplaceInOrder(text, order), spans) && IsForm(secrets, f) ==>
        !Occurs(f, Redacted(text, order, spans))
  }

  lemma TheWordSurvives(secrets: seq<Secret>, order: seq<string>)
    requires IsOrder(secrets, order) && forall s :: s in secrets ==> Encoded(s) && NoBracket(s.text)
    requires IsForm(secrets, WORD)
    ensures !AlwaysClean(secrets)
  {
    forall f | f in order ensures NoBracket(f) {
      var x :| x in secrets && f in FormsOf(x);
      if f != x.text { EncodedFormsNeverMeet(x, f); }
    }
    WordBecomesMarker(order);
    assert ValidSpans(MARKER, []);
    assert Redacted(WORD, order, []) == MARKER[0..] == MARKER;
    assert OccursAt(WORD, MARKER, 1);
  }

  /**
   For secrets without brackets the redaction is complete, on every text, exactly when
   none of them is the word inside the marker.
   */
  lemma CleanIffNotTheWord(secrets: seq<Secret>, order: seq<string>)
    requires IsOrder(secrets, order) && forall s :: s in secrets ==> Encoded(s) && NoBracket(s.text)
    ensures AlwaysClean(secrets) <==> forall s :: s in secrets ==> s.text != WORD
  {
    if forall s :: s in secrets ==> s.text != WORD {
      forall text, o, spans, f | IsOrder(secrets, o) && ValidSpans(ReplaceInOrder(text, o), spans) && IsForm(secrets, f)
        ensures !Occurs(f, Redacted(text, o, spans))
      {
        PlainSecretsNeverSurvive(text, secrets, o, spans, f);
      }
    } else {
      var s :| s in secrets && s.text == WORD;
      assert WORD in FormsOf(s) && IsForm(secrets, WORD);
      TheWordSurvives(secrets, order);
    }
  }

  /** Until a form has its turn, only forms at least as long have been replaced. */
  lemma OnlyLongerBefore(order: seq<string>, i: nat)
    requires LongestFirst(order) && i < |order|
    ensures forall g :: g in order[..i] ==> |g| >= |order[i]|
  {
  }

  // ------------------------------------------------------------------- the loop itself

  method InsertForm(order: seq<string>, f: string) returns (longer: seq<string>)
    requires LongestFirst(order) && f !in order && forall i, j :: 0 <= i < j < |order| ==> order[i] != order[j]
    ensures LongestFirst(longer) && forall i, j :: 0 <= i < j < |longer| ==> longer[i] != longer[j]
    ensures forall g :: g in longer <==> g in order || g == f
  {
    var at := 0;
    while at < |order| && |order[at]| >= |f|
      invariant at <= |order| && forall i :: 0 <= i < at ==> |order[i]| >= |f|
    {
      at := at + 1;
    }
    longer := order[..at] + [f] + order[at..];
    Inserted(order, at, f);
  }

  lemma Inserted(order: seq<string>, at: nat, f: string)
    requires LongestFirst(order) && f !in order && forall i, j :: 0 <= i < j < |order| ==> order[i] != order[j]
    requires at <= |order| && (forall i :: 0 <= i < at ==> |order[i]| >= |f|) && (at < |order| ==> |order[at]| < |f|)
    ensures var longer := order[..at] + [f] + order[at..];
      && LongestFirst(longer) && (forall i, j :: 0 <= i < j < |longer| ==> longer[i] != longer[j])
      && forall g :: g in longer <==> g in order || g == f
  {
    var longer := order[..at] + [f] + order[at..];
    forall i, j | 0 <= i < j < |longer| ensures |longer[i]| >= |longer[j]| && longer[i] != longer[j] {
      assert longer[i] == if i < at then order[i] else if i == at then f else order[i - 1];
      assert longer[j] == if j < at then order[j] else if j == at then f else order[j - 1];
    }
    assert order == order[..at] + order[at..];
    assert forall g :: g in longer <==> g in order[..at] || g == f || g in order[at..];
  }

  method AddForms(before: seq<string>, forms: seq<string>) returns (order: seq<string>)
    requires LongestFirst(before) && forall a, b :: 0 <= a < b < |before| ==> before[a] != before[b]
    ensures LongestFirst(order) && forall a, b :: 0 <= a < b < |order| ==> order[a] != order[b]
    ensures forall f :: f in order <==> f in before || f in forms
  {
    order := before;
    for j := 0 to |forms|
      invariant LongestFirst(order) && forall a, b :: 0 <= a < b < |order| ==> order[a] != order[b]
      invariant forall f :: f in order <==> f in before || f in forms[..j]
    {
      if forms[j] !in order {
        order := InsertForm(order, forms[j]);
      }
    }
  }

  /** Collect the forms of all secrets, each once, longest first. */
  method CollectForms(secrets: seq<Secret>) returns (order: seq<string>)
    ensures IsOrder(secrets, order)
  {
    order := [];
    for i := 0 to |secrets|
      invariant IsOrder(secrets[..i], order)
    {
      order := AddForms(order, FormsOf(secrets[i]));
      assert secrets[..i + 1] == secrets[..i] + [secrets[i]];
    }
    assert secrets[..|secrets|] == secrets;
  }

  /** The output is what replacing the forms in such an order, and then the token shapes, leaves. */
  ghost predicate IsRedaction(text: string, secrets: seq<Secret>, shapes: string -> seq<Span>, out: string)
    requires FindsShapes(shapes)
  {
    exists order :: IsOrder(secrets, order) && out == Redacted(text, order, shapes(ReplaceInOrder(text, order)))
  }

  method RedactSecrets(text: string, secrets: seq<Secret>, shapes: string -> seq<Span>) returns (out: string)
    requires FindsShapes(shapes)
    ensures IsRedaction(text, secrets, shapes, out)
    ensures (forall s :: s in secrets ==> Encoded(s) && (|s.text| >= 8 ==> !Meets(s.text, MARKER))) ==>
      forall f :: IsForm(secrets, f) ==> !Occurs(f, out)
  {
    var forms := CollectForms(secrets);
    var s := text;
    for i := 0 to |forms|
      invariant s == ReplaceInOrder(text, forms[..i])
    {
      assert forms[..i + 1][..i] == forms[..i];
      if |forms[i]| >= 8 {
        s := ReplaceEach(s, forms[i], MARKER);
      }
    }
    assert forms[..|forms|] == forms;
    out := ReplaceSpans(s, shapes(s));
    if forall x :: x in secrets ==> Encoded(x) && (|x.text| >= 8 ==> !Meets(x.text, MARKER)) {
      forall f | IsForm(secrets, f) ensures !Occurs(f, out) {
        NothingListedSurvives(text, secrets, forms, shapes(s), f);
      }
    }
  }

  method ReplaceSpans(text: string, spans: seq<Span>) returns (out: string)
    requires ValidSpans(text, spans)
    ensures out == Marked(GapsBetween(text, spans, 0), MARKER)
  {
    out := "";
    var cursor: nat := 0;
    assert spans[0..] == spans;
    for i := 0 to |spans|
      invariant cursor <= |text| && (i < |spans| ==> cursor <= spans[i].start)
      invariant Marked(GapsBetween(text, spans, 0), MARKER) == out + Marked(GapsBetween(text, spans[i..], cursor), MARKER)
    {
      assert spans[i..][1..] == spans[i + 1..];
      MarkedMore(text[cursor..spans[i].start], GapsBetween(text, spans[i + 1..], spans[i].end), MARKER);
      Regroup(out, text[cursor..spans[i].start], MARKER, Marked(GapsBetween(text, spans[i + 1..], spans[i].end), MARKER));
      out := out + text[cursor..spans[i].start] + MARKER;
      cursor := spans[i].end;
    }
    out := out + text[cursor..];
  }
}
