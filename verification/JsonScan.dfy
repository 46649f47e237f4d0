/**
 The scan for duplicate names: a stack of open scopes over the raw text, no parser.
 For every JSON text it answers exactly whether some object repeats a decoded name.
 */
module JsonScan {
  import opened JsonText

  /** An open object with the names seen in it, or an open array. */
  datatype Frame = ObjectFrame(keys: set<seq<Unit>>) | ArrayFrame

  /** What `\s` matches in JavaScript. */
  predicate ScriptSpace(u: Unit) {
    || 0x09 <= u <= 0x0D || u == 0x20 || u == 0xA0 || u == 0x1680 || 0x2000 <= u <= 0x200A
    || u == 0x2028 || u == 0x2029 || u == 0x202F || u == 0x205F || u == 0x3000 || u == 0xFEFF
  }

  /** Where a string that opened before position `i` closes; past the end if it never does. */
  function CloseAt(text: seq<Unit>, i: nat): (end: nat)
    ensures i <= end
    decreases |text| - i
  {
    if i >= |text| || text[i] == QUOTE then i
    else if text[i] == BACKSLASH then CloseAt(text, i + 2)
    else CloseAt(text, i + 1)
  }

  /** Just past the literal that starts the text. */
  function LiteralEnd(text: seq<Unit>): (end: nat)
    requires text != []
    ensures 1 <= end <= |text|
  {
    if CloseAt(text, 1) + 1 <= |text| then CloseAt(text, 1) + 1 else |text|
  }

  function SkipSpace(text: seq<Unit>, i: nat): (next: nat)
    requires i <= |text|
    ensures i <= next <= |text|
    decreases |text| - i
  {
    if i < |text| && ScriptSpace(text[i]) then SkipSpace(text, i + 1) else i
  }

  predicate ColonAfter(text: seq<Unit>, i: nat)
    requires i <= |text|
  {
    SkipSpace(text, i) < |text| && text[SkipSpace(text, i)] == COLON
  }

  /** Close the innermost scope of the kind, and everything inside it. */
  function CloseScope(stack: seq<Frame>, brace: bool): (rest: seq<Frame>)
    ensures |rest| <= |stack|
  {
    CloseScopeFrom(stack, brace, |stack|)
  }

  function CloseScopeFrom(stack: seq<Frame>, brace: bool, n: nat): (rest: seq<Frame>)
    requires n <= |stack|
    ensures |rest| <= |stack|
  {
    if n == 0 then stack
    else if stack[n - 1].ObjectFrame? == brace then stack[..n - 1]
    else CloseScopeFrom(stack, brace, n - 1)
  }

  /** The stack after one character outside a string. */
  function Shift(stack: seq<Frame>, u: Unit): seq<Frame> {
    if u == OPEN_BRACE then stack + [ObjectFrame({})]
    else if u == OPEN_BRACKET then stack + [ArrayFrame]
    else if u == CLOSE_BRACE || u == CLOSE_BRACKET then CloseScope(stack, u == CLOSE_BRACE)
    else stack
  }

  predicate InObject(stack: seq<Frame>) {
    stack != [] && stack[|stack| - 1].ObjectFrame?
  }

  function KeysHere(stack: seq<Frame>): set<seq<Unit>>
    requires InObject(stack)
  {
    stack[|stack| - 1].keys
  }

  function WithKey(stack: seq<Frame>, key: seq<Unit>): seq<Frame>
    requires InObject(stack)
  {
    stack[..|stack| - 1] + [ObjectFrame(KeysHere(stack) + {key})]
  }

  /** The scan of the remaining text, under the open scopes. */
  function Scan(text: seq<Unit>, stack: seq<Frame>): bool
    decreases |text|
  {
    if text == [] then false
    else if text[0] != QUOTE then Scan(text[1..], Shift(stack, text[0]))
    else
      var end := LiteralEnd(text);
      var key := ParseString(text[..end]);
      if ColonAfter(text, end) && InObject(stack) && key.Some? then
        key.value in KeysHere(stack) || Scan(text[end..], WithKey(stack, key.value))
      else Scan(text[end..], stack)
  }

  // ------------------------------------------------------------------- the scan itself

  method CloseScopeInPlace(stack: seq<Frame>, brace: bool) returns (rest: seq<Frame>)
    ensures rest == CloseScope(stack, brace)
  {
    rest := stack;
    var index := |stack|;
    while index > 0
      invariant 0 <= index <= |stack| && rest == stack
      invariant CloseScope(stack, brace) == CloseScopeFrom(stack, brace, index)
    {
      index := index - 1;
      if stack[index].ObjectFrame? == brace {
        return stack[..index];
      }
    }
  }

  /** From just inside an opening quote to just past the closing one. */
  method SkipLiteral(text: seq<Unit>, start: nat) returns (end: nat)
    requires start < |text|
    ensures end == start + LiteralEnd(text[start..])
  {
    var cursor := start + 1;
    ghost var rest := text[start..];
    while cursor < |text| && text[cursor] != QUOTE
      invariant start + 1 <= cursor
      invariant CloseAt(rest, 1) == CloseAt(rest, cursor - start)
      decreases |text| - cursor
    {
      if text[cursor] == BACKSLASH { cursor := cursor + 2; } else { cursor := cursor + 1; }
    }
    end := if cursor + 1 <= |text| then cursor + 1 else |text|;
  }

  method ColonFollows(text: seq<Unit>, start: nat, end: nat) returns (yes: bool)
    requires start <= end <= |text|
    ensures yes == ColonAfter(text[start..], end - start)
  {
    var next := end;
    ghost var rest := text[start..];
    while next < |text| && ScriptSpace(text[next])
      invariant end <= next <= |text|
      invariant SkipSpace(rest, end - start) == SkipSpace(rest, next - start)
    {
      next := next + 1;
    }
    yes := next < |text| && text[next] == COLON;
  }

  method RawJsonHasDuplicateKey(text: seq<Unit>) returns (found: bool)
    ensures found == Scan(text, [])
  {
    var stack: seq<Frame> := [];
    var cursor := 0;
    assert text[0..] == text;
    while cursor < |text|
      invariant cursor <= |text| && Scan(text, []) == Scan(text[cursor..], stack)
    {
      ghost var rest := text[cursor..];
      var u := text[cursor];
      if u == QUOTE {
        var end := SkipLiteral(text, cursor);
        assert text[end..] == rest[end - cursor..];
        var colon := ColonFollows(text, cursor, end);
        if colon && InObject(stack) {
          assert text[cursor..end] == rest[..end - cursor];
          var key := ParseString(text[cursor..end]);
          if key.Some? {
            if key.value in KeysHere(stack) { return true; }
            stack := WithKey(stack, key.value);
          }
        }
        cursor := end;
      } else {
        assert text[cursor + 1..] == rest[1..];
        if u == OPEN_BRACE {
          stack := stack + [ObjectFrame({})];
        } else if u == OPEN_BRACKET {
          stack := stack + [ArrayFrame];
        } else if u == CLOSE_BRACE || u == CLOSE_BRACKET {
          stack := CloseScopeInPlace(stack, u == CLOSE_BRACE);
        }
        cursor := cursor + 1;
      }
    }
    found := false;
  }

  // ------------------------------------------------- what the scan does on JSON texts

  predicate Neutral(u: Unit) {
    u != QUOTE && u != OPEN_BRACE && u != CLOSE_BRACE && u != OPEN_BRACKET && u != CLOSE_BRACKET
  }

  /** Characters that are neither quotes nor brackets pass unnoticed. */
  lemma {:induction false} ScanNeutral(text: seq<Unit>, tail: seq<Unit>, stack: seq<Frame>)
    requires forall u :: u in text ==> Neutral(u)
    ensures Scan(text + tail, stack) == Scan(tail, stack)
  {
    if text == [] {
      assert text + tail == tail;
    } else {
      assert (text + tail)[1..] == text[1..] + tail;
      assert Neutral(text[0]);
      ScanNeutral(text[1..], tail, stack);
    }
  }

  lemma {:induction false} CloseAtShift(lead: seq<Unit>, text: seq<Unit>, i: nat)
    ensures CloseAt(lead + text, |lead| + i) == |lead| + CloseAt(text, i)
    decreases |text| - i
  {
    var all := lead + text;
    if i < |text| {
      assert all[|lead| + i] == text[i];
      if text[i] == BACKSLASH {
        CloseAtShift(lead, text, i + 2);
        assert |lead| + i + 2 == |lead| + (i + 2);
      } else if text[i] != QUOTE {
        CloseAtShift(lead, text, i + 1);
        assert |lead| + i + 1 == |lead| + (i + 1);
      }
    }
  }

  /** No escape hides the closing quote, and none shows one too early. */
  lemma {:induction false} CloseAtPieces(ps: seq<Piece>, tail: seq<Unit>)
    requires ValidPieces(ps)
    ensures CloseAt(PiecesText(ps) + [QUOTE] + tail, 0) == |PiecesText(ps)|
  {
    var text := PiecesText(ps) + [QUOTE] + tail;
    if ps != [] {
      var first, rest := PieceText(ps[0]), PiecesText(ps[1..]) + [QUOTE] + tail;
      assert ValidPiece(ps[0]);
      assert text == first + rest;
      CloseAtPieces(ps[1..], tail);
      CloseAtShift(first, rest, 0);
      SkipPiece(ps[0], rest);
    }
  }

  lemma SkipPiece(p: Piece, rest: seq<Unit>)
    requires ValidPiece(p)
    ensures CloseAt(PieceText(p) + rest, 0) == CloseAt(PieceText(p) + rest, |PieceText(p)|)
  {
    var text := PieceText(p) + rest;
    match p
    case Plain(_) =>
    case Short(_) =>
    case Hex(a, b, c, d) =>
      assert text[2] == a && text[3] == b && text[4] == c && text[5] == d;
      assert CloseAt(text, 0) == CloseAt(text, 2) == CloseAt(text, 3) == CloseAt(text, 4) == CloseAt(text, 5) == CloseAt(text, 6);
  }

  lemma LiteralOf(ps: seq<Piece>, tail: seq<Unit>)
    requires ValidPieces(ps)
    ensures LiteralEnd(StringText(ps) + tail) == |StringText(ps)|
    ensures (StringText(ps) + tail)[..|StringText(ps)|] == StringText(ps)
    ensures (StringText(ps) + tail)[|StringText(ps)|..] == tail
  {
    var inner := PiecesText(ps) + [QUOTE] + tail;
    assert StringText(ps) + tail == [QUOTE] + inner;
    CloseAtPieces(ps, tail);
    CloseAtShift([QUOTE], inner, 0);
  }

  /** A string that is not followed by a colon, or not inside an object, is skipped. */
  lemma ScanString(ps: seq<Piece>, tail: seq<Unit>, stack: seq<Frame>)
    requires ValidPieces(ps) && !(ColonAfter(tail, 0) && InObject(stack))
    ensures Scan(StringText(ps) + tail, stack) == Scan(tail, stack)
  {
    LiteralOf(ps, tail);
    SkipSpaceShift(StringText(ps), tail, 0);
  }

  /** A member name is looked up among the names of its object, and joins them. */
  lemma ScanName(ps: seq<Piece>, tail: seq<Unit>, stack: seq<Frame>)
    requires ValidPieces(ps) && ColonAfter(tail, 0) && InObject(stack)
    ensures Scan(StringText(ps) + tail, stack)
         == (PiecesValue(ps) in KeysHere(stack) || Scan(tail, WithKey(stack, PiecesValue(ps))))
  {
    LiteralOf(ps, tail);
    SkipSpaceShift(StringText(ps), tail, 0);
    StringRoundTrip(ps);
  }

  lemma {:induction false} SkipSpaceShift(lead: seq<Unit>, text: seq<Unit>, i: nat)
    requires i <= |text|
    ensures SkipSpace(lead + text, |lead| + i) == |lead| + SkipSpace(text, i)
    ensures ColonAfter(lead + text, |lead| + i) == ColonAfter(text, i)
    decreases |text| - i
  {
    var all := lead + text;
    if i < |text| {
      assert all[|lead| + i] == text[i];
      if ScriptSpace(text[i]) {
        SkipSpaceShift(lead, text, i + 1);
        assert |lead| + i + 1 == |lead| + (i + 1);
      }
    }
  }

  /** Behind white space, what comes next decides whether a colon follows. */
  lemma {:induction false} ColonBehind(ws: seq<Unit>, tail: seq<Unit>)
    requires IsSpace(ws) && tail != [] && !ScriptSpace(tail[0])
    ensures ColonAfter(ws + tail, 0) <==> tail[0] == COLON
  {
    var all := ws + tail;
    if ws != [] {
      ColonBehind(ws[1..], tail);
      assert all == ws[..1] + (ws[1..] + tail);
      SkipSpaceShift(ws[..1], ws[1..] + tail, 0);
      assert JsonSpace(ws[0]);
      assert SkipSpace(all, 0) == SkipSpace(all, 1);
    } else {
      assert all == tail;
    }
  }

  lemma ScanSpace(ws: seq<Unit>, tail: seq<Unit>, stack: seq<Frame>)
    requires IsSpace(ws)
    ensures Scan(ws + tail, stack) == Scan(tail, stack)
  {
    forall u | u in ws ensures Neutral(u) {
      assert JsonSpace(u);
    }
    ScanNeutral(ws, tail, stack);
  }
}
