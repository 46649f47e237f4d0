/** Which string literals are read, and what their escapes stand for. */
module JsonLaws {
  import opened Prelude
  import opened JsonText

  /** The eight short escapes of section 7 of RFC 8259, and no others. */
  lemma ShortEscapes(u: Unit)
    ensures ShortEscape('"' as int) == Some(0x22) && ShortEscape('\\' as int) == Some(0x5C) && ShortEscape('/' as int) == Some(0x2F)
    ensures ShortEscape('b' as int) == Some(8) && ShortEscape('t' as int) == Some(9) && ShortEscape('n' as int) == Some(10)
    ensures ShortEscape('f' as int) == Some(12) && ShortEscape('r' as int) == Some(13)
    ensures ShortEscape(u).Some? ==> (u as char) in "\"\\/bfnrt"
  {
  }

  /** The digit of a number below sixteen, in either case. */
  function DigitOf(n: nat, upper: bool): Unit
    requires n < 16
  {
    if n < 10 then '0' as int + n else (if upper then 'A' as int else 'a' as int) + n - 10
  }

  lemma DigitRead(n: nat, upper: bool)
    requires n < 16
    ensures HexDigit(DigitOf(n, upper)) && HexValue(DigitOf(n, upper)) == n
  {
  }

  /** Four hexadecimal digits stand for the number they spell, in either case. */
  lemma HexSpells(a: nat, b: nat, c: nat, d: nat, upper: bool)
    requires a < 16 && b < 16 && c < 16 && d < 16
    ensures var p := Hex(DigitOf(a, upper), DigitOf(b, upper), DigitOf(c, upper), DigitOf(d, upper));
      ValidPiece(p) && PieceValue(p) == ((a * 16 + b) * 16 + c) * 16 + d
  {
    DigitRead(a, upper);
    DigitRead(b, upper);
    DigitRead(c, upper);
    DigitRead(d, upper);
  }

  /** The text starts with a piece and goes on behind it. */
  lemma FirstPiece(text: seq<Unit>) returns (p: Piece, rest: seq<Unit>)
    requires text != [] && text[0] != QUOTE && ParseRest(text).Some?
    ensures ValidPiece(p) && text == PieceText(p) + rest
    ensures ParseRest(rest).Some? && ParseRest(text).value == [PieceValue(p)] + ParseRest(rest).value
  {
    if text[0] != BACKSLASH {
      p, rest := Plain(text[0]), text[1..];
    } else if ShortEscape(text[1]).Some? {
      p, rest := Short(text[1]), text[2..];
    } else {
      p, rest := Hex(text[2], text[3], text[4], text[5]), text[6..];
    }
  }

  lemma {:induction false} ReadRestIsPieces(text: seq<Unit>) returns (ps: seq<Piece>)
    requires ParseRest(text).Some?
    ensures ValidPieces(ps) && text == PiecesText(ps) + [QUOTE] && ParseRest(text).value == PiecesValue(ps)
    decreases |text|
  {
    if text[0] == QUOTE {
      ps := [];
      assert text == [QUOTE];
    } else {
      var p, rest := FirstPiece(text);
      var more := ReadRestIsPieces(rest);
      ps := [p] + more;
      assert ps[1..] == more;
      assert PieceText(p) + (PiecesText(more) + [QUOTE]) == PieceText(p) + PiecesText(more) + [QUOTE];
    }
  }

  /** Nothing but a string literal is read: what is read is a sequence of pieces in quotes, with their value. */
  lemma OnlyLiteralsAreRead(text: seq<Unit>)
    ensures ParseString(text).Some? <==> exists ps :: ValidPieces(ps) && text == StringText(ps)
  {
    if ParseString(text).Some? {
      var ps := ReadRestIsPieces(text[1..]);
      assert text == StringText(ps);
    }
    if ps :| ValidPieces(ps) && text == StringText(ps) {
      StringRoundTrip(ps);
    }
  }
}
