/**
 JSON texts as concrete syntax: every value together with the white space and the
 escapes it is written with (sections 2 to 7 of RFC 8259). A text is a sequence of UTF-16
 code units.
 */
module JsonText {
  import opened Prelude

  type Unit = x: int | 0 <= x < 0x1_0000

  const QUOTE: Unit := 0x22
  const BACKSLASH: Unit := 0x5C
  const SLASH: Unit := 0x2F
  const COLON: Unit := 0x3A
  const COMMA: Unit := 0x2C
  const OPEN_BRACE: Unit := 0x7B
  const CLOSE_BRACE: Unit := 0x7D
  const OPEN_BRACKET: Unit := 0x5B
  const CLOSE_BRACKET: Unit := 0x5D

  // ------------------------------------------------------------------------- strings

  predicate HexDigit(u: Unit) {
    0x30 <= u <= 0x39 || 0x41 <= u <= 0x46 || 0x61 <= u <= 0x66
  }

  function HexValue(u: Unit): (n: Unit)
    requires HexDigit(u)
    ensures n < 16
  {
    if u <= 0x39 then u - 0x30 else if u <= 0x46 then u - 0x41 + 10 else u - 0x61 + 10
  }

  /** What a letter after a backslash stands for. */
  function ShortEscape(u: Unit): Option<Unit> {
    if u == QUOTE || u == BACKSLASH || u == SLASH then Some(u)
    else if u == 0x62 then Some(0x08)
    else if u == 0x66 then Some(0x0C)
    else if u == 0x6E then Some(0x0A)
    else if u == 0x72 then Some(0x0D)
    else if u == 0x74 then Some(0x09)
    else None
  }

  /** One code unit of a string, as it is written. */
  datatype Piece = Plain(unit: Unit) | Short(letter: Unit) | Hex(a: Unit, b: Unit, c: Unit, d: Unit)

  predicate ValidPiece(p: Piece) {
    match p
    case Plain(u) => u >= 0x20 && u != QUOTE && u != BACKSLASH
    case Short(u) => ShortEscape(u).Some?
    case Hex(a, b, c, d) => HexDigit(a) && HexDigit(b) && HexDigit(c) && HexDigit(d)
  }

  function PieceText(p: Piece): seq<Unit> {
    match p
    case Plain(u) => [u]
    case Short(u) => [BACKSLASH, u]
    case Hex(a, b, c, d) => [BACKSLASH, 0x75, a, b, c, d]
  }

  function PieceValue(p: Piece): Unit
    requires ValidPiece(p)
  {
    match p
    case Plain(u) => u
    case Short(u) => ShortEscape(u).value
    case Hex(a, b, c, d) => HexValue(a) * 0x1000 + HexValue(b) * 0x100 + HexValue(c) * 0x10 + HexValue(d)
  }

  predicate ValidPieces(ps: seq<Piece>) {
    forall p :: p in ps ==> ValidPiece(p)
  }

  function PiecesText(ps: seq<Piece>): seq<Unit> {
    if ps == [] then [] else PieceText(ps[0]) + PiecesText(ps[1..])
  }

  function PiecesValue(ps: seq<Piece>): (value: seq<Unit>)
    requires ValidPieces(ps)
  {
    if ps == [] then [] else [PieceValue(ps[0])] + PiecesValue(ps[1..])
  }

  function StringText(ps: seq<Piece>): seq<Unit> {
    [QUOTE] + PiecesText(ps) + [QUOTE]
  }

  /** Read the rest of a string literal up to a closing quote that ends the text. */
  function ParseRest(text: seq<Unit>): Option<seq<Unit>> {
    if text == [] then None
    else if text[0] == QUOTE then (if |text| == 1 then Some([]) else None)
    else if text[0] < 0x20 then None
    else if text[0] != BACKSLASH then Prepend(text[0], ParseRest(text[1..]))
    else if |text| < 2 then None
    else if ShortEscape(text[1]).Some? then Prepend(ShortEscape(text[1]).value, ParseRest(text[2..]))
    else if text[1] == 0x75 && |text| >= 6 && forall i :: 2 <= i < 6 ==> HexDigit(text[i]) then
      Prepend(PieceValue(Hex(text[2], text[3], text[4], text[5])), ParseRest(text[6..]))
    else None
  }

  function Prepend(u: Unit, rest: Option<seq<Unit>>): Option<seq<Unit>> {
    if rest.None? then None else Some([u] + rest.value)
  }

  /** What parsing a whole string literal answers. */
  function ParseString(text: seq<Unit>): Option<seq<Unit>> {
    if text == [] || text[0] != QUOTE then None else ParseRest(text[1..])
  }

  lemma {:induction false} ParseRestOfPieces(ps: seq<Piece>)
    requires ValidPieces(ps)
    ensures ParseRest(PiecesText(ps) + [QUOTE]) == Some(PiecesValue(ps))
  {
    if ps != [] {
      var rest := PiecesText(ps[1..]) + [QUOTE];
      ParseRestOfPieces(ps[1..]);
      assert ValidPiece(ps[0]);
      var text := PiecesText(ps) + [QUOTE];
      assert text == PieceText(ps[0]) + rest;
      match ps[0]
      case Plain(u) => assert text[1..] == rest;
      case Short(u) => assert text[2..] == rest;
      case Hex(a, b, c, d) =>
        assert text[6..] == rest;
        assert text[2] == a && text[3] == b && text[4] == c && text[5] == d;
    }
  }

  /** Reading back a literal gives the name, however its code units were escaped. */
  lemma StringRoundTrip(ps: seq<Piece>)
    requires ValidPieces(ps)
    ensures ParseString(StringText(ps)) == Some(PiecesValue(ps))
  {
    ParseRestOfPieces(ps);
    assert StringText(ps)[1..] == PiecesText(ps) + [QUOTE];
  }

  // -------------------------------------------------------------------------- values

  predicate JsonSpace(u: Unit) {
    u == 0x20 || u == 0x09 || u == 0x0A || u == 0x0D
  }

  predicate IsSpace(ws: seq<Unit>) {
    forall u :: u in ws ==> JsonSpace(u)
  }

  /** A number or one of the three literal names. */
  predicate IsToken(text: seq<Unit>) {
    text != [] && forall u :: u in text ==>
      0x61 <= u <= 0x7A || 0x30 <= u <= 0x39 || u == 0x2B || u == 0x2D || u == 0x2E || u == 0x45
  }

  datatype Value =
    | Token(text: seq<Unit>)
    | Str(pieces: seq<Piece>)
    | Arr(inner: seq<Unit>, items: seq<Item>)
    | Obj(inner: seq<Unit>, members: seq<Member>)

  datatype Item = Item(before: seq<Unit>, value: Value, after: seq<Unit>)

  datatype Member = Member(
    before: seq<Unit>, name: seq<Piece>, beforeColon: seq<Unit>, afterColon: seq<Unit>, value: Value, after: seq<Unit>)

  datatype Document = Document(before: seq<Unit>, value: Value, after: seq<Unit>)

  predicate WellFormed(v: Value) {
    match v
    case Token(text) => IsToken(text)
    case Str(pieces) => ValidPieces(pieces)
    case Arr(inner, items) => IsSpace(inner) && forall i :: 0 <= i < |items| ==> WellFormedItem(items[i])
    case Obj(inner, members) => IsSpace(inner) && forall i :: 0 <= i < |members| ==> WellFormedMember(members[i])
  }

  predicate WellFormedItem(item: Item) {
    IsSpace(item.before) && WellFormed(item.value) && IsSpace(item.after)
  }

  predicate WellFormedMember(m: Member) {
    && IsSpace(m.before) && ValidPieces(m.name) && IsSpace(m.beforeColon)
    && IsSpace(m.afterColon) && WellFormed(m.value) && IsSpace(m.after)
  }

  function Render(v: Value): seq<Unit> {
    match v
    case Token(text) => text
    case Str(pieces) => StringText(pieces)
    case Arr(inner, items) => [OPEN_BRACKET] + (if items == [] then inner else RenderItems(items)) + [CLOSE_BRACKET]
    case Obj(inner, members) => [OPEN_BRACE] + (if members == [] then inner else RenderMembers(members)) + [CLOSE_BRACE]
  }

  function RenderItem(item: Item): seq<Unit> {
    item.before + Render(item.value) + item.after
  }

  function RenderItems(items: seq<Item>): seq<Unit>
    requires items != []
  {
    if |items| == 1 then RenderItem(items[0]) else RenderItem(items[0]) + [COMMA] + RenderItems(items[1..])
  }

  function RenderMember(m: Member): seq<Unit> {
    m.before + StringText(m.name) + m.beforeColon + [COLON] + m.afterColon + Render(m.value) + m.after
  }

  function RenderMembers(members: seq<Member>): seq<Unit>
    requires members != []
  {
    if |members| == 1 then RenderMember(members[0]) else RenderMember(members[0]) + [COMMA] + RenderMembers(members[1..])
  }

  function RenderDocument(d: Document): seq<Unit> {
    d.before + Render(d.value) + d.after
  }

  predicate WellFormedDocument(d: Document) {
    IsSpace(d.before) && WellFormed(d.value) && IsSpace(d.after)
  }

  // ---------------------------------------------------------------------- duplicates

  /** The decoded name of a member. */
  function NameOf(m: Member): seq<Unit>
    requires WellFormedMember(m)
  {
    PiecesValue(m.name)
  }

  /** Some object, at any depth, has two members with the same decoded name. */
  predicate HasDuplicate(v: Value)
    requires WellFormed(v)
  {
    match v
    case Token(_) => false
    case Str(_) => false
    case Arr(_, items) => exists i :: 0 <= i < |items| && WellFormedItem(items[i]) && HasDuplicate(items[i].value)
    case Obj(_, members) =>
      || (exists i, j :: 0 <= i < j < |members| && NameOf(members[i]) == NameOf(members[j]))
      || (exists i :: 0 <= i < |members| && WellFormedMember(members[i]) && HasDuplicate(members[i].value))
  }
}
