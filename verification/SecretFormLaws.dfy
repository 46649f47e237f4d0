/** The encodings of a secret can be read back, and none of them is left in the output. */
module SecretFormLaws {
  import opened Redaction
  import opened SecretForms

  // --------------------------------------------------------------- reading an encoding

  /** The digits of section 4 of RFC 4648. */
  lemma DigitsOfTheStandard(n: nat)
    requires n < 64
    ensures n < 26 ==> Digit64(n) == "ABCDEFGHIJKLMNOPQRSTUVWXYZ"[n]
    ensures 26 <= n < 52 ==> Digit64(n) == "abcdefghijklmnopqrstuvwxyz"[n - 26]
    ensures 52 <= n ==> Digit64(n) == "0123456789+/"[n - 52]
    ensures UrlChar(Digit64(n)) == if n == 62 then '-' else if n == 63 then '_' else Digit64(n)
    ensures n < 16 ==> HexDigit(n) == "0123456789abcdef"[n]
  {
  }

  /** What a digit stands for, in either of the two alphabets. */
  function Value64(c: char): (n: nat)
    ensures n < 64
  {
    if 'A' <= c <= 'Z' then c as int - 'A' as int
    else if 'a' <= c <= 'z' then c as int - 'a' as int + 26
    else if '0' <= c <= '9' then c as int - '0' as int + 52
    else if c == '+' || c == '-' then 62
    else if c == '/' || c == '_' then 63
    else 0
  }

  /** The bytes of Base64 text of either alphabet, with or without padding. */
  function Decode64(s: string): seq<Byte> {
    if |s| < 2 then []
    else
      var a, b := Value64(s[0]), Value64(s[1]);
      var first := a * 4 + b / 16;
      if |s| < 3 || s[2] == '=' then [first]
      else
        var c := Value64(s[2]);
        var second := b % 16 * 16 + c / 4;
        if |s| < 4 || s[3] == '=' then [first, second]
        else
          var d := Value64(s[3]);
          [first, second, c % 4 * 64 + d] + Decode64(s[4..])
  }

  function ValueOfHex(c: char): (n: nat)
    ensures n < 16
  {
    if '0' <= c <= '9' then c as int - '0' as int else if 'a' <= c <= 'f' then c as int - 'a' as int + 10 else 0
  }

  function DecodeHex(s: string): seq<Byte> {
    if |s| < 2 then [] else [ValueOfHex(s[0]) * 16 + ValueOfHex(s[1])] + DecodeHex(s[2..])
  }

  lemma DigitRead(n: nat)
    requires n < 64
    ensures Value64(Digit64(n)) == n && Digit64(n) != '='
  {
  }

  /** Four characters give back their three bytes. */
  lemma TripleRead(bytes: seq<Byte>, rest: string)
    requires |bytes| == 3
    ensures Decode64(Group64(bytes) + rest) == bytes + Decode64(rest)
  {
    var x, y, z := bytes[0], bytes[1], bytes[2];
    DigitRead(x / 4);
    DigitRead(x % 4 * 16 + y / 16);
    DigitRead(y % 16 * 4 + z / 64);
    DigitRead(z % 64);
    assert (Group64(bytes) + rest)[4..] == rest;
    BitsJoin(x, y, z);
    assert bytes == [x, y, z];
  }

  lemma BitsJoin(x: Byte, y: Byte, z: Byte)
    ensures x / 4 * 4 + (x % 4 * 16 + y / 16) / 16 == x
    ensures (x % 4 * 16 + y / 16) % 16 * 16 + (y % 16 * 4 + z / 64) / 4 == y
    ensures (y % 16 * 4 + z / 64) % 4 * 64 + z % 64 == z
  {
  }

  /** One or two bytes at the end, with `pad` signs of padding left. */
  lemma TailRead(bytes: seq<Byte>, pad: nat)
    requires 1 <= |bytes| <= 2 && |bytes| + 1 + pad <= 4
    ensures Decode64(Group64(bytes)[..|bytes| + 1 + pad]) == bytes
  {
    var x, y := bytes[0], if |bytes| == 2 then bytes[1] else 0;
    DigitRead(x / 4);
    DigitRead(x % 4 * 16);
    DigitRead(x % 4 * 16 + y / 16);
    DigitRead(y % 16 * 4);
    BitsJoin(x, y, 0);
    assert bytes == if |bytes| == 2 then [x, y] else [x];
  }

  /** Base64 is read back, */
  lemma {:induction false} Base64Reads(bytes: seq<Byte>)
    ensures Decode64(Base64(bytes)) == bytes
  {
    if |bytes| >= 3 {
      TripleRead(bytes[..3], Base64(bytes[3..]));
      Base64Reads(bytes[3..]);
      assert bytes == bytes[..3] + bytes[3..];
    } else if bytes != [] {
      TailRead(bytes, 3 - |bytes|);
      assert Group64(bytes)[..4] == Group64(bytes);
    }
  }

  lemma {:induction false} UnpaddedAfter(front: string, s: string)
    requires front != "" && front[|front| - 1] != '='
    ensures Unpadded(front + s) == front + Unpadded(s)
    decreases |s|
  {
    if s == "" {
      assert front + s == front;
    } else {
      assert (front + s)[..|front + s| - 1] == front + s[..|s| - 1];
      if s[|s| - 1] == '=' {
        UnpaddedAfter(front, s[..|s| - 1]);
      }
    }
  }

  /** also without its padding, */
  lemma {:induction false} UnpaddedReads(bytes: seq<Byte>)
    ensures Decode64(Unpadded(Base64(bytes))) == bytes
  {
    if |bytes| >= 3 {
      GroupIsPlain(bytes[..3]);
      UnpaddedAfter(Group64(bytes[..3]), Base64(bytes[3..]));
      TripleRead(bytes[..3], Unpadded(Base64(bytes[3..])));
      UnpaddedReads(bytes[3..]);
      assert bytes == bytes[..3] + bytes[3..];
    } else if bytes != [] {
      var s := Group64(bytes);
      GroupIsPlain(bytes);
      DigitRead(if |bytes| == 1 then bytes[0] % 4 * 16 else bytes[1] % 16 * 4);
      PaddingOff(s, |bytes| + 1);
      TailRead(bytes, 0);
    }
  }

  lemma UrlDigit(c: char)
    ensures Value64(UrlChar(c)) == Value64(c) && (UrlChar(c) == '=' <==> c == '=')
  {
  }

  lemma {:induction false} UrlReads(s: string)
    ensures Decode64(Url(s)) == Decode64(s)
  {
    forall i | 0 <= i < |s| ensures Value64(Url(s)[i]) == Value64(s[i]) && (Url(s)[i] == '=' <==> s[i] == '=') {
      UrlDigit(s[i]);
    }
    if |s| >= 4 {
      assert Url(s)[4..] == Url(s[4..]);
      UrlReads(s[4..]);
    }
  }

  lemma {:induction false} UnpaddedUrl(s: string)
    ensures Unpadded(Url(s)) == Url(Unpadded(s))
  {
    if s != "" {
      UrlDigit(s[|s| - 1]);
      if s[|s| - 1] == '=' {
        assert Url(s)[..|s| - 1] == Url(s[..|s| - 1]);
        UnpaddedUrl(s[..|s| - 1]);
      }
    }
  }

  /** and in the alphabet for names and addresses. */
  lemma UrlFormReads(bytes: seq<Byte>)
    ensures Decode64(Unpadded(Url(Base64(bytes)))) == bytes
  {
    UnpaddedUrl(Base64(bytes));
    UrlReads(Unpadded(Base64(bytes)));
    UnpaddedReads(bytes);
  }

  /** Hexadecimal text is read back. */
  lemma {:induction false} HexReads(bytes: seq<Byte>)
    ensures DecodeHex(Hex(bytes)) == bytes
  {
    if bytes != [] {
      var pair := [HexDigit(bytes[0] / 16), HexDigit(bytes[0] % 16)];
      assert Hex(bytes) == pair + Hex(bytes[1..]) && Hex(bytes)[2..] == Hex(bytes[1..]);
      HexReads(bytes[1..]);
      assert ValueOfHex(pair[0]) == bytes[0] / 16 && ValueOfHex(pair[1]) == bytes[0] % 16;
      assert bytes == [bytes[0]] + bytes[1..];
    }
  }

  /** No padding is left. */
  lemma {:induction false} UnpaddedEnds(s: string)
    ensures Unpadded(s) != "" ==> Unpadded(s)[|Unpadded(s)| - 1] != '='
  {
    if s != "" && s[|s| - 1] == '=' {
      UnpaddedEnds(s[..|s| - 1]);
    }
  }

  /** The alphabet for names and addresses has neither plus nor slash. */
  lemma UrlAlphabet(s: string)
    ensures '+' !in Url(s) && '/' !in Url(s) && |Url(s)| == |s|
  {
  }

  // --------------------------------------------------------------- none of them is left

  /** A listed secret of eight characters or more is gone from the output as it is written and in each of its encodings. */
  lemma NoEncodingSurvives(text: string, secrets: seq<Secret>, order: seq<string>, spans: seq<Span>, s: Secret)
    requires IsOrder(secrets, order) && ValidSpans(ReplaceInOrder(text, order), spans)
    requires forall x :: x in secrets ==> Encoded(x) && (|x.text| >= 8 ==> !Meets(x.text, MARKER))
    requires s in secrets && |s.text| >= 8
    ensures var out := Redacted(text, order, spans);
      && !Occurs(s.text, out) && !Occurs(Base64(s.bytes), out) && !Occurs(Unpadded(Base64(s.bytes)), out)
      && !Occurs(Unpadded(Url(Base64(s.bytes))), out) && !Occurs(Hex(s.bytes), out)
  {
    var forms := [s.text, Base64(s.bytes), Unpadded(Base64(s.bytes)), Unpadded(Url(Base64(s.bytes))), Hex(s.bytes)];
    forall i | 0 <= i < 5 ensures !Occurs(forms[i], Redacted(text, order, spans)) {
      assert forms[i] in FormsOf(s);
      NothingListedSurvives(text, secrets, order, spans, forms[i]);
    }
    assert !Occurs(forms[0], Redacted(text, order, spans)) && !Occurs(forms[1], Redacted(text, order, spans))
        && !Occurs(forms[2], Redacted(text, order, spans)) && !Occurs(forms[3], Redacted(text, order, spans))
        && !Occurs(forms[4], Redacted(text, order, spans));
  }

  /** A secret of eight characters or more is not there, as written or encoded. */
  ghost predicate Untouched(text: string, s: Secret) {
    |s.text| >= 8 ==>
      && !Occurs(s.text, text) && !Occurs(Base64(s.bytes), text) && !Occurs(Unpadded(Base64(s.bytes)), text)
      && !Occurs(Unpadded(Url(Base64(s.bytes))), text) && !Occurs(Hex(s.bytes), text)
  }

  lemma {:induction false} AbsentFormsKeep(text: string, order: seq<string>)
    requires forall f :: f in order ==> !Occurs(f, text)
    ensures ReplaceInOrder(text, order) == text
    decreases |order|
  {
    if order != [] {
      var last := order[|order| - 1];
      AbsentFormsKeep(text, order[..|order| - 1]);
      if |last| >= 8 {
        AbsentIsKept(text, last);
      }
    }
  }

  /** Nothing else is replaced: a text with none of these in it is only searched for tokens. */
  lemma NothingElseReplaced(text: string, secrets: seq<Secret>, order: seq<string>)
    requires IsOrder(secrets, order) && forall s :: s in secrets ==> Untouched(text, s)
    ensures ReplaceInOrder(text, order) == text
    ensures ValidSpans(text, []) && Redacted(text, order, []) == text
  {
    forall f | f in order ensures !Occurs(f, text) {
      var s :| s in secrets && f in FormsOf(s);
      assert Untouched(text, s);
    }
    AbsentFormsKeep(text, order);
    assert text[0..] == text;
  }
}
