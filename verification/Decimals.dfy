/** Numbers in decimal: how they are spelled and how they are read. */
module Decimals {
  function Decimal(n: nat): string {
    if n < 10 then [(n + '0' as int) as char] else Decimal(n / 10) + [(n % 10 + '0' as int) as char]
  }

  predicate Digits(s: string) {
    s != "" && forall i :: 0 <= i < |s| ==> '0' <= s[i] <= '9'
  }

  function Value(c: char): nat
    requires '0' <= c <= '9'
  {
    c as int - '0' as int
  }

  function Number(s: string): nat
    requires Digits(s)
  {
    if |s| == 1 then Value(s[0]) else Number(s[..|s| - 1]) * 10 + Value(s[|s| - 1])
  }

  /** A number is read back from its spelling. */
  lemma {:induction false} NumberOfDecimal(n: nat)
    ensures Digits(Decimal(n)) && Number(Decimal(n)) == n
  {
    if n >= 10 {
      NumberOfDecimal(n / 10);
      assert Decimal(n)[..|Decimal(n)| - 1] == Decimal(n / 10);
    }
  }

  lemma DecimalInjective(m: nat, n: nat)
    requires Decimal(m) == Decimal(n)
    ensures m == n
  {
    NumberOfDecimal(m);
    NumberOfDecimal(n);
  }

  /** The number spelled in decimal, perhaps with zeros in front. */
  predicate Numeral(s: string, n: nat) {
    s == Decimal(n) || (s != "" && s[0] == '0' && Numeral(s[1..], n))
  }

  lemma {:induction false} ZeroInFront(s: string)
    requires Digits(s)
    ensures Digits("0" + s) && Number("0" + s) == Number(s)
  {
    var t := "0" + s;
    if |s| == 1 {
      assert t[..|t| - 1] == "0";
    } else {
      ZeroInFront(s[..|s| - 1]);
      assert t[..|t| - 1] == "0" + s[..|s| - 1];
    }
  }

  lemma {:induction false} NumeralIsRead(s: string, n: nat)
    requires Numeral(s, n)
    ensures Digits(s) && Number(s) == n
  {
    if s == Decimal(n) {
      NumberOfDecimal(n);
    } else {
      NumeralIsRead(s[1..], n);
      ZeroInFront(s[1..]);
      assert s == "0" + s[1..];
    }
  }

  lemma {:induction false} NumeralOneMore(s: string, n: nat, c: char)
    requires Numeral(s, n) && '0' <= c <= '9'
    ensures Numeral(s + [c], n * 10 + Value(c))
    decreases |s|
  {
    if s == Decimal(n) {
      var m := n * 10 + Value(c);
      assert m / 10 == n && m % 10 == Value(c);
      if n == 0 {
        assert s == "0";
        assert (s + [c])[1..] == [c] == Decimal(m);
      } else {
        assert Decimal(m) == s + [c];
      }
    } else {
      NumeralOneMore(s[1..], n, c);
      assert (s + [c])[1..] == s[1..] + [c];
    }
  }

  lemma {:induction false} DigitsAreNumeral(s: string)
    requires Digits(s)
    ensures Numeral(s, Number(s))
  {
    if |s| == 1 {
      assert Decimal(Value(s[0])) == s;
    } else {
      DigitsAreNumeral(s[..|s| - 1]);
      NumeralOneMore(s[..|s| - 1], Number(s[..|s| - 1]), s[|s| - 1]);
      assert s == s[..|s| - 1] + [s[|s| - 1]];
    }
  }

  /** Digits are exactly the spellings of a number, and the number that is read is the one spelled. */
  lemma DigitsIffNumeral(s: string, n: nat)
    ensures Numeral(s, n) <==> Digits(s) && Number(s) == n
  {
    if Numeral(s, n) {
      NumeralIsRead(s, n);
    } else if Digits(s) && Number(s) == n {
      DigitsAreNumeral(s);
    }
  }
}
