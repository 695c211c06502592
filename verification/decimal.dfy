/**
  Python's `str` of an `int`: an optional minus sign followed by the decimal
  digits, without leading zeros. `ParseDecimal` reads such text back.
 */
module Decimal {

  predicate IsDigit(c: char)
  {
    '0' <= c <= '9'
  }

  function DigitChar(d: nat): (c: char)
    requires d < 10
    ensures IsDigit(c) && DigitValue(c) == d
  {
    "0123456789"[d]
  }

  /** The value of a digit character; any other character reads as 0. */
  function DigitValue(c: char): nat
  {
    if IsDigit(c) then c as int - '0' as int else 0
  }

  /** Decimal digits of a natural number, most significant first. */
  function NatText(n: nat): (s: string)
    ensures |s| > 0
    ensures forall c :: c in s ==> IsDigit(c)
    ensures s[0] == '0' ==> n == 0
  {
    if n < 10 then [DigitChar(n)] else NatText(n / 10) + [DigitChar(n % 10)]
  }

  /** `str(n)` for a Python int `n`. */
  function DecimalText(n: int): (s: string)
    ensures |s| > 0
    ensures forall c :: c in s ==> c == '-' || IsDigit(c)
    ensures s[0] == '-' <==> n < 0
  {
    if n < 0 then "-" + NatText(-n)
    else
      var s := NatText(n);
      assert s[0] in s;
      s
  }

  /** The natural number written by a string of digits. */
  function ParseNat(s: string): nat
  {
    if s == [] then 0 else ParseNat(s[..|s| - 1]) * 10 + DigitValue(s[|s| - 1])
  }

  /** The integer written by an optional minus sign and digits. */
  function ParseDecimal(s: string): int
  {
    if |s| > 0 && s[0] == '-' then -(ParseNat(s[1..]) as int) else ParseNat(s)
  }

  lemma {:induction false} ParseNatText(n: nat)
    ensures ParseNat(NatText(n)) == n
  {
    var s := NatText(n);
    if n >= 10 {
      ParseNatText(n / 10);
      assert s[..|s| - 1] == NatText(n / 10);
    }
  }

  /** Round trip: reading back the text of `n` gives `n`. */
  lemma {:induction false} ParseDecimalText(n: int)
    ensures ParseDecimal(DecimalText(n)) == n
  {
    if n < 0 {
      assert DecimalText(n)[1..] == NatText(-n);
      ParseNatText(-n);
    } else {
      ParseNatText(n);
    }
  }
}
