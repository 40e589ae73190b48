/** Numbers written in decimal digits. */
module DecimalText {

  function Digit(n: nat): char
    requires n < 10
  {
    "0123456789"[n]
  }

  function Decimal(n: nat): string { if n < 10 then [Digit(n)] else Decimal(n / 10) + [Digit(n % 10)] }

  function DigitValue(c: char): nat { if '0' <= c <= '9' then (c - '0') as nat else 0 }

  function Value(s: string): nat { if s == "" then 0 else Value(s[..|s| - 1]) * 10 + DigitValue(s[|s| - 1]) }

  lemma {:induction false} DecimalReadsBack(n: nat)
    ensures Value(Decimal(n)) == n
    ensures forall c :: c in Decimal(n) ==> c != '/'
  {
    assert DigitValue(Digit(n % 10)) == n % 10 && Digit(n % 10) != '/';
    if n < 10 {
      assert Decimal(n)[..0] == "";
    } else {
      DecimalReadsBack(n / 10);
      assert Decimal(n)[..|Decimal(n)| - 1] == Decimal(n / 10);
    }
  }

  function Pow10(n: nat): nat { if n == 0 then 1 else 10 * Pow10(n - 1) }

  lemma {:induction false} DecimalFits(n: nat, digits: nat)
    requires 0 < digits && n < Pow10(digits)
    ensures |Decimal(n)| <= digits
  {
    if n >= 10 {
      DecimalFits(n / 10, digits - 1);
    }
  }
}
