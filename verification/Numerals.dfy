/** Numbers in text, in bases up to sixteen. */
module Numerals {

  const DIGITS := "0123456789abcdef"

  function Digit(d: nat): char
    requires d < 16
  {
    DIGITS[d]
  }

  predicate IsDigit(c: char) { '0' <= c <= '9' || 'a' <= c <= 'f' }

  function ValueOf(c: char): (d: nat)
    ensures d < 16
  {
    if '0' <= c <= '9' then c as int - '0' as int
    else if 'a' <= c <= 'f' then c as int - 'a' as int + 10
    else 0
  }

  lemma DigitValue(d: nat)
    requires d < 16
    ensures IsDigit(Digit(d)) && ValueOf(Digit(d)) == d
    ensures d < 10 ==> '0' <= Digit(d) <= '9'
  {
  }

  /** What the stream inserters and printf print, without leading zeros. */
  function Numeral(n: nat, base: nat): (s: string)
    requires 2 <= base <= 16
    ensures |s| > 0
  {
    if n < base then [Digit(n)] else Numeral(n / base, base) + [Digit(n % base)]
  }

  function Power(base: nat, k: nat): nat { if k == 0 then 1 else base * Power(base, k - 1) }

  /** Only digits, the last one not more than the base allows, and as few as needed. */
  lemma {:induction false} NumeralDigits(n: nat, base: nat)
    requires 2 <= base <= 16
    ensures forall i :: 0 <= i < |Numeral(n, base)| ==>
              IsDigit(Numeral(n, base)[i]) && ValueOf(Numeral(n, base)[i]) < base
  {
    if n < base {
      DigitValue(n);
    } else {
      NumeralDigits(n / base, base);
      DigitValue(n % base);
    }
  }

  lemma {:induction false} NumeralLength(n: nat, base: nat, k: nat)
    requires 2 <= base <= 16 && k > 0 && n < Power(base, k)
    ensures |Numeral(n, base)| <= k
  {
    if n >= base {
      assert Power(base, 1) == base * Power(base, 0) == base;
      Quotient(n, base, Power(base, k - 1));
      NumeralLength(n / base, base, k - 1);
    }
  }

  lemma Quotient(n: nat, base: nat, m: nat)
    requires base > 0 && n < base * m
    ensures n / base < m
  {
    assert base * (n / base) <= n;
    assert base * (n / base - m) == base * (n / base) - base * m;
  }
}
