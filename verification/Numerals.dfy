/** Decimal numerals as printf and json print them. */
module Numerals {

  function Digit(d: nat): char
    requires d < 10
  {
    '0' + d as char
  }

  function Digits(n: nat): string {
    if n < 10 then [Digit(n)] else Digits(n / 10) + [Digit(n % 10)]
  }

  function Decimal(i: int): string {
    if i < 0 then "-" + Digits(-i) else Digits(i)
  }

  lemma {:induction false} DigitsAreDigits(n: nat)
    ensures |Digits(n)| > 0
    ensures forall i :: 0 <= i < |Digits(n)| ==> '0' <= Digits(n)[i] <= '9'
  {
    if n >= 10 { DigitsAreDigits(n / 10); }
  }

  lemma {:induction false} DigitsReadBack(m: nat, n: nat)
    requires Digits(m) == Digits(n)
    ensures m == n
  {
    DigitsAreDigits(m / 10);
    DigitsAreDigits(n / 10);
    assert Digits(m)[|Digits(m)| - 1] == Digit(m % 10);
    assert Digits(n)[|Digits(n)| - 1] == Digit(n % 10);
    if m >= 10 && n >= 10 {
      assert Digits(m / 10) == Digits(m)[..|Digits(m)| - 1];
      assert Digits(n / 10) == Digits(n)[..|Digits(n)| - 1];
      DigitsReadBack(m / 10, n / 10);
    }
  }

  lemma DecimalReadsBack(i: int, j: int)
    requires Decimal(i) == Decimal(j)
    ensures i == j
  {
    if i >= 0 { DigitsAreDigits(i); }
    if j >= 0 { DigitsAreDigits(j); }
    assert i < 0 <==> Decimal(i)[0] == '-';
    assert j < 0 <==> Decimal(j)[0] == '-';
    if i < 0 && j < 0 {
      assert Digits(-i) == Decimal(i)[1..] && Digits(-j) == Decimal(j)[1..];
      DigitsReadBack(-i, -j);
    } else if i >= 0 && j >= 0 {
      DigitsReadBack(i, j);
    }
  }

  lemma DecimalIsPlain(i: int)
    ensures '"' !in Decimal(i) && ',' !in Decimal(i) && '}' !in Decimal(i)
  {
    DigitsAreDigits(if i < 0 then -i else i);
  }

  /** The size a buffer must have: n < 10^k prints in at most k digits. */
  lemma {:induction false} DigitsFit(n: nat, k: nat)
    requires k > 0 && n < PowerOfTen(k)
    ensures |Digits(n)| <= k
  {
    if n >= 10 {
      assert k > 1;
      DigitsFit(n / 10, k - 1);
    }
  }

  function PowerOfTen(k: nat): nat { if k == 0 then 1 else 10 * PowerOfTen(k - 1) }

  lemma TwentyDigits()
    ensures PowerOfTen(20) == 100_000_000_000_000_000_000
  {
    assert PowerOfTen(5) == 100_000;
    assert PowerOfTen(10) == 10_000_000_000;
    assert PowerOfTen(15) == 1_000_000_000_000_000;
  }

  lemma WordFits(n: nat)
    requires n < 0x1_0000_0000_0000_0000
    ensures |Digits(n)| <= 20
  {
    TwentyDigits();
    DigitsFit(n, 20);
  }

  /** Ten to the k prints in k + 1 digits. */
  lemma {:induction false} PowersPrintLong(k: nat)
    ensures |Digits(PowerOfTen(k))| == k + 1
  {
    if k > 0 {
      PowersPrintLong(k - 1);
      PowerIsPositive(k - 1);
      assert PowerOfTen(k) / 10 == PowerOfTen(k - 1);
    }
  }

  lemma {:induction false} PowerIsPositive(k: nat)
    ensures PowerOfTen(k) > 0
  {
    if k > 0 { PowerIsPositive(k - 1); }
  }
}
