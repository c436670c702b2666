/** Decimal text of integers, as strconv.Itoa and fmt's %d produce it, and its reading back. */
module Decimal {

  function Digit(d: nat): (c: char)
    requires d < 10
    ensures '0' <= c <= '9' && c as int == 48 + d
  {
    (48 + d) as char
  }

  predicate IsDigit(c: char) {
    '0' <= c <= '9'
  }

  function Digits(n: nat): (s: string)
    ensures |s| >= 1
    ensures forall i :: 0 <= i < |s| ==> IsDigit(s[i])
    ensures |s| > 1 ==> s[0] != '0'
    ensures n > 0 ==> s[0] != '0'
  {
    if n < 10 then [Digit(n)] else Digits(n / 10) + [Digit(n % 10)]
  }

  function Itoa(n: int): string {
    if n < 0 then "-" + Digits(-n) else Digits(n)
  }

  /** The number a run of decimal digits stands for. */
  function Number(s: string): nat
    requires forall i :: 0 <= i < |s| ==> IsDigit(s[i])
  {
    if |s| == 0 then 0
    else
      assert IsDigit(s[|s| - 1]);
      10 * Number(s[..|s| - 1]) + (s[|s| - 1] as int - 48)
  }

  lemma {:induction false} NumberDigits(n: nat)
    ensures Number(Digits(n)) == n
  {
    if n >= 10 {
      NumberDigits(n / 10);
      assert Digits(n)[..|Digits(n)| - 1] == Digits(n / 10);
    } else {
      assert Digits(n)[..0] == "";
    }
  }

  lemma SignShows(n: int)
    ensures n < 0 <==> Itoa(n)[0] == '-'
    ensures n < 0 ==> Itoa(n)[1..] == Digits(-n)
  {
    if n >= 0 {
      assert IsDigit(Digits(n)[0]);
    }
  }

  lemma DigitsInjective(a: nat, b: nat)
    requires Digits(a) == Digits(b)
    ensures a == b
  {
    NumberDigits(a);
    NumberDigits(b);
  }

  /** Distinct numbers have distinct decimal texts. */
  lemma ItoaInjective(a: int, b: int)
    requires Itoa(a) == Itoa(b)
    ensures a == b
  {
    SignShows(a);
    SignShows(b);
    if a < 0 {
      DigitsInjective(-a, -b);
    } else {
      DigitsInjective(a, b);
    }
  }

  /** The text of 10d + c ends in the digit c, after a part that depends on d alone. */
  function Stem(d: nat): string {
    if d == 0 then "" else Digits(d)
  }

  lemma ItoaStem(d: nat, c: nat)
    requires c < 10
    ensures Itoa(10 * d + c) == Stem(d) + [Digit(c)]
  {
    var n := 10 * d + c;
    assert n / 10 == d && n % 10 == c;
  }
}
