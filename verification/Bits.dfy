/** Unsigned machine arithmetic on natural numbers: powers of two, residues and exclusive or. */
module Bits {

  function Pow2(k: nat): (p: nat)
    ensures p >= 1
  {
    if k == 0 then 1 else 2 * Pow2(k - 1)
  }

  /** Bitwise exclusive or, one binary digit at a time. */
  function Xor(a: nat, b: nat): nat
    decreases a + b
  {
    if a == 0 && b == 0 then 0 else (a + b) % 2 + 2 * Xor(a / 2, b / 2)
  }

  /** Binary digit i of a. */
  predicate Bit(a: nat, i: nat) {
    if i == 0 then a % 2 == 1 else Bit(a / 2, i - 1)
  }

  // ---- residues ----

  lemma DivModUnique(x: int, m: int, q: int, r: int)
    requires 0 <= r < m
    requires x == m * q + r
    ensures x / m == q && x % m == r
  {
    var d := q - x / m;
    assert m * d == x % m - r;
    assert d >= 1 ==> m * d >= m;
    assert d <= -1 ==> m * d <= -m;
  }

  lemma ModShift(x: int, m: int, q: int)
    requires m > 0
    ensures (x + m * q) % m == x % m
  {
    assert x + m * q == m * (x / m + q) + x % m;
    DivModUnique(x + m * q, m, x / m + q, x % m);
  }

  /** A factor may be reduced before a multiplication. */
  lemma MulMod(a: int, b: int, m: int)
    requires m > 0
    ensures (a * b) % m == ((a % m) * b) % m
  {
    assert a * b == (a % m) * b + m * ((a / m) * b) by {
      assert a == m * (a / m) + a % m;
      assert (m * (a / m)) * b == m * ((a / m) * b);
    }
    ModShift((a % m) * b, m, (a / m) * b);
  }

  /** Reducing modulo a multiple of m first loses nothing modulo m. */
  lemma ModMod(x: int, m: int, n: int)
    requires m > 0 && n > 0
    ensures m * n > 0
    ensures (x % (m * n)) % m == x % m
  {
    assert m * n > 0;
    var y := x % (m * n);
    var q := x / (m * n);
    assert x == y + m * (n * q) by {
      assert x == (m * n) * q + y;
      assert (m * n) * q == m * (n * q);
    }
    ModShift(y, m, n * q);
  }

  lemma ModHalf(a: nat, p: nat)
    requires p >= 1
    ensures (a % (2 * p)) % 2 == a % 2
    ensures (a % (2 * p)) / 2 == (a / 2) % p
  {
    ModMod(a, 2, p);
    var r := (a / 2) % p;
    var q := (a / 2) / p;
    assert a / 2 == p * q + r;
    assert a == (2 * p) * q + (2 * r + a % 2) by {
      assert (2 * p) * q == 2 * (p * q);
    }
    DivModUnique(a, 2 * p, q, 2 * r + a % 2);
  }

  lemma Associate(a: int, b: int, c: int)
    ensures (a * b) * c == a * (b * c)
  {
  }

  lemma {:induction false} Pow2Add(j: nat, k: nat)
    ensures Pow2(j + k) == Pow2(j) * Pow2(k)
  {
    if j > 0 {
      Pow2Add(j - 1, k);
      Associate(2, Pow2(j - 1), Pow2(k));
    }
  }

  // ---- exclusive or ----

  lemma XorHalves(a: nat, b: nat)
    ensures Xor(a, b) / 2 == Xor(a / 2, b / 2)
    ensures Xor(a, b) % 2 == (a + b) % 2
  {
  }

  /** Xor is the digitwise disagreement of its arguments. */
  lemma {:induction false} XorBit(a: nat, b: nat, i: nat)
    ensures Bit(Xor(a, b), i) <==> (Bit(a, i) != Bit(b, i))
  {
    XorHalves(a, b);
    if i > 0 {
      XorBit(a / 2, b / 2, i - 1);
    }
  }

  lemma ParityOfSum(a: nat, b: nat)
    ensures (a + b) % 2 == (a % 2 + b % 2) % 2
  {
    assert a + b == 2 * (a / 2 + b / 2) + (a % 2 + b % 2);
  }

  lemma XorOfParities(a: nat, b: nat, x: nat, y: nat)
    requires a % 2 == x % 2 && b % 2 == y % 2
    ensures Xor(a, b) % 2 == Xor(x, y) % 2
  {
    XorHalves(a, b);
    XorHalves(x, y);
    ParityOfSum(a, b);
    ParityOfSum(x, y);
  }

  /** The low k bits of an exclusive or are the exclusive or of the low k bits. */
  lemma {:induction false} XorMod(a: nat, b: nat, k: nat)
    ensures Xor(a, b) % Pow2(k) == Xor(a % Pow2(k), b % Pow2(k))
  {
    if k > 0 {
      var p := Pow2(k - 1);
      var x, y := a % (2 * p), b % (2 * p);
      ModHalf(a, p);
      ModHalf(b, p);
      var l := Xor(a, b) % (2 * p);
      assert l % 2 == Xor(x, y) % 2 by {
        ModHalf(Xor(a, b), p);
        XorOfParities(a, b, x, y);
      }
      assert l / 2 == Xor(x, y) / 2 by {
        ModHalf(Xor(a, b), p);
        XorHalves(a, b);
        XorMod(a / 2, b / 2, k - 1);
        XorHalves(x, y);
      }
    }
  }

  lemma {:induction false} XorZero(a: nat)
    ensures Xor(a, 0) == a
  {
    if a > 0 {
      XorZero(a / 2);
    }
  }

  lemma {:induction false} XorBound(a: nat, b: nat, k: nat)
    requires a < Pow2(k) && b < Pow2(k)
    ensures Xor(a, b) < Pow2(k)
  {
    if k > 0 {
      XorBound(a / 2, b / 2, k - 1);
    }
  }

  lemma HalvesDecide(x: nat, y: nat)
    requires x / 2 == y / 2 && x % 2 == y % 2
    ensures x == y
  {
  }

  lemma ParityTwice(a: nat, b: nat, x: nat)
    requires x % 2 == (a + b) % 2
    ensures (a + x) % 2 == b % 2
  {
    ParityOfSum(a, x);
    ParityOfSum(a, b);
  }

  /** Exclusive or with the same word twice is the identity. */
  lemma {:induction false} XorCancel(a: nat, b: nat)
    ensures Xor(a, Xor(a, b)) == b
    decreases a + b
  {
    if a + b > 0 {
      var x := Xor(a, b);
      XorHalves(a, b);
      XorHalves(a, x);
      XorCancel(a / 2, b / 2);
      ParityTwice(a, b, x);
      HalvesDecide(Xor(a, x), b);
    }
  }
}
