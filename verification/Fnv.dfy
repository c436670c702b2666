/**
 The 32-bit FNV-1a hash, concretely: offset basis, odd prime, exclusive or, multiplication
 modulo 2^32. A Go string is a Dafny string in which every char stands for one byte.
 */
module Fnv {
  import opened Bits

  const OFFSET_BASIS: nat := 2166136261
  const PRIME: nat := 16777619
  /** The inverse of the prime modulo 2^32. */
  const INVERSE: nat := 899433627
  const WORD: nat := 4294967296

  function Step(h: nat, b: nat): (r: nat)
    ensures r < WORD
  {
    (Xor(h, b) * PRIME) % WORD
  }

  function Fold(h: nat, s: string): nat {
    if |s| == 0 then h else Step(Fold(h, s[..|s| - 1]), s[|s| - 1] as int)
  }

  function Hash(s: string): (h: nat)
    ensures h < WORD
  {
    Fold(OFFSET_BASIS, s)
  }

  /** The running hash: bytes are fed in one at a time and the sum may be read at any point. */
  class Hash32a {
    var sum: nat

    constructor ()
      ensures sum == Hash("")
    {
      sum := OFFSET_BASIS;
    }

    method Write(p: string)
      modifies this
      ensures sum == Fold(old(sum), p)
    {
      for i := 0 to |p|
        invariant sum == Fold(old(sum), p[..i])
      {
        assert p[..i + 1][..i] == p[..i];
        sum := Step(sum, p[i] as int);
      }
      assert p[..|p|] == p;
    }
  }

  lemma HashSnoc(s: string, c: char)
    ensures Hash(s + [c]) == Step(Hash(s), c as int)
  {
    assert (s + [c])[..|s|] == s;
  }

  lemma WordIsPow2(k: nat)
    requires k <= 32
    ensures WORD == Pow2(k) * Pow2(32 - k)
  {
    assert Pow2(8) == 256;
    Pow2Add(8, 8);
    assert Pow2(16) == 65536;
    Pow2Add(16, 16);
    assert Pow2(32) == WORD;
    Pow2Add(k, 32 - k);
  }

  /** The low k bits after a step are a function of the low k bits before it and of the byte. */
  lemma StepLow(h: nat, b: nat, k: nat)
    requires k <= 32
    ensures Step(h, b) % Pow2(k) == (Xor(h % Pow2(k), b % Pow2(k)) * PRIME) % Pow2(k)
  {
    var m := Pow2(k);
    WordIsPow2(k);
    ModMod(Xor(h, b) * PRIME, m, Pow2(32 - k));
    MulMod(Xor(h, b), PRIME, m);
    XorMod(h, b, k);
  }

  /** Multiplying by the prime and by its inverse cancel modulo every power of two up to 2^32. */
  lemma InverseLaw(x: int, k: nat)
    requires k <= 32
    ensures (x * PRIME * INVERSE) % Pow2(k) == x % Pow2(k)
  {
    var m, n := Pow2(k), Pow2(32 - k);
    WordIsPow2(k);
    Regroup(x, m, n);
    ModShift(x, m, n * (3513497 * x));
  }

  lemma Regroup(x: int, m: nat, n: nat)
    requires m * n == WORD
    ensures x * PRIME * INVERSE == x + m * (n * (3513497 * x))
  {
    assert x * PRIME * INVERSE == x + WORD * (3513497 * x);
    Associate(m, n, 3513497 * x);
  }

  /** The one byte residue that takes hash h to residue t modulo 2^k. */
  function Preimage(h: nat, t: nat, k: nat): nat {
    Xor(h % Pow2(k), (t * INVERSE) % Pow2(k))
  }

  lemma PrimeSolves(y: nat, t: nat, k: nat)
    requires k <= 32 && y < Pow2(k) && t < Pow2(k)
    ensures (y * PRIME) % Pow2(k) == t <==> y == (t * INVERSE) % Pow2(k)
  {
    var m := Pow2(k);
    InverseLaw(y, k);
    MulMod(y * PRIME, INVERSE, m);
    InverseLaw(t, k);
    assert t * INVERSE * PRIME == t * PRIME * INVERSE;
    MulMod(t * INVERSE, PRIME, m);
    ModSmall(y, m);
    ModSmall(t, m);
  }

  lemma ModSmall(x: nat, m: nat)
    requires x < m
    ensures x % m == x
  {
  }

  /** A step is a bijection of byte residues modulo 2^k: each target has exactly one source. */
  lemma StepSolves(h: nat, b: nat, t: nat, k: nat)
    requires k <= 32 && t < Pow2(k)
    ensures Step(h, b) % Pow2(k) == t <==> b % Pow2(k) == Preimage(h, t, k)
  {
    var m := Pow2(k);
    var hm, bm := h % m, b % m;
    var z := (t * INVERSE) % m;
    StepLow(h, b, k);
    XorBound(hm, bm, k);
    PrimeSolves(Xor(hm, bm), t, k);
    XorCancel(hm, bm);
    XorCancel(hm, z);
  }

  lemma PreimageBound(h: nat, t: nat, k: nat)
    ensures Preimage(h, t, k) < Pow2(k)
  {
    XorBound(h % Pow2(k), (t * INVERSE) % Pow2(k), k);
  }

  /** Low-bit law: modulo 2^k the hash depends only on the low k bits of each byte. */
  lemma {:induction false} HashLowBits(s: string, t: string, k: nat)
    requires k <= 32 && |s| == |t|
    requires forall i :: 0 <= i < |s| ==> s[i] as int % Pow2(k) == t[i] as int % Pow2(k)
    ensures Hash(s) % Pow2(k) == Hash(t) % Pow2(k)
  {
    if |s| > 0 {
      var s', t' := s[..|s| - 1], t[..|t| - 1];
      HashLowBits(s', t', k);
      StepLow(Hash(s'), s[|s| - 1] as int, k);
      StepLow(Hash(t'), t[|t| - 1] as int, k);
    }
  }
}
