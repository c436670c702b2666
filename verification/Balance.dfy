/** How evenly the ring and the router spread: consequences of the odd FNV prime. */
module Balance {
  import opened Bits
  import opened Decimal
  import opened Fnv
  import opened Ordering
  import opened Rings

  /** How many i in lo..hi-1 satisfy p. */
  function Count(lo: int, hi: int, p: int -> bool): nat
    decreases hi - lo
  {
    if lo >= hi then 0 else (if p(lo) then 1 else 0) + Count(lo + 1, hi, p)
  }

  function OwnedBy(ring: Ring, pod: string): int -> bool {
    i => ring.Owner(i) == pod
  }

  /** How many of the shards lo..hi-1 the ring gives to pod. */
  function Load(ring: Ring, lo: int, hi: int, pod: string): nat {
    Count(lo, hi, OwnedBy(ring, pod))
  }

  lemma {:induction false} CountSplit(lo: int, mid: int, hi: int, p: int -> bool)
    requires lo <= mid <= hi
    ensures Count(lo, hi, p) == Count(lo, mid, p) + Count(mid, hi, p)
    decreases mid - lo
  {
    if lo < mid {
      CountSplit(lo + 1, mid, hi, p);
    }
  }

  lemma {:induction false} CountShift(lo: int, hi: int, s: int, p: int -> bool, q: int -> bool)
    requires forall i :: lo <= i < hi ==> p(i) == q(i + s)
    ensures Count(lo, hi, p) == Count(lo + s, hi + s, q)
    decreases hi - lo
  {
    if lo < hi {
      CountShift(lo + 1, hi, s, p, q);
    }
  }

  lemma {:induction false} CountOne(lo: int, hi: int, x: int, p: int -> bool)
    requires forall i :: lo <= i < hi ==> (p(i) <==> i == x)
    ensures Count(lo, hi, p) == if lo <= x < hi then 1 else 0
    decreases hi - lo
  {
    if lo < hi {
      CountOne(lo + 1, hi, x, p);
    }
  }

  lemma ResidueInBlock(i: int, q: int, m: nat, r: nat)
    requires m > 0 && r < m && m * q <= i < m * (q + 1)
    ensures i % m == r <==> i == m * q + r
  {
    assert m * (q + 1) == m * q + m;
    DivModUnique(i, m, q, i - m * q);
  }

  lemma CountBlock(q: int, m: nat, r: nat, p: int -> bool)
    requires r < m
    requires forall i :: m * q <= i < m * (q + 1) ==> (p(i) <==> i % m == r)
    ensures Count(m * q, m * (q + 1), p) == 1
  {
    var lo, hi := m * q, m * (q + 1);
    assert hi == lo + m;
    forall i | lo <= i < hi ensures p(i) <==> i == lo + r {
      ResidueInBlock(i, q, m, r);
    }
    CountOne(lo, hi, lo + r, p);
  }

  lemma BlocksOrdered(m: nat, a: int, b: int)
    requires a <= b
    ensures m * a <= m * b
  {
    assert m * b - m * a == m * (b - a);
  }

  /** Aligned blocks of m consecutive numbers contain one number of each residue. */
  lemma {:induction false} CountResidue(q0: int, q1: int, m: nat, r: nat, p: int -> bool)
    requires q0 <= q1 && r < m
    requires forall i :: m * q0 <= i < m * q1 ==> (p(i) <==> i % m == r)
    ensures Count(m * q0, m * q1, p) == q1 - q0
    decreases q1 - q0
  {
    if q0 < q1 {
      BlocksOrdered(m, q0, q0 + 1);
      BlocksOrdered(m, q0 + 1, q1);
      CountBlock(q0, m, r, p);
      CountResidue(q0 + 1, q1, m, r, p);
      CountSplit(m * q0, m * (q0 + 1), m * q1, p);
    }
  }

  /** The bytes that take a fixed hash to residue t modulo 2^k, over whole blocks of 2^k bytes. */
  lemma CountBytes(h: nat, t: nat, k: nat, q0: nat, q1: nat, p: int -> bool)
    requires k <= 32 && t < Pow2(k) && q0 <= q1
    requires forall b :: Pow2(k) * q0 <= b < Pow2(k) * q1 && b >= 0 ==> (p(b) <==> Step(h, b) % Pow2(k) == t)
    ensures Count(Pow2(k) * q0, Pow2(k) * q1, p) == q1 - q0
  {
    var m := Pow2(k);
    PreimageBound(h, t, k);
    forall b | m * q0 <= b < m * q1 ensures p(b) <==> b % m == Preimage(h, t, k) {
      assert 0 <= m * q0;
      StepSolves(h, b, t, k);
    }
    CountResidue(q0, q1, m, Preimage(h, t, k), p);
  }

  /** The byte with value b, as a char. */
  function ByteChar(b: int): char {
    if 0 <= b < 256 then b as char else '\0'
  }

  lemma Pow2Divides256(k: nat)
    requires k <= 8
    ensures Pow2(k) * Pow2(8 - k) == 256
  {
    Pow2Add(k, 8 - k);
    assert Pow2(8) == 256;
  }

  /** For any prefix the 256 possible next bytes reach each residue modulo 2^k equally often. */
  lemma LastByteUniform(prefix: string, t: nat, k: nat)
    requires k <= 8 && t < Pow2(k)
    ensures Count(0, 256, b => Hash(prefix + [ByteChar(b)]) % Pow2(k) == t) == Pow2(8 - k)
  {
    var p: int -> bool := b => Hash(prefix + [ByteChar(b)]) % Pow2(k) == t;
    Pow2Divides256(k);
    forall b | 0 <= b < 256 ensures p(b) <==> Step(Hash(prefix), b) % Pow2(k) == t {
      HashSnoc(prefix, ByteChar(b));
    }
    CountBytes(Hash(prefix), t, k, 0, Pow2(8 - k), p);
  }

  // ---- ring ----

  lemma OwnerIsRank(ring: Ring, i: int, t: nat)
    requires Distinct(ring.nodes) && t < |ring.nodes|
    ensures ring.Owner(i) == ring.nodes[t] <==> Rank(i, |ring.nodes|) == t
  {
  }

  lemma RankOfDigit(d: nat, c: nat, k: nat, t: nat)
    requires c < 10 && k <= 32 && t < Pow2(k)
    ensures Rank(10 * d + c, Pow2(k)) == t <==> Step(Hash(Stem(d)), 48 + c) % Pow2(k) == t
  {
    ItoaStem(d, c);
    HashSnoc(Stem(d), Digit(c));
  }

  lemma DigitOwner(ring: Ring, d: nat, c: nat, k: nat, t: nat)
    requires c < 10 && k <= 32 && t < Pow2(k)
    requires Distinct(ring.nodes) && |ring.nodes| == Pow2(k)
    ensures ring.Owner(10 * d + c) == ring.nodes[t] <==> (48 + c) % Pow2(k) == Preimage(Hash(Stem(d)), t, k)
  {
    RankOfDigit(d, c, k, t);
    StepSolves(Hash(Stem(d)), 48 + c, t, k);
    OwnerIsRank(ring, 10 * d + c, t);
  }

  /** Of ten shards sharing a stem, node t gets exactly those whose last byte has one residue. */
  lemma NodeResidue(ring: Ring, d: nat, k: nat, t: nat) returns (r: nat)
    requires k <= 32 && t < Pow2(k)
    requires Distinct(ring.nodes) && |ring.nodes| == Pow2(k)
    ensures r < Pow2(k)
    ensures forall i :: 10 * d <= i < 10 * d + 10 ==>
              (ring.Owner(i) == ring.nodes[t] <==> (i - 10 * d + 48) % Pow2(k) == r)
  {
    r := Preimage(Hash(Stem(d)), t, k);
    PreimageBound(Hash(Stem(d)), t, k);
    forall i | 10 * d <= i < 10 * d + 10
      ensures ring.Owner(i) == ring.nodes[t] <==> (i - 10 * d + 48) % Pow2(k) == r
    {
      var c := i - 10 * d;
      DigitOwner(ring, d, c, k, t);
      assert 10 * d + c == i && 48 + c == i - 10 * d + 48;
    }
  }

  lemma EightSplits(k: nat)
    requires k <= 3
    ensures Pow2(k) * (6 * Pow2(3 - k)) == 48 && Pow2(k) * (7 * Pow2(3 - k)) == 56
  {
    assert Pow2(1) == 2 && Pow2(2) == 4 && Pow2(3) == 8;
  }

  lemma CountEight(base: int, k: nat, r: nat, p: int -> bool)
    requires k <= 3 && r < Pow2(k)
    requires forall i :: base <= i < base + 8 ==> (p(i) <==> (i - base + 48) % Pow2(k) == r)
    ensures Count(base, base + 8, p) == Pow2(3 - k)
  {
    var m := Pow2(k);
    var q: int -> bool := b => b % m == r;
    CountShift(base, base + 8, 48 - base, p, q);
    EightSplits(k);
    CountResidue(6 * Pow2(3 - k), 7 * Pow2(3 - k), m, r, q);
  }

  lemma RunSpread(ring: Ring, k: nat, d: nat, t: nat, p: int -> bool)
    requires k <= 3 && t < Pow2(k)
    requires Distinct(ring.nodes) && |ring.nodes| == Pow2(k)
    requires forall i :: p(i) <==> ring.Owner(i) == ring.nodes[t]
    ensures Count(10 * d, 10 * d + 8, p) == Pow2(3 - k)
  {
    var r := NodeResidue(ring, d, k, t);
    CountEight(10 * d, k, r, p);
  }

  /**
   Power-of-two spread: among 2^k distinct pods, k <= 3, each of the eight-shard runs
   10d .. 10d+7 gives every pod exactly 8 / 2^k shards.
   */
  lemma PowerOfTwoSpread(pods: seq<string>, k: nat, d: nat, pod: string)
    requires k <= 3 && |pods| == Pow2(k) && Distinct(pods) && pod in pods
    ensures Load(RingOf(pods), 10 * d, 10 * d + 8, pod) == Pow2(3 - k)
  {
    var ring := RingOf(pods);
    SortDistinct(pods);
    SortMembers(pods, Self);
    var t :| 0 <= t < |ring.nodes| && ring.nodes[t] == pod;
    RunSpread(ring, k, d, t, OwnedBy(ring, pod));
  }

  lemma ResiduesDiffer(x: int, y: int, m: nat)
    requires 0 < y - x < m
    ensures x % m != y % m
  {
    var q := y / m - x / m;
    assert y - x == m * q + (y % m - x % m);
    assert q >= 1 ==> m * q >= m;
    assert q <= 0 ==> m * q <= 0;
  }

  lemma DigitsSplit(ring: Ring, d: nat, b: nat, c: nat, k: nat)
    requires b < c < 10 && k <= 3 && c - b < Pow2(k)
    requires Distinct(ring.nodes) && |ring.nodes| == Pow2(k)
    ensures ring.Owner(10 * d + b) != ring.Owner(10 * d + c)
  {
    var t :| 0 <= t < |ring.nodes| && ring.nodes[t] == ring.Owner(10 * d + b);
    var r := NodeResidue(ring, d, k, t);
    ResiduesDiffer(b + 48, c + 48, Pow2(k));
    assert 10 * d + b - 10 * d + 48 == b + 48 && 10 * d + c - 10 * d + 48 == c + 48;
  }

  /** The default eight shards on eight pods are a one-to-one assignment. */
  lemma EightOnEight(pods: seq<string>, i: nat, j: nat)
    requires |pods| == 8 && Distinct(pods)
    requires i < j < 8
    ensures RingOf(pods).Owner(i) != RingOf(pods).Owner(j)
    ensures forall pod :: pod in pods ==> Load(RingOf(pods), 0, 8, pod) == 1
  {
    assert Pow2(3) == 8;
    forall pod | pod in pods ensures Load(RingOf(pods), 0, 8, pod) == 1 {
      PowerOfTwoSpread(pods, 3, 0, pod);
    }
    SortDistinct(pods);
    DigitsSplit(RingOf(pods), 0, i, j, 3);
  }

  /** Neighbouring shards 2j and 2j+1 never share one of two pods. */
  lemma PairSplit(pods: seq<string>, j: nat)
    requires |pods| == 2 && Distinct(pods)
    ensures RingOf(pods).Owner(2 * j) != RingOf(pods).Owner(2 * j + 1)
  {
    SortDistinct(pods);
    assert Pow2(1) == 2;
    var d, c := 2 * j / 10, 2 * j % 10;
    DigitsSplit(RingOf(pods), d, c, c + 1, 1);
  }

  lemma CountSnoc(lo: int, hi: int, p: int -> bool)
    requires lo <= hi
    ensures Count(lo, hi + 1, p) == Count(lo, hi, p) + (if p(hi) then 1 else 0)
  {
    CountSplit(lo, hi, hi + 1, p);
  }

  /** A predicate true of exactly one of each pair 2j, 2j+1 is true of every other number. */
  lemma {:induction false} CountPairs(k: nat, p: int -> bool)
    requires forall j :: j >= 0 ==> p(2 * j) != p(2 * j + 1)
    ensures Count(0, 2 * k, p) == k
  {
    if k > 0 {
      CountPairs(k - 1, p);
      var j := k - 1;
      CountSnoc(0, 2 * j, p);
      CountSnoc(0, 2 * j + 1, p);
      assert p(2 * j) != p(2 * j + 1);
    }
  }

  /** Complementary predicates that both split every pair 2j, 2j+1 are balanced. */
  lemma PairwiseBalance(n: nat, p: int -> bool, q: int -> bool)
    requires forall i :: p(i) != q(i)
    requires forall j :: j >= 0 ==> p(2 * j) != p(2 * j + 1)
    ensures Count(0, n, p) + Count(0, n, q) == n
    ensures Count(0, n, p) - Count(0, n, q) == n % 2 || Count(0, n, q) - Count(0, n, p) == n % 2
  {
    var k := n / 2;
    forall j | j >= 0 ensures q(2 * j) != q(2 * j + 1) {
      assert p(2 * j) != p(2 * j + 1) && p(2 * j) != q(2 * j) && p(2 * j + 1) != q(2 * j + 1);
    }
    CountPairs(k, p);
    CountPairs(k, q);
    if n % 2 == 1 {
      CountSnoc(0, 2 * k, p);
      CountSnoc(0, 2 * k, q);
      assert p(2 * k) != q(2 * k);
    }
  }

  lemma TwoOwners(pods: seq<string>, p: int -> bool, q: int -> bool)
    requires |pods| == 2 && Distinct(pods)
    requires forall i :: p(i) <==> RingOf(pods).Owner(i) == pods[0]
    requires forall i :: q(i) <==> RingOf(pods).Owner(i) == pods[1]
    ensures forall i :: p(i) != q(i)
    ensures forall j :: j >= 0 ==> p(2 * j) != p(2 * j + 1)
  {
    forall i ensures p(i) != q(i) {
      OwnerIsNode(pods, i);
    }
    forall j | j >= 0 ensures p(2 * j) != p(2 * j + 1) {
      PairSplit(pods, j);
      assert p(2 * j) != q(2 * j) && p(2 * j + 1) != q(2 * j + 1);
    }
  }

  /** Two-pod balance: over any number n of shards the two loads differ by exactly n mod 2. */
  lemma TwoPodBalance(pods: seq<string>, n: nat)
    requires |pods| == 2 && Distinct(pods)
    ensures var a, b := Load(RingOf(pods), 0, n, pods[0]), Load(RingOf(pods), 0, n, pods[1]);
            a + b == n && (a - b == n % 2 || b - a == n % 2)
  {
    var p, q := OwnedBy(RingOf(pods), pods[0]), OwnedBy(RingOf(pods), pods[1]);
    TwoOwners(pods, p, q);
    PairwiseBalance(n, p, q);
  }
}
