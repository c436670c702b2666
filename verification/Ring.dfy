/** Shard-to-pod mapping: the sorted ready pods, indexed by the FNV hash of the shard's decimal text. */
module Rings {
  import opened Bits
  import opened Decimal
  import opened Fnv
  import opened Ordering

  function Self(s: string): string {
    s
  }

  ghost predicate Distinct(s: seq<string>) {
    forall i, j :: 0 <= i < j < |s| ==> s[i] != s[j]
  }

  /** The index a shard has among n nodes. It does not look at the nodes. */
  function Rank(shardID: int, n: nat): (r: nat)
    requires n > 0
    ensures r < n
  {
    Hash(Itoa(shardID)) % n
  }

  datatype Ring = Ring(nodes: seq<string>) {

    predicate Empty() {
      |nodes| == 0
    }

    function Owner(shardID: int): string {
      if Empty() then "" else nodes[Rank(shardID, |nodes|)]
    }

    method Pick(shardID: int) returns (owner: string)
      ensures owner == Owner(shardID)
      ensures Empty() <==> owner !in nodes
    {
      if |nodes| == 0 {
        return "";
      }
      var h := new Hash32a();
      h.Write(Itoa(shardID));
      var idx := h.sum % |nodes|;
      owner := nodes[idx];
    }
  }

  function RingOf(nodes: seq<string>): Ring {
    Ring(Sort(nodes, Self))
  }

  method NewRing(nodes: seq<string>) returns (r: Ring)
    ensures r == RingOf(nodes)
    ensures multiset(r.nodes) == multiset(nodes)
    ensures forall i, j :: 0 <= i < j < |r.nodes| ==> !Precedes(r.nodes[j], r.nodes[i])
  {
    if |nodes| == 0 {
      return Ring([]);
    }
    var cp := new string[|nodes|](i requires 0 <= i < |nodes| => nodes[i]);
    assert cp[..] == nodes;
    SortInPlace(cp, Self);
    r := Ring(cp[..]);
    SortLexicographic(nodes, Self);
    SortPermutes(nodes, Self);
  }

  /** The ring is a function of the bag of node names, not of the order they were listed in. */
  lemma RingOrderFree(a: seq<string>, b: seq<string>)
    requires multiset(a) == multiset(b)
    ensures RingOf(a) == RingOf(b)
  {
    SortOrderFree(a, b, Self);
  }

  lemma OwnerIsNode(nodes: seq<string>, shardID: int)
    requires |nodes| > 0
    ensures RingOf(nodes).Owner(shardID) in nodes
  {
    SortMembers(nodes, Self);
  }

  // ---- growing the ring by one node ----

  /** Where a new name lands among sorted ones. */
  function Slot(sorted: seq<string>, q: string): (r: nat)
    ensures r <= |sorted|
  {
    if |sorted| == 0 || Le(sorted[|sorted| - 1], q) then |sorted|
    else Slot(sorted[..|sorted| - 1], q)
  }

  lemma {:induction false} InsertAtSlot(s: seq<string>, q: string)
    ensures Insert(s, q, Self) == s[..Slot(s, q)] + [q] + s[Slot(s, q)..]
  {
    if |s| > 0 && !Le(s[|s| - 1], q) {
      var s' := s[..|s| - 1];
      InsertAtSlot(s', q);
      assert s'[..Slot(s', q)] == s[..Slot(s', q)];
      assert s'[Slot(s', q)..] + [s[|s| - 1]] == s[Slot(s', q)..];
    }
  }

  /** The slot separates the names before q from those after it, in lexicographic byte order. */
  lemma SlotSeparates(nodes: seq<string>, q: string)
    requires q !in nodes
    ensures var s := Sort(nodes, Self);
            && (forall i :: 0 <= i < Slot(s, q) ==> Precedes(s[i], q))
            && (forall i :: Slot(s, q) <= i < |s| ==> Precedes(q, s[i]))
  {
    var s := Sort(nodes, Self);
    var k := Slot(s, q);
    var grown := s[..k] + [q] + s[k..];
    SortSorted(nodes, Self);
    SortMembers(nodes, Self);
    InsertSorted(s, q, Self);
    InsertAtSlot(s, q);
    forall i | 0 <= i < k ensures Precedes(s[i], q) {
      assert grown[i] == s[i] && grown[k] == q && Le(Self(grown[i]), Self(grown[k]));
      LeIsPrecedes(s[i], q);
    }
    forall i | k <= i < |s| ensures Precedes(q, s[i]) {
      assert grown[i + 1] == s[i] && grown[k] == q && Le(Self(grown[k]), Self(grown[i + 1]));
      LeIsPrecedes(q, s[i]);
    }
  }

  lemma LeIsPrecedes(a: string, b: string)
    requires Le(a, b) && a != b
    ensures Precedes(a, b)
  {
    if !Less(a, b) {
      LeAntisymmetric(a, b);
    }
    LessIsLexicographic(a, b);
  }

  /** The rank an old node has after q was inserted at slot r. */
  function Shifted(rank: nat, r: nat): nat {
    if rank < r then rank else rank + 1
  }

  lemma GrownRing(nodes: seq<string>, q: string)
    ensures var s := Sort(nodes, Self);
            RingOf(nodes + [q]).nodes == s[..Slot(s, q)] + [q] + s[Slot(s, q)..]
  {
    assert (nodes + [q])[..|nodes|] == nodes;
    InsertAtSlot(Sort(nodes, Self), q);
  }

  lemma SortDistinct(nodes: seq<string>)
    requires Distinct(nodes)
    ensures Distinct(Sort(nodes, Self))
  {
    var s := Sort(nodes, Self);
    SortPermutes(nodes, Self);
    forall i, j | 0 <= i < j < |s| ensures s[i] != s[j] {
      DistinctBag(nodes, s[i]);
      if s[i] == s[j] {
        TwiceInBag(s, i, j);
      }
    }
  }

  lemma {:induction false} DistinctBag(s: seq<string>, x: string)
    requires Distinct(s)
    ensures multiset(s)[x] <= 1
  {
    if |s| > 0 {
      var s' := s[..|s| - 1];
      assert s == s' + [s[|s| - 1]];
      DistinctBag(s', x);
      if x == s[|s| - 1] {
        assert x !in s';
      }
    }
  }

  lemma TwiceInBag(s: seq<string>, i: nat, j: nat)
    requires i < j < |s| && s[i] == s[j]
    ensures multiset(s)[s[i]] >= 2
  {
    assert s == s[..j] + s[j..];
    assert s[i] in s[..j] && s[j] in s[j..];
    assert s[i] in multiset(s[..j]) && s[i] in multiset(s[j..]);
  }

  /** In a list without repetitions, what an insertion puts at each index. */
  lemma InsertedAt(s: seq<string>, q: string, slot: nat, before: nat, after: nat)
    requires slot <= |s| && before < |s| && after <= |s|
    requires Distinct(s) && q !in s
    ensures var grown := s[..slot] + [q] + s[slot..];
            && (grown[after] == s[before] <==> after == Shifted(before, slot))
            && (grown[after] == q <==> after == slot)
  {
    var grown := s[..slot] + [q] + s[slot..];
    if after < slot {
      assert grown[after] == s[after];
    } else if after > slot {
      assert grown[after] == s[after - 1];
    }
  }

  /**
   Adding a pod is plain modulo re-indexing. A shard keeps its owner exactly when its rank among
   n + 1 is its shifted rank among n, and it moves to the new pod exactly when it hits the new slot;
   every other shard moves between two old pods.
   */
  lemma GrowMoves(nodes: seq<string>, q: string, shardID: int)
    requires |nodes| > 0 && Distinct(nodes) && q !in nodes
    ensures var n, slot := |nodes|, Slot(Sort(nodes, Self), q);
            var before, after := RingOf(nodes).Owner(shardID), RingOf(nodes + [q]).Owner(shardID);
            && (after == before <==> Rank(shardID, n + 1) == Shifted(Rank(shardID, n), slot))
            && (after == q <==> Rank(shardID, n + 1) == slot)
            && (after != before && after != q ==> before in nodes && after in nodes)
  {
    var s := Sort(nodes, Self);
    GrownRing(nodes, q);
    OwnerIsNode(nodes, shardID);
    OwnerIsNode(nodes + [q], shardID);
    SortDistinct(nodes);
    SortMembers(nodes, Self);
    InsertedAt(s, q, Slot(s, q), Rank(shardID, |nodes|), Rank(shardID, |nodes| + 1));
  }

  // ---- replacing a node ----

  /** What two insertions into the same list of distinct names put at one index. */
  lemma InsertionsDiffer(s: seq<string>, p: string, q: string, a: nat, b: nat, r: nat)
    requires a <= b <= |s| && r <= |s| && Distinct(s) && p !in s && q !in s && p != q
    ensures (s[..a] + [p] + s[a..])[r] != (s[..b] + [q] + s[b..])[r] <==> a <= r <= b
  {
    var x, y := s[..a] + [p] + s[a..], s[..b] + [q] + s[b..];
    if r < a {
      assert x[r] == s[r] && y[r] == s[r];
    } else if r > b {
      assert x[r] == s[r - 1] && y[r] == s[r - 1];
    } else {
      assert x[r] == if r == a then p else s[r - 1];
      assert y[r] == if r == b then q else s[r];
    }
  }

  lemma GrownOwner(nodes: seq<string>, p: string, shardID: int)
    ensures var s := Sort(nodes, Self);
            RingOf(nodes + [p]).Owner(shardID)
            == (s[..Slot(s, p)] + [p] + s[Slot(s, p)..])[Rank(shardID, |nodes| + 1)]
  {
    GrownRing(nodes, p);
  }

  lemma ReplaceUpward(nodes: seq<string>, p: string, q: string, shardID: int)
    requires Distinct(nodes) && p !in nodes && q !in nodes && p != q
    requires Slot(Sort(nodes, Self), p) <= Slot(Sort(nodes, Self), q)
    ensures var s, r := Sort(nodes, Self), Rank(shardID, |nodes| + 1);
            RingOf(nodes + [p]).Owner(shardID) != RingOf(nodes + [q]).Owner(shardID) <==> Slot(s, p) <= r <= Slot(s, q)
  {
    var s, r := Sort(nodes, Self), Rank(shardID, |nodes| + 1);
    GrownOwner(nodes, p, shardID);
    GrownOwner(nodes, q, shardID);
    SortDistinct(nodes);
    assert p !in s && q !in s by {
      SortMembers(nodes, Self);
    }
    InsertionsDiffer(s, p, q, Slot(s, p), Slot(s, q), r);
  }

  /**
   Replacing pod p by pod q moves exactly the shards whose rank lies between the sorted places of the
   two: all others keep their owner although the pod set changed.
   */
  lemma ReplaceMoves(nodes: seq<string>, p: string, q: string, shardID: int)
    requires Distinct(nodes) && p !in nodes && q !in nodes && p != q
    ensures var s, r := Sort(nodes, Self), Rank(shardID, |nodes| + 1);
            RingOf(nodes + [p]).Owner(shardID) != RingOf(nodes + [q]).Owner(shardID)
            <==> Slot(s, p) <= r <= Slot(s, q) || Slot(s, q) <= r <= Slot(s, p)
  {
    if Slot(Sort(nodes, Self), p) <= Slot(Sort(nodes, Self), q) {
      ReplaceUpward(nodes, p, q, shardID);
    } else {
      ReplaceUpward(nodes, q, p, shardID);
    }
  }

  lemma SortAB()
    ensures Sort(["a", "b"], Self) == ["a", "b"]
  {
    assert ["a", "b"][..1] == ["a"] && ["a"][..0] == [];
    assert Sort<string>([], Self) == [];
    assert Sort(["a"], Self) == ["a"];
  }

  /** Not a consistent hash: adding "c" to "a" and "b" moves shard 0 from "b" to "a". */
  lemma GrowMovesBetweenOldPods()
    ensures RingOf(["a", "b"]).Owner(0) == "b"
    ensures RingOf(["a", "b"] + ["c"]).Owner(0) == "a"
  {
    HashOfZero();
    SortAB();
    assert Rank(0, 2) == 1 && Rank(0, 3) == 0;
    GrownRing(["a", "b"], "c");
    assert Slot(["a", "b"], "c") == 2;
  }

  lemma XorDigit(a: nat, b: nat, rest: nat)
    requires Xor(a / 2, b / 2) == rest
    ensures Xor(a, b) == (a + b) % 2 + 2 * rest
  {
  }

  lemma XorOfZeroDigit()
    ensures Xor(OFFSET_BASIS, 48) == 2166136309
  {
    XorZero(33845879);
    XorDigit(67691758, 1, 33845879);
    XorDigit(135383516, 3, 67691759);
    XorDigit(270767032, 6, 135383519);
    XorDigit(541534065, 12, 270767038);
    XorDigit(1083068130, 24, 541534077);
    XorDigit(2166136261, 48, 1083068154);
  }

  lemma StepValue(h: nat, b: nat, x: nat)
    requires Xor(h, b) == x
    ensures Step(h, b) == (x * PRIME) % WORD
  {
  }

  lemma ProductOfZeroDigit()
    ensures (2166136309 * PRIME) % WORD == 890022063
  {
    DivModUnique(2166136309 * PRIME, WORD, 8461673, 890022063);
  }

  lemma HashOfZero()
    ensures Hash(Itoa(0)) == 890022063
  {
    assert Itoa(0) == "" + [Digit(0)];
    HashSnoc("", Digit(0));
    var h, b := Hash(""), Digit(0) as int;
    XorOfZeroDigit();
    StepValue(h, b, 2166136309);
    ProductOfZeroDigit();
  }
}
