/** How evenly a published shard map spreads ownership over the decode pods. */
module Spread {
  import opened Balance
  import opened Bits
  import opened Rings
  import opened ShardMaps

  /** How many entries of a map a pod owns. */
  function OwnedEntries(shards: seq<Entry>, pod: string): nat {
    if |shards| == 0 then 0
    else OwnedEntries(shards[..|shards| - 1], pod) + if shards[|shards| - 1].ownerPod == pod then 1 else 0
  }

  /** Counting entries of the map is counting shard numbers on the ring. */
  lemma {:induction false} EntriesAreLoad(ring: Ring, n: nat, pod: string)
    ensures OwnedEntries(Entries(ring, n), pod) == Load(ring, 0, n, pod)
  {
    if n > 0 {
      EntriesAreLoad(ring, n - 1, pod);
      CountSnoc(0, n - 1, OwnedBy(ring, pod));
      assert Entries(ring, n)[..n - 1] == Entries(ring, n - 1);
    }
  }

  lemma CandidatesAre(pods: seq<Pod>, p: Pod)
    requires DistinctPods(pods) && Eligible(pods, p)
    ensures Distinct(Candidates(pods)) && p.name in Candidates(pods) && |Candidates(pods)| == EligibleCount(pods)
  {
    DistinctCandidates(pods);
    CandidateSource(pods, p.name);
    CandidateCount(pods, p.name);
  }

  /** Where two pods may own shards, the map gives them numbers of shards that differ by exactly n mod 2. */
  lemma PublishedTwoPodBalance(pods: seq<Pod>, n: nat, p: Pod, q: Pod)
    requires DistinctPods(pods) && EligibleCount(pods) == 2
    requires Eligible(pods, p) && Eligible(pods, q) && p.name != q.name
    ensures var shards := MapOf(pods, n).shards;
            var a, b := OwnedEntries(shards, p.name), OwnedEntries(shards, q.name);
            a + b == n && (a - b == n % 2 || b - a == n % 2)
  {
    var names := Candidates(pods);
    CandidatesAre(pods, p);
    CandidatesAre(pods, q);
    EntriesAreLoad(RingOf(names), n, p.name);
    EntriesAreLoad(RingOf(names), n, q.name);
    TwoPodBalance(names, n);
    assert (p.name == names[0] && q.name == names[1]) || (p.name == names[1] && q.name == names[0]);
  }

  /** The default map of eight shards over 2^k eligible pods, k <= 3, gives each exactly 8 / 2^k of them. */
  lemma PublishedDefaultSpread(pods: seq<Pod>, k: nat, p: Pod)
    requires k <= 3 && DistinctPods(pods) && EligibleCount(pods) == Pow2(k) && Eligible(pods, p)
    ensures OwnedEntries(MapOf(pods, 8).shards, p.name) == Pow2(3 - k)
  {
    CandidatesAre(pods, p);
    EntriesAreLoad(RingOf(Candidates(pods)), 8, p.name);
    PowerOfTwoSpread(Candidates(pods), k, 0, p.name);
  }
}
