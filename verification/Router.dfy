/** The router: polling the published map, choosing a shard for a conversation, counting requests. */
module Routers {
  import opened Bits
  import opened Fnv
  import opened Ints
  import opened Json
  import opened Options
  import opened Rings
  import opened ShardMaps
  import B = Balance

  /** The largest shard id, or 0 when there is none above it. */
  function Largest(shards: seq<Entry>): nat {
    if |shards| == 0 then 0
    else
      var m := Largest(shards[..|shards| - 1]);
      var last := shards[|shards| - 1].shardID;
      if last > m then last else m
  }

  lemma {:induction false} LargestIsMaximum(shards: seq<Entry>)
    ensures forall i :: 0 <= i < |shards| ==> shards[i].shardID <= Largest(shards)
    ensures Largest(shards) == 0 || exists i :: 0 <= i < |shards| && shards[i].shardID == Largest(shards)
  {
    if |shards| > 0 {
      var front := shards[..|shards| - 1];
      LargestIsMaximum(front);
      if Largest(shards) != 0 && Largest(shards) == Largest(front) {
        var i :| 0 <= i < |front| && front[i].shardID == Largest(front);
        assert shards[i].shardID == Largest(shards);
      }
    }
  }

  lemma {:induction false} LargestFits(shards: seq<Entry>)
    requires Ids32(ShardMap(1, shards))
    ensures Largest(shards) <= MAX32
  {
    if |shards| > 0 {
      LargestFits(shards[..|shards| - 1]);
    }
  }

  /** Mixed-width reduction of a 32-bit hash into 0..m, for every m an int32 can hold. */
  lemma ReduceInto(h: nat, m: nat)
    requires h < WORD && 0 < m <= MAX32
    ensures Wrap32(h % Unsigned32(Wrap32(m + 1))) == h % (m + 1) <= m
  {
    if m == MAX32 {
      assert Wrap32(m + 1) == MIN32;
      assert Unsigned32(MIN32) == 2147483648;
    } else {
      assert Unsigned32(m + 1) == m + 1;
    }
  }

  ghost predicate Ids32(m: ShardMap) {
    forall i :: 0 <= i < |m.shards| ==> Is32(m.shards[i].shardID)
  }

  /** The shard of a conversation: its hash reduced into 0..largest id, in exact arithmetic. */
  function Select(m: ShardMap, conversation: string): nat {
    Hash(conversation) % (Largest(m.shards) + 1)
  }

  /**
   The int32/uint32 computation agrees with the exact one for every map, also where adding one to
   the largest id 2^31-1 wraps, and never leaves 0..largest id.
   */
  method PickShardForConversation(m: ShardMap, conversation: string) returns (shard: int)
    requires Ids32(m)
    ensures shard == Select(m, conversation)
    ensures 0 <= shard <= Largest(m.shards)
  {
    var h := new Hash32a();
    h.Write(conversation);
    var maxShardID := 0;
    for i := 0 to |m.shards|
      invariant maxShardID == Largest(m.shards[..i])
    {
      assert m.shards[..i + 1][..i] == m.shards[..i];
      if m.shards[i].shardID > maxShardID {
        maxShardID := m.shards[i].shardID;
      }
    }
    assert m.shards[..|m.shards|] == m.shards;
    if maxShardID <= 0 {
      return 0;
    }
    LargestFits(m.shards);
    ReduceInto(h.sum, maxShardID);
    return Wrap32(h.sum % Unsigned32(Wrap32(maxShardID + 1)));
  }

  /** What a request gets: shard 0 without a usable map, the selected shard otherwise. */
  function ShardFor(current: Option<ShardMap>, conversation: string): nat {
    match current
    case None => 0
    case Some(m) => if |m.shards| == 0 then 0 else Select(m, conversation)
  }

  /** Shard 0 without a map or with an empty one; otherwise the hash reduced by one more than the largest id. */
  lemma ShardForIs(current: Option<ShardMap>, conversation: string)
    ensures current.None? || |current.value.shards| == 0 ==> ShardFor(current, conversation) == 0
    ensures current.Some? && |current.value.shards| > 0 ==>
              ShardFor(current, conversation) == Hash(conversation) % (Largest(current.value.shards) + 1)
  {
  }

  lemma {:induction false} LargestOfEntries(ring: Ring, n: nat)
    ensures Largest(Entries(ring, n)) == if n == 0 then 0 else n - 1
  {
    if n > 0 {
      LargestOfEntries(ring, n - 1);
      assert Entries(ring, n)[..n - 1] == Entries(ring, n - 1);
    }
  }

  /** On a map published for n shards the choice is the hash modulo n, and it is an entry of the map. */
  lemma SelectPublished(pods: seq<Pod>, n: nat, conversation: string)
    requires n >= 1
    ensures ShardFor(Some(MapOf(pods, n)), conversation) == Hash(conversation) % n < n
    ensures MapOf(pods, n).shards[Hash(conversation) % n].shardID == Hash(conversation) % n
  {
    LargestOfEntries(RingOf(Candidates(pods)), n);
    EntryAt(RingOf(Candidates(pods)), n, Hash(conversation) % n);
  }

  /** With 2^k published shards only the low k bits of each byte of the conversation id matter. */
  lemma RoutingLowBits(pods: seq<Pod>, k: nat, s: string, t: string)
    requires k <= 30 && |s| == |t|
    requires forall i :: 0 <= i < |s| ==> s[i] as int % Pow2(k) == t[i] as int % Pow2(k)
    ensures ShardFor(Some(MapOf(pods, Pow2(k))), s) == ShardFor(Some(MapOf(pods, Pow2(k))), t)
  {
    SelectPublished(pods, Pow2(k), s);
    SelectPublished(pods, Pow2(k), t);
    HashLowBits(s, t, k);
  }

  /** With 2^k published shards, k <= 8, the 256 possible last bytes hit each shard 256 / 2^k times. */
  lemma RoutingUniform(pods: seq<Pod>, k: nat, prefix: string, shard: nat)
    requires k <= 8 && shard < Pow2(k)
    ensures B.Count(0, 256, b => ShardFor(Some(MapOf(pods, Pow2(k))), prefix + [B.ByteChar(b)]) == shard)
            == Pow2(8 - k)
  {
    var m := Some(MapOf(pods, Pow2(k)));
    forall b: int ensures ShardFor(m, prefix + [B.ByteChar(b)]) == Hash(prefix + [B.ByteChar(b)]) % Pow2(k) {
      SelectPublished(pods, Pow2(k), prefix + [B.ByteChar(b)]);
    }
    B.LastByteUniform(prefix, shard, k);
    B.CountShift(0, 256, 0,
                 b => ShardFor(m, prefix + [B.ByteChar(b)]) == shard,
                 b => Hash(prefix + [B.ByteChar(b)]) % Pow2(k) == shard);
  }

  // ---- polling ----

  /** What one tick of the poll loop obtains, from the data of the ConfigMap it read, if any. */
  function Fetch(response: Option<map<string, string>>): Option<ShardMap> {
    match response
    case None => None
    case Some(data) =>
      var raw := if MAP_KEY in data then data[MAP_KEY] else "";
      if |raw| == 0 then None else Unmarshal(raw)
  }

  /** A tick reads the key shardmap.json and nothing else; without it, or without text, there is no map. */
  lemma FetchIs(data: map<string, string>)
    ensures Fetch(None) == None
    ensures "shardmap.json" !in data || |data["shardmap.json"]| == 0 ==> Fetch(Some(data)) == None
    ensures "shardmap.json" in data && |data["shardmap.json"]| > 0 ==>
              Fetch(Some(data)) == Unmarshal(data["shardmap.json"])
  {
  }

  lemma {:induction false} DecodedIds32(items: Items)
    ensures DecodeEntries(items).Some? ==> Ids32(ShardMap(1, DecodeEntries(items).value))
  {
    if items.Item? {
      DecodedIds32(items.tail);
    }
  }

  /** Every id a router ever holds is an int32: the parser rejects anything else. */
  lemma FetchedIds32(response: Option<map<string, string>>)
    ensures Fetch(response).Some? ==> Ids32(Fetch(response).value)
  {
    if Fetch(response).Some? {
      var v := Parse(response.value[MAP_KEY]).value;
      var list := Lookup(v.fields, "shards");
      if list.Some? {
        DecodedIds32(list.value.items);
      }
    }
  }

  /** One router process: the shared map and the counters. A counter vector is a bag of labels. */
  class Router {
    var current: Option<ShardMap>
    var refreshErrors: nat
    var routeTotal: multiset<int>
    var chosenShard: multiset<int>

    ghost predicate Valid()
      reads this
    {
      current.Some? ==> Ids32(current.value)
    }

    constructor ()
      ensures Valid()
      ensures current == None && refreshErrors == 0
      ensures routeTotal == multiset{} && chosenShard == multiset{}
    {
      current, refreshErrors, routeTotal, chosenShard := None, 0, multiset{}, multiset{};
    }

    /** Either the whole fetched map replaces the old one, or the old one stays and an error is counted. */
    method PollTick(response: Option<map<string, string>>)
      requires Valid()
      modifies this`current, this`refreshErrors
      ensures Valid()
      ensures Fetch(response).Some? ==> current == Fetch(response) && refreshErrors == old(refreshErrors)
      ensures Fetch(response).None? ==> current == old(current) && refreshErrors == old(refreshErrors) + 1
    {
      FetchedIds32(response);
      if response.None? {
        refreshErrors := refreshErrors + 1;
        return;
      }
      var data := response.value;
      var raw := if MAP_KEY in data then data[MAP_KEY] else "";
      var m := ParseShardMapJSON(raw);
      if m.None? {
        refreshErrors := refreshErrors + 1;
        return;
      }
      current := m;
    }

    /**
     One chat request on its own: every exit counts one status, and the shard counter and the
     X-KV-Shard header carry the same shard.
     */
    method ServeChat(bodyRead: bool, conversation: string, requestBuilt: bool, upstream: Option<int>)
      returns (status: int, header: Option<int>)
      requires Valid()
      modifies this`routeTotal, this`chosenShard
      ensures Valid()
      ensures routeTotal == old(routeTotal) + multiset{status}
      ensures chosenShard == old(chosenShard)
                             + if bodyRead then multiset{ShardFor(current, conversation)} else multiset{}
      ensures header.Some? <==> bodyRead && requestBuilt
      ensures header.Some? ==> header.value == ShardFor(current, conversation)
      ensures header.Some? && (current.None? || |current.value.shards| == 0) ==> header.value == 0
      ensures status == if !bodyRead then 400 else if !requestBuilt then 500 else upstream.GetOr(502)
    {
      header := None;
      if !bodyRead {
        routeTotal := routeTotal + multiset{400};
        return 400, None;
      }
      var m := current;
      var shardID := 0;
      if m.Some? && |m.value.shards| > 0 {
        shardID := PickShardForConversation(m.value, conversation);
      }
      chosenShard := chosenShard + multiset{shardID};
      if !requestBuilt {
        routeTotal := routeTotal + multiset{500};
        return 500, None;
      }
      header := Some(shardID);
      if upstream.None? {
        routeTotal := routeTotal + multiset{502};
        return 502, header;
      }
      routeTotal := routeTotal + multiset{upstream.value};
      return upstream.value, header;
    }
  }
}
