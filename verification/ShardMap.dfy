/**
 The shard map: computed by the operator from the listed decode pods, published as JSON text, and
 read back by the routers.
 */
module ShardMaps {
  import opened Decimal
  import opened Ints
  import opened Json
  import opened Options
  import opened Ordering
  import opened Rings

  datatype PodCondition = PodCondition(kind: string, status: string)
  datatype Pod = Pod(name: string, labels: map<string, string>, conditions: seq<PodCondition>)

  datatype Entry = Entry(shardID: int, role: string, ownerPod: string)
  datatype ShardMap = ShardMap(version: int, shards: seq<Entry>)

  datatype Phase = Pending | Ready
  datatype ShardStatus =
    ShardStatus(shardID: int, role: string, ownerPod: string, phase: Phase, lastHeartbeat: int)

  const ROLE_DECODE := "decode"

  /** The ConfigMap key the map is published under. */
  const MAP_KEY := "shardmap.json"

  predicate HasReady(conditions: seq<PodCondition>) {
    |conditions| > 0 && (conditions[0] == PodCondition("Ready", "True") || HasReady(conditions[1..]))
  }

  predicate IsPodReady(p: Pod) {
    HasReady(p.conditions)
  }

  /** A pod is ready exactly when one of its conditions says so, wherever it stands. */
  lemma {:induction false} ReadyMeans(conditions: seq<PodCondition>)
    ensures HasReady(conditions) <==> PodCondition("Ready", "True") in conditions
  {
    if |conditions| > 0 {
      ReadyMeans(conditions[1..]);
      assert conditions == [conditions[0]] + conditions[1..];
    }
  }

  function Names(pods: seq<Pod>): seq<string> {
    if |pods| == 0 then [] else Names(pods[..|pods| - 1]) + [pods[|pods| - 1].name]
  }

  function IfReady(p: Pod): seq<Pod> {
    if IsPodReady(p) then [p] else []
  }

  function ReadyPods(pods: seq<Pod>): seq<Pod> {
    if |pods| == 0 then [] else ReadyPods(pods[..|pods| - 1]) + IfReady(pods[|pods| - 1])
  }

  /** The pods that may own shards: the ready ones, or all of them when none is ready. */
  function Pool(pods: seq<Pod>): seq<Pod> {
    if |ReadyPods(pods)| > 0 then ReadyPods(pods) else pods
  }

  function Candidates(pods: seq<Pod>): seq<string> {
    Names(Pool(pods))
  }

  function EntryOf(ring: Ring, i: int): Entry {
    Entry(i, ROLE_DECODE, ring.Owner(i))
  }

  function StatusEntryOf(ring: Ring, i: int, now: int): ShardStatus {
    ShardStatus(i, ROLE_DECODE, ring.Owner(i), if ring.Empty() then Pending else Ready, now)
  }

  function Entries(ring: Ring, n: nat): (r: seq<Entry>)
    ensures |r| == n
  {
    if n == 0 then [] else Entries(ring, n - 1) + [EntryOf(ring, n - 1)]
  }

  function Statuses(ring: Ring, n: nat, now: int): (r: seq<ShardStatus>)
    ensures |r| == n
  {
    if n == 0 then [] else Statuses(ring, n - 1, now) + [StatusEntryOf(ring, n - 1, now)]
  }

  function MapOf(pods: seq<Pod>, numShards: nat): ShardMap {
    ShardMap(1, Entries(RingOf(Candidates(pods)), numShards))
  }

  function StatusOf(pods: seq<Pod>, numShards: nat, now: int): seq<ShardStatus> {
    Statuses(RingOf(Candidates(pods)), numShards, now)
  }

  lemma SnocAt<T>(s: seq<T>, x: T, i: nat)
    requires i <= |s|
    ensures (s + [x])[i] == if i < |s| then s[i] else x
  {
  }

  lemma {:induction false} EntryAt(ring: Ring, n: nat, i: nat)
    requires i < n
    ensures Entries(ring, n)[i] == EntryOf(ring, i)
  {
    SnocAt(Entries(ring, n - 1), EntryOf(ring, n - 1), i);
    if i < n - 1 {
      EntryAt(ring, n - 1, i);
    }
  }

  lemma {:induction false} StatusAt(ring: Ring, n: nat, now: int, i: nat)
    requires i < n
    ensures Statuses(ring, n, now)[i] == StatusEntryOf(ring, i, now)
  {
    SnocAt(Statuses(ring, n - 1, now), StatusEntryOf(ring, n - 1, now), i);
    if i < n - 1 {
      StatusAt(ring, n - 1, now, i);
    }
  }

  lemma ReadyNamesSnoc(pods: seq<Pod>, i: nat)
    requires i < |pods|
    ensures Names(ReadyPods(pods[..i + 1]))
            == Names(ReadyPods(pods[..i])) + if IsPodReady(pods[i]) then [pods[i].name] else []
  {
    var front := pods[..i + 1];
    assert front[..i] == pods[..i] && front[i] == pods[i];
    NamesAppend(ReadyPods(pods[..i]), IfReady(pods[i]));
    NamesOfOne(pods[i]);
  }

  lemma NamesOfOne(p: Pod)
    ensures Names([p]) == [p.name]
  {
    assert Names([p][..0]) == [];
  }

  method CollectCandidates(pods: seq<Pod>) returns (ready: seq<string>)
    ensures ready == Candidates(pods)
  {
    ready := [];
    for i := 0 to |pods|
      invariant ready == Names(ReadyPods(pods[..i]))
    {
      ReadyNamesSnoc(pods, i);
      if IsPodReady(pods[i]) {
        ready := ready + [pods[i].name];
      }
    }
    assert pods[..|pods|] == pods;
    NamesLength(ReadyPods(pods));
    if |ready| == 0 {
      for i := 0 to |pods|
        invariant ready == Names(pods[..i])
      {
        assert pods[..i + 1][..i] == pods[..i];
        ready := ready + [pods[i].name];
      }
    }
  }

  method ComputeShardMap(pods: seq<Pod>, numShards: int, now: int)
    returns (shards: seq<ShardStatus>, doc: ShardMap, text: string)
    requires 0 <= numShards <= MAX32
    ensures shards == StatusOf(pods, numShards, now)
    ensures doc == MapOf(pods, numShards)
    ensures text == Publish(doc)
  {
    var ready := CollectCandidates(pods);
    var ring := NewRing(ready);
    shards := [];
    var entries: seq<Entry> := [];
    for i := 0 to numShards
      invariant shards == Statuses(ring, i, now)
      invariant entries == Entries(ring, i)
    {
      var owner, phase := "", Pending;
      if !ring.Empty() {
        owner := ring.Pick(i);
        phase := Ready;
      }
      shards := shards + [ShardStatus(i, ROLE_DECODE, owner, phase, now)];
      entries := entries + [Entry(i, ROLE_DECODE, owner)];
    }
    doc := ShardMap(1, entries);
    text := Publish(doc);
  }

  // ---- ownership ----

  lemma {:induction false} NamesLength(pods: seq<Pod>)
    ensures |Names(pods)| == |pods|
    ensures forall i :: 0 <= i < |pods| ==> Names(pods)[i] == pods[i].name
  {
    if |pods| > 0 {
      NamesLength(pods[..|pods| - 1]);
    }
  }

  lemma {:induction false} ReadyMembers(pods: seq<Pod>)
    ensures forall p :: p in ReadyPods(pods) <==> p in pods && IsPodReady(p)
  {
    if |pods| > 0 {
      ReadyMembers(pods[..|pods| - 1]);
      assert pods == pods[..|pods| - 1] + [pods[|pods| - 1]];
    }
  }

  lemma {:induction false} NamesMembers(pods: seq<Pod>, name: string)
    ensures name in Names(pods) <==> exists p :: p in pods && p.name == name
  {
    NamesLength(pods);
    if name in Names(pods) {
      var i :| 0 <= i < |Names(pods)| && Names(pods)[i] == name;
      assert pods[i] in pods;
    }
    forall p | p in pods && p.name == name ensures name in Names(pods) {
      var i :| 0 <= i < |pods| && pods[i] == p;
      assert Names(pods)[i] == name;
    }
  }

  ghost predicate Eligible(pods: seq<Pod>, p: Pod) {
    p in pods && (IsPodReady(p) || forall q :: q in pods ==> !IsPodReady(q))
  }

  lemma PoolMembers(pods: seq<Pod>, p: Pod)
    ensures p in Pool(pods) <==> Eligible(pods, p)
    ensures |Pool(pods)| == 0 <==> |pods| == 0
  {
    var ready := ReadyPods(pods);
    ReadyMembers(pods);
    if |ready| > 0 {
      assert ready[0] in pods && IsPodReady(ready[0]);
    } else {
      forall q | q in pods ensures !IsPodReady(q) {
        assert q !in ready;
      }
    }
  }

  /** Candidate names are the names of eligible pods, no more and no fewer. */
  lemma CandidateSource(pods: seq<Pod>, name: string)
    ensures name in Candidates(pods) <==> exists p :: Eligible(pods, p) && p.name == name
    ensures |Candidates(pods)| == 0 <==> |pods| == 0
  {
    NamesMembers(Pool(pods), name);
    NamesLength(Pool(pods));
    forall p ensures p in Pool(pods) <==> Eligible(pods, p) {
      PoolMembers(pods, p);
    }
    PoolMembers(pods, Pod("", map[], []));
  }

  /** The places in a list whose pod has a property. */
  ghost function Where(pods: seq<Pod>, f: Pod -> bool): set<int> {
    set i | 0 <= i < |pods| && f(pods[i])
  }

  lemma WhereSnoc(pods: seq<Pod>, f: Pod -> bool)
    requires |pods| > 0
    ensures |Where(pods, f)| == |Where(pods[..|pods| - 1], f)| + if f(pods[|pods| - 1]) then 1 else 0
  {
    var n := |pods| - 1;
    var before := Where(pods[..n], f);
    if f(pods[n]) {
      assert Where(pods, f) == before + {n};
    } else {
      assert Where(pods, f) == before;
    }
  }

  lemma WhereSame(pods: seq<Pod>, f: Pod -> bool, g: Pod -> bool)
    requires forall i :: 0 <= i < |pods| ==> f(pods[i]) == g(pods[i])
    ensures Where(pods, f) == Where(pods, g)
  {
  }

  lemma {:induction false} CountNamed(pods: seq<Pod>, name: string)
    ensures multiset(Names(pods))[name] == |Where(pods, (p: Pod) => p.name == name)|
  {
    if |pods| > 0 {
      CountNamed(pods[..|pods| - 1], name);
      WhereSnoc(pods, (p: Pod) => p.name == name);
    } else {
      assert Where(pods, (p: Pod) => p.name == name) == {};
    }
  }

  lemma NamesWithMaybe(ready: seq<Pod>, p: Pod, name: string)
    ensures multiset(Names(ready + IfReady(p)))[name]
            == multiset(Names(ready))[name] + if IsPodReady(p) && p.name == name then 1 else 0
  {
    NamesAppend(ready, IfReady(p));
    NamesOfOne(p);
    if !IsPodReady(p) {
      assert ready + IfReady(p) == ready;
    }
  }

  lemma {:induction false} CountReady(pods: seq<Pod>, name: string)
    ensures multiset(Names(ReadyPods(pods)))[name] == |Where(pods, (p: Pod) => IsPodReady(p) && p.name == name)|
    ensures |ReadyPods(pods)| == |Where(pods, IsPodReady)|
  {
    if |pods| > 0 {
      var front, last := pods[..|pods| - 1], pods[|pods| - 1];
      CountReady(front, name);
      WhereSnoc(pods, (p: Pod) => IsPodReady(p) && p.name == name);
      WhereSnoc(pods, IsPodReady);
      NamesWithMaybe(ReadyPods(front), last, name);
    } else {
      assert Where(pods, (p: Pod) => IsPodReady(p) && p.name == name) == {} && Where(pods, IsPodReady) == {};
    }
  }

  lemma {:induction false} CountAll(pods: seq<Pod>)
    ensures |Where(pods, p => true)| == |pods|
  {
    if |pods| > 0 {
      CountAll(pods[..|pods| - 1]);
      WhereSnoc(pods, p => true);
    } else {
      assert Where(pods, p => true) == {};
    }
  }

  /** How many listed pods may own shards. */
  ghost function EligibleCount(pods: seq<Pod>): nat {
    |Where(pods, p => Eligible(pods, p))|
  }

  lemma EligibleMeans(pods: seq<Pod>, i: nat)
    requires i < |pods|
    ensures Eligible(pods, pods[i]) <==> IsPodReady(pods[i]) || |ReadyPods(pods)| == 0
  {
    ReadyMembers(pods);
    if |ReadyPods(pods)| > 0 {
      assert ReadyPods(pods)[0] in pods && IsPodReady(ReadyPods(pods)[0]);
    } else {
      forall q | q in pods ensures !IsPodReady(q) {
        assert q !in ReadyPods(pods);
      }
    }
  }

  /** A name is a candidate as often as eligible pods have it, and there are as many candidates as such pods. */
  lemma CandidateCount(pods: seq<Pod>, name: string)
    ensures multiset(Candidates(pods))[name] == |Where(pods, p => Eligible(pods, p) && p.name == name)|
    ensures |Candidates(pods)| == EligibleCount(pods)
  {
    forall i | 0 <= i < |pods|
      ensures Eligible(pods, pods[i]) <==> IsPodReady(pods[i]) || |ReadyPods(pods)| == 0
    {
      EligibleMeans(pods, i);
    }
    CountReady(pods, name);
    NamesLength(Pool(pods));
    if |ReadyPods(pods)| > 0 {
      WhereSame(pods, p => Eligible(pods, p) && p.name == name, (p: Pod) => IsPodReady(p) && p.name == name);
      WhereSame(pods, p => Eligible(pods, p), IsPodReady);
    } else {
      CountNamed(pods, name);
      CountAll(pods);
      WhereSame(pods, p => Eligible(pods, p) && p.name == name, (p: Pod) => p.name == name);
      WhereSame(pods, p => Eligible(pods, p), p => true);
    }
  }

  ghost predicate DistinctPods(pods: seq<Pod>) {
    forall i, j :: 0 <= i < j < |pods| ==> pods[i].name != pods[j].name
  }

  lemma OnePlace(pods: seq<Pod>, f: Pod -> bool, name: string)
    requires DistinctPods(pods) && forall p :: f(p) ==> p.name == name
    ensures |Where(pods, f)| <= 1
  {
    var places := Where(pods, f);
    if |places| > 0 {
      var i :| i in places;
      forall j | j in places ensures j == i {
        assert pods[i].name == pods[j].name;
      }
      assert places == {i};
    }
  }

  /** Pods with different names enter the ring once each. */
  lemma DistinctCandidates(pods: seq<Pod>)
    requires DistinctPods(pods)
    ensures Distinct(Candidates(pods))
  {
    var names := Candidates(pods);
    forall i, j | 0 <= i < j < |names| ensures names[i] != names[j] {
      CandidateCount(pods, names[i]);
      OnePlace(pods, p => Eligible(pods, p) && p.name == names[i], names[i]);
      if names[i] == names[j] {
        TwiceInBag(names, i, j);
      }
    }
  }

  /** What a published map and the status beside it say about each shard. */
  ghost predicate Sourced(pods: seq<Pod>, e: Entry, s: ShardStatus, i: nat, now: int) {
    && e.shardID == s.shardID == i
    && e.role == s.role == "decode"
    && e.ownerPod == s.ownerPod && s.lastHeartbeat == now
    && (s.phase == Pending <==> |pods| == 0)
    && (|pods| == 0 ==> e.ownerPod == "")
    && (|pods| > 0 ==> exists p :: Eligible(pods, p) && p.name == e.ownerPod)
  }

  /**
   Ownership is total and well sourced: ids are 0..n-1 in order, every owner is a listed pod and a
   ready one if any pod is ready, and shards are Pending without owner exactly when no pod is listed.
   */
  lemma OwnershipTotal(pods: seq<Pod>, n: nat, now: int, i: nat)
    requires i < n
    ensures MapOf(pods, n).version == 1 && |MapOf(pods, n).shards| == |StatusOf(pods, n, now)| == n
    ensures Sourced(pods, MapOf(pods, n).shards[i], StatusOf(pods, n, now)[i], i, now)
  {
    var names := Candidates(pods);
    EntryAt(RingOf(names), n, i);
    StatusAt(RingOf(names), n, now, i);
    var e := MapOf(pods, n).shards[i];
    CandidateSource(pods, e.ownerPod);
    if |pods| > 0 {
      OwnerIsNode(names, i);
    }
  }

  /** With equally many candidates a shard's owner changes only if the name at its sorted rank does. */
  lemma OwnerMovesWithRank(a: seq<Pod>, b: seq<Pod>, n: nat, i: nat)
    requires i < n
    requires |Candidates(a)| == |Candidates(b)| > 0
    ensures var r := Rank(i, |Candidates(a)|);
            MapOf(a, n).shards[i].ownerPod != MapOf(b, n).shards[i].ownerPod
            <==> Sort(Candidates(a), Self)[r] != Sort(Candidates(b), Self)[r]
  {
    EntryAt(RingOf(Candidates(a)), n, i);
    EntryAt(RingOf(Candidates(b)), n, i);
  }

  /**
   When one candidate p gives way to q and all others stay, the maps differ at exactly the shards whose
   rank lies between the sorted places of the two names.
   */
  lemma PodReplaced(a: seq<Pod>, b: seq<Pod>, rest: seq<string>, p: string, q: string, n: nat, i: nat)
    requires i < n && Distinct(rest) && p !in rest && q !in rest && p != q
    requires multiset(Candidates(a)) == multiset(rest + [p]) && multiset(Candidates(b)) == multiset(rest + [q])
    ensures var s, r := Sort(rest, Self), Rank(i, |rest| + 1);
            MapOf(a, n).shards[i] != MapOf(b, n).shards[i]
            <==> Slot(s, p) <= r <= Slot(s, q) || Slot(s, q) <= r <= Slot(s, p)
  {
    EntryAt(RingOf(Candidates(a)), n, i);
    EntryAt(RingOf(Candidates(b)), n, i);
    RingOrderFree(Candidates(a), rest + [p]);
    RingOrderFree(Candidates(b), rest + [q]);
    ReplaceMoves(rest, p, q, i);
  }

  // ---- independence of the listing order ----

  /** Finds the first element of one permutation inside another. */
  lemma FindHead(a: seq<Pod>, b: seq<Pod>) returns (front: seq<Pod>, back: seq<Pod>)
    requires multiset(a) == multiset(b) && |a| > 0
    ensures b == front + ([a[0]] + back)
    ensures multiset(a[1..]) == multiset(front + back)
  {
    assert a[0] in multiset(b);
    var k :| 0 <= k < |b| && b[k] == a[0];
    front, back := b[..k], b[k + 1..];
    BagMiddle(front, [a[0]], back);
    assert a == [a[0]] + a[1..];
    assert b == front + ([a[0]] + back);
    assert multiset(a[1..]) == multiset(a) - multiset([a[0]]);
    assert multiset(front + back) == multiset(b) - multiset([a[0]]);
  }

  lemma {:induction false} BagOfNames(a: seq<Pod>, b: seq<Pod>)
    requires multiset(a) == multiset(b)
    ensures multiset(Names(a)) == multiset(Names(b))
    decreases |a|
  {
    SameLength(a, b);
    if |a| > 0 {
      var front, back := FindHead(a, b);
      assert a == [a[0]] + a[1..];
      BagOfNames(a[1..], front + back);
      NamesAppend([a[0]], a[1..]);
      NamesWithout(front, [a[0]], back);
    }
  }

  lemma {:induction false} BagOfReady(a: seq<Pod>, b: seq<Pod>)
    requires multiset(a) == multiset(b)
    ensures multiset(ReadyPods(a)) == multiset(ReadyPods(b))
    decreases |a|
  {
    SameLength(a, b);
    if |a| > 0 {
      var front, back := FindHead(a, b);
      assert a == [a[0]] + a[1..];
      BagOfReady(a[1..], front + back);
      ReadyAppend([a[0]], a[1..]);
      ReadyWithout(front, [a[0]], back);
    }
  }

  lemma {:induction false} NamesAppend(a: seq<Pod>, b: seq<Pod>)
    ensures Names(a + b) == Names(a) + Names(b)
  {
    if |b| == 0 {
      assert a + b == a;
    } else {
      NamesAppend(a, b[..|b| - 1]);
      assert (a + b)[..|a + b| - 1] == a + b[..|b| - 1];
    }
  }

  lemma ReadySnoc(s: seq<Pod>, p: Pod)
    ensures ReadyPods(s + [p]) == ReadyPods(s) + IfReady(p)
  {
    assert (s + [p])[..|s|] == s;
  }

  lemma {:induction false} ReadyAppend(a: seq<Pod>, b: seq<Pod>)
    ensures ReadyPods(a + b) == ReadyPods(a) + ReadyPods(b)
  {
    if |b| == 0 {
      assert a + b == a;
    } else {
      var b', p := b[..|b| - 1], b[|b| - 1];
      ReadyAppend(a, b');
      assert b == b' + [p];
      Reassociate(a, b', [p]);
      ReadySnoc(b', p);
      ReadySnoc(a + b', p);
      Reassociate(ReadyPods(a), ReadyPods(b'), IfReady(p));
    }
  }

  lemma BagMiddle<T>(p: seq<T>, q: seq<T>, r: seq<T>)
    ensures multiset(p + (q + r)) == multiset(p + r) + multiset(q)
  {
  }

  lemma NamesWithout(a: seq<Pod>, x: seq<Pod>, b: seq<Pod>)
    ensures multiset(Names(a + (x + b))) == multiset(Names(a + b)) + multiset(Names(x))
  {
    NamesAppend(a, x + b);
    NamesAppend(x, b);
    NamesAppend(a, b);
    BagMiddle(Names(a), Names(x), Names(b));
  }

  lemma ReadyWithout(a: seq<Pod>, x: seq<Pod>, b: seq<Pod>)
    ensures multiset(ReadyPods(a + (x + b))) == multiset(ReadyPods(a + b)) + multiset(ReadyPods(x))
  {
    ReadyAppend(a, x + b);
    ReadyAppend(x, b);
    ReadyAppend(a, b);
    BagMiddle(ReadyPods(a), ReadyPods(x), ReadyPods(b));
  }

  /** The shard map and the status shards do not depend on the order in which pods were listed. */
  lemma ListingOrderFree(a: seq<Pod>, b: seq<Pod>, n: nat, now: int)
    requires multiset(a) == multiset(b)
    ensures MapOf(a, n) == MapOf(b, n)
    ensures StatusOf(a, n, now) == StatusOf(b, n, now)
  {
    BagOfReady(a, b);
    SameLength(ReadyPods(a), ReadyPods(b));
    BagOfNames(Pool(a), Pool(b));
    RingOrderFree(Candidates(a), Candidates(b));
  }

  // ---- publishing and reading ----

  function EntryDoc(e: Entry): Value {
    Obj(Field("shardID", Num(e.shardID), Field("role", Str(e.role),
      if e.ownerPod == "" then NoFields else Field("ownerPod", Str(e.ownerPod), NoFields))))
  }

  function EntryDocs(es: seq<Entry>): Items {
    if |es| == 0 then NoItems else Item(EntryDoc(es[0]), EntryDocs(es[1..]))
  }

  function Document(m: ShardMap): Value {
    Obj(Field("version", Num(m.version), Field("shards", Arr(EntryDocs(m.shards)), NoFields)))
  }

  /** The text of the shardmap.json key. */
  function Publish(m: ShardMap): string {
    Render(Document(m))
  }

  function Lookup(fields: Fields, key: string): Option<Value> {
    if fields.NoFields? then None
    else
      match Lookup(fields.rest, key)
      case Some(v) => Some(v)
      case None => if fields.key == key then Some(fields.value) else None
  }

  /** A missing member leaves the zero value; a wrong type or a number out of range is an error. */
  function IntMember(fields: Fields, key: string, lo: int, hi: int): Option<int> {
    match Lookup(fields, key)
    case None => Some(0)
    case Some(v) => if v.Num? && lo <= v.n <= hi then Some(v.n) else None
  }

  function TextMember(fields: Fields, key: string): Option<string> {
    match Lookup(fields, key)
    case None => Some("")
    case Some(v) => if v.Str? then Some(v.s) else None
  }

  function DecodeEntry(v: Value): Option<Entry> {
    if !v.Obj? then None
    else
      match (IntMember(v.fields, "shardID", MIN32, MAX32),
             TextMember(v.fields, "role"), TextMember(v.fields, "ownerPod"))
      case (Some(id), Some(role), Some(owner)) => Some(Entry(id, role, owner))
      case _ => None
  }

  function DecodeEntries(items: Items): Option<seq<Entry>> {
    if items.NoItems? then Some([])
    else
      match (DecodeEntry(items.head), DecodeEntries(items.tail))
      case (Some(e), Some(es)) => Some([e] + es)
      case _ => None
  }

  function Decode(v: Value): Option<ShardMap> {
    if !v.Obj? then None
    else
      match IntMember(v.fields, "version", MIN64, MAX64)
      case None => None
      case Some(version) =>
        match Lookup(v.fields, "shards")
        case None => Some(ShardMap(version, []))
        case Some(list) =>
          if !list.Arr? then None
          else
            match DecodeEntries(list.items)
            case None => None
            case Some(es) => Some(ShardMap(version, es))
  }

  function Unmarshal(b: string): Option<ShardMap> {
    match Parse(b)
    case None => None
    case Some(v) => Decode(v)
  }

  /** Missing members read as zero values; members of another type, or ids that are no int32, are errors. */
  lemma ReaderIs(v: Value)
    ensures Decode(Obj(NoFields)) == Some(ShardMap(0, []))
    ensures DecodeEntry(Obj(NoFields)) == Some(Entry(0, "", ""))
    ensures !v.Obj? ==> Decode(v) == None && DecodeEntry(v) == None
    ensures !v.Num? || !Is32(v.n) ==> DecodeEntry(Obj(Field("shardID", v, NoFields))) == None
    ensures v.Num? && Is32(v.n) ==> DecodeEntry(Obj(Field("shardID", v, NoFields))) == Some(Entry(v.n, "", ""))
    ensures !v.Arr? ==> Decode(Obj(Field("shards", v, NoFields))) == None
  {
    KeysDiffer();
    assert forall k :: Lookup(NoFields, k) == None;
    LookupField("shardID", v, NoFields, "shardID");
    LookupField("shardID", v, NoFields, "role");
    LookupField("shardID", v, NoFields, "ownerPod");
    LookupField("shards", v, NoFields, "shards");
    LookupField("shards", v, NoFields, "version");
  }

  method ParseShardMapJSON(b: string) returns (r: Option<ShardMap>)
    ensures r == if |b| == 0 then None else Unmarshal(b)
  {
    if |b| == 0 {
      return None;
    }
    var raw := Unmarshal(b);
    if raw.None? {
      return None;
    }
    var m := ShardMap(raw.value.version, []);
    for i := 0 to |raw.value.shards|
      invariant m == ShardMap(raw.value.version, raw.value.shards[..i])
    {
      var s := raw.value.shards[i];
      m := m.(shards := m.shards + [Entry(s.shardID, s.role, s.ownerPod)]);
    }
    assert raw.value.shards[..|raw.value.shards|] == raw.value.shards;
    r := Some(m);
  }

  /** Maps whose numbers fit the reader's types and whose texts need no escapes. */
  ghost predicate Publishable(m: ShardMap) {
    && MIN64 <= m.version <= MAX64
    && forall i :: 0 <= i < |m.shards| ==>
         Is32(m.shards[i].shardID) && Plain(m.shards[i].role) && Plain(m.shards[i].ownerPod)
  }

  lemma KeysDiffer()
    ensures "shardID" != "role" && "shardID" != "ownerPod" && "role" != "ownerPod" && "version" != "shards"
    ensures Plain("shardID") && Plain("role") && Plain("ownerPod") && Plain("version") && Plain("shards")
  {
    assert |"shardID"| == 7 && |"role"| == 4 && |"ownerPod"| == 8 && |"version"| == 7 && |"shards"| == 6;
  }

  lemma LookupField(key: string, v: Value, rest: Fields, k: string)
    ensures Lookup(Field(key, v, rest), k)
            == if Lookup(rest, k).Some? then Lookup(rest, k) else if key == k then Some(v) else None
  {
  }

  lemma WellFormedField(key: string, v: Value, rest: Fields)
    requires Plain(key) && WellFormed(v) && WellFormedFields(rest)
    ensures WellFormedFields(Field(key, v, rest)) && WellFormed(Obj(Field(key, v, rest)))
  {
  }

  lemma OwnerField(owner: string) returns (fields: Fields)
    requires Plain(owner)
    ensures fields == if owner == "" then NoFields else Field("ownerPod", Str(owner), NoFields)
    ensures Lookup(fields, "ownerPod") == if owner == "" then None else Some(Str(owner))
    ensures Lookup(fields, "role") == None && Lookup(fields, "shardID") == None
    ensures WellFormedFields(fields)
  {
    KeysDiffer();
    fields := if owner == "" then NoFields else Field("ownerPod", Str(owner), NoFields);
    LookupField("ownerPod", Str(owner), NoFields, "ownerPod");
    LookupField("ownerPod", Str(owner), NoFields, "role");
    LookupField("ownerPod", Str(owner), NoFields, "shardID");
    WellFormedField("ownerPod", Str(owner), NoFields);
  }

  lemma EntryReads(e: Entry)
    requires Is32(e.shardID) && Plain(e.role) && Plain(e.ownerPod)
    ensures DecodeEntry(EntryDoc(e)) == Some(e)
    ensures WellFormed(EntryDoc(e))
  {
    KeysDiffer();
    var owner := OwnerField(e.ownerPod);
    var role := Field("role", Str(e.role), owner);
    LookupField("role", Str(e.role), owner, "shardID");
    LookupField("role", Str(e.role), owner, "role");
    LookupField("role", Str(e.role), owner, "ownerPod");
    LookupField("shardID", Num(e.shardID), role, "shardID");
    LookupField("shardID", Num(e.shardID), role, "role");
    LookupField("shardID", Num(e.shardID), role, "ownerPod");
    WellFormedField("role", Str(e.role), owner);
    WellFormedField("shardID", Num(e.shardID), role);
    assert EntryDoc(e) == Obj(Field("shardID", Num(e.shardID), role));
  }

  lemma {:induction false} EntriesRead(es: seq<Entry>)
    requires Publishable(ShardMap(1, es))
    ensures DecodeEntries(EntryDocs(es)) == Some(es)
    ensures WellFormedItems(EntryDocs(es))
  {
    if |es| > 0 {
      var tail := ShardMap(1, es[1..]);
      assert forall i :: 0 <= i < |tail.shards| ==> tail.shards[i] == es[i + 1];
      EntryReads(es[0]);
      EntriesRead(es[1..]);
      assert es == [es[0]] + es[1..];
    }
  }

  lemma DocumentReads(m: ShardMap)
    requires Publishable(m)
    ensures WellFormed(Document(m)) && Decode(Document(m)) == Some(m)
  {
    assert Publishable(ShardMap(1, m.shards));
    EntriesRead(m.shards);
    KeysDiffer();
    var list := Arr(EntryDocs(m.shards));
    var shards := Field("shards", list, NoFields);
    LookupField("shards", list, NoFields, "version");
    LookupField("shards", list, NoFields, "shards");
    LookupField("version", Num(m.version), shards, "version");
    LookupField("version", Num(m.version), shards, "shards");
    WellFormedField("shards", list, NoFields);
    WellFormedField("version", Num(m.version), shards);
  }

  /** Reading what was published gives back the same version and entries, absent owners included. */
  lemma PublishRoundTrip(m: ShardMap)
    requires Publishable(m)
    ensures |Publish(m)| > 0 && Unmarshal(Publish(m)) == Some(m)
  {
    DocumentReads(m);
    RoundTrip(Document(m));
  }

  /** The published text: an object with the members version and shards, in that order. */
  lemma DocumentText(m: ShardMap)
    ensures Publish(m)
            == "{" + (Quote("version") + ":" + Itoa(m.version)
                      + ("," + (Quote("shards") + ":" + Render(Arr(EntryDocs(m.shards))) + "}")))
  {
    var last := Field("shards", Arr(EntryDocs(m.shards)), NoFields);
    assert RenderFields(last) == Quote("shards") + ":" + Render(Arr(EntryDocs(m.shards))) + "}";
    assert RenderFields(Field("version", Num(m.version), last))
        == Quote("version") + ":" + Itoa(m.version) + ("," + RenderFields(last));
  }

  /** The shards are an array of the entries in order, separated by commas. */
  lemma ListText(es: seq<Entry>)
    ensures |es| == 0 ==> Render(Arr(EntryDocs(es))) == "[]"
    ensures |es| > 0 ==> Render(Arr(EntryDocs(es))) == "[" + EntriesText(es)
  {
    if |es| > 0 {
      EntriesTextIs(es);
    }
  }

  function EntriesText(es: seq<Entry>): string
    requires |es| > 0
  {
    Render(EntryDoc(es[0])) + if |es| == 1 then "]" else "," + EntriesText(es[1..])
  }

  lemma {:induction false} EntriesTextIs(es: seq<Entry>)
    requires |es| > 0
    ensures RenderItems(EntryDocs(es)) == EntriesText(es)
  {
    if |es| > 1 {
      EntriesTextIs(es[1..]);
    }
  }

  /** An entry is an object with its id, its role and, only if there is one, its owner. */
  lemma EntryText(e: Entry)
    ensures Render(EntryDoc(e))
            == "{" + (Quote("shardID") + ":" + Itoa(e.shardID)
                      + ("," + (Quote("role") + ":" + Quote(e.role)
                                + if e.ownerPod == "" then "}"
                                  else "," + (Quote("ownerPod") + ":" + Quote(e.ownerPod) + "}"))))
  {
    var owner := Field("ownerPod", Str(e.ownerPod), NoFields);
    var role := Field("role", Str(e.role), if e.ownerPod == "" then NoFields else owner);
    assert RenderFields(owner) == Quote("ownerPod") + ":" + Quote(e.ownerPod) + "}";
    assert RenderFields(role)
        == Quote("role") + ":" + Quote(e.role) + if e.ownerPod == "" then "}" else "," + RenderFields(owner);
    assert RenderFields(Field("shardID", Num(e.shardID), role))
        == Quote("shardID") + ":" + Itoa(e.shardID) + ("," + RenderFields(role));
  }

  /** A DNS subdomain name of RFC 1123, as every pod has. */
  predicate ValidName(s: string) {
    && |s| > 0
    && forall i :: 0 <= i < |s| ==> 'a' <= s[i] <= 'z' || '0' <= s[i] <= '9' || s[i] == '-' || s[i] == '.'
  }

  ghost predicate ValidPods(pods: seq<Pod>) {
    forall p :: p in pods ==> ValidName(p.name)
  }

  lemma OwnerIsPlain(pods: seq<Pod>, i: nat)
    requires ValidPods(pods)
    ensures Plain(EntryOf(RingOf(Candidates(pods)), i).ownerPod)
  {
    CandidateSource(pods, EntryOf(RingOf(Candidates(pods)), i).ownerPod);
    if |pods| > 0 {
      OwnerIsNode(Candidates(pods), i);
    }
  }

  lemma RoleIsPlain()
    ensures Plain(ROLE_DECODE)
  {
    assert |ROLE_DECODE| == 6;
  }

  lemma EntryIsPlain(pods: seq<Pod>, n: nat, i: nat)
    requires i < n && ValidPods(pods)
    ensures var e := MapOf(pods, n).shards[i]; e.shardID == i && Plain(e.ownerPod) && Plain(e.role)
  {
    EntryAt(RingOf(Candidates(pods)), n, i);
    OwnerIsPlain(pods, i);
    RoleIsPlain();
    assert MapOf(pods, n).shards[i].role == ROLE_DECODE;
  }

  lemma OperatorMapPublishable(pods: seq<Pod>, n: nat)
    requires n <= MAX32 && ValidPods(pods)
    ensures Publishable(MapOf(pods, n))
  {
    forall i | 0 <= i < n
      ensures var e := MapOf(pods, n).shards[i]; e.shardID == i && Plain(e.ownerPod) && Plain(e.role)
    {
      EntryIsPlain(pods, n, i);
    }
  }

  /** Every map the operator computes is one the routers read back unchanged. */
  lemma OperatorMapReads(pods: seq<Pod>, n: nat)
    requires n <= MAX32 && ValidPods(pods)
    ensures |Publish(MapOf(pods, n))| > 0
    ensures Unmarshal(Publish(MapOf(pods, n))) == Some(MapOf(pods, n))
  {
    OperatorMapPublishable(pods, n);
    PublishRoundTrip(MapOf(pods, n));
  }
}
