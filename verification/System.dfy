/**
 The whole system: the control plane, any number of router replicas polling the published maps, and
 the requests they answer.
 */
module System {
  import opened Control
  import opened ControlInv
  import Convergence
  import Fnv
  import opened Ints
  import opened Objects
  import opened Options
  import opened Routers
  import opened ShardMaps

  /**
   A router replica: the cluster it serves, its map and which publication that map was, and what its
   poll loop has read and parsed but not stored yet.
   */
  datatype Replica = Replica(cluster: string, current: Option<ShardMap>, position: int, fetched: Option<Fetched>)
  datatype Fetched = Fetched(m: ShardMap, position: int)

  /** An answered request, with the publication its shard came from (-1: no map yet). */
  datatype Answer = Answer(replica: nat, cluster: string, conversation: string, shard: int, position: int)

  datatype State = State(world: World, replicas: seq<Replica>, answers: seq<Answer>)

  datatype Event =
    | Operate(action: Action)
    | StartReplica(cluster: string)
    | Poll(r: nat, answered: bool)                           // read and parse; may fail
    | Keep(r: nat)                                           // store what was read
    | Request(r: nat, conversation: string)

  ghost predicate Able(s: State, e: Event) {
    match e
    case Operate(a) => Enabled(s.world, a)
    case StartReplica(_) => true
    case Poll(r, _) => r < |s.replicas| && s.replicas[r].fetched.None?
    case Keep(r) => r < |s.replicas| && s.replicas[r].fetched.Some?
    case Request(r, c) => r < |s.replicas| && |c| > 0
  }

  /** What a read of the shard map ConfigMap returns at this moment. */
  function ReadConfigMap(w: World, cluster: string): Option<map<string, string>> {
    var key := KeyOf(cluster, ShardMapMap);
    if key in w.store then Some(Existing(w.store, key).data) else None
  }

  /** A replica after one poll; a failed read or parse leaves it as it was. */
  function Received(rep: Replica, m: Option<ShardMap>, position: int): Replica {
    if m.None? then rep else rep.(fetched := Some(Fetched(m.value, position)))
  }

  function Reading(w: World, cluster: string, answered: bool): Option<ShardMap> {
    if answered then Fetch(ReadConfigMap(w, cluster)) else None
  }

  function Polled(w: World, rep: Replica, answered: bool): Replica {
    Received(rep, Reading(w, rep.cluster, answered), |History(w, rep.cluster)| - 1)
  }

  function Kept(rep: Replica): Replica
    requires rep.fetched.Some?
  {
    Replica(rep.cluster, Some(rep.fetched.value.m), rep.fetched.value.position, None)
  }

  ghost function Next(s: State, e: Event): State
    requires Able(s, e)
  {
    match e
    case Operate(a) => s.(world := Apply(s.world, a))
    case StartReplica(cluster) => s.(replicas := s.replicas + [Replica(cluster, None, -1, None)])
    case Poll(r, answered) => s.(replicas := s.replicas[r := Polled(s.world, s.replicas[r], answered)])
    case Keep(r) => s.(replicas := s.replicas[r := Kept(s.replicas[r])])
    case Request(r, c) =>
      var rep := s.replicas[r];
      s.(answers := s.answers + [Answer(r, rep.cluster, c, ShardFor(rep.current, c), rep.position)])
  }

  ghost predicate Trace(states: seq<State>, events: seq<Event>) {
    && |states| == |events| + 1
    && Initial(states[0].world) && states[0].replicas == [] && states[0].answers == []
    && forall i :: 0 <= i < |events| ==> Able(states[i], events[i]) && states[i + 1] == Next(states[i], events[i])
  }

  // ---- invariant ----

  /** The map at a position of a publish history. */
  function MapAt(h: seq<Publication>, position: int): Option<ShardMap> {
    if 0 <= position < |h| then Some(MapOf(h[position].pods, h[position].numShards)) else None
  }

  ghost predicate IsPublished(h: seq<Publication>, m: ShardMap, position: int) {
    Some(m) == MapAt(h, position)
  }

  /** A replica holds nothing yet, or one whole map the operator published; a fetched one is no older. */
  ghost predicate ReplicaIn(h: seq<Publication>, r: Replica) {
    && (if r.current.None? then r.position == -1 else IsPublished(h, r.current.value, r.position))
    && (r.fetched.Some? ==>
          && IsPublished(h, r.fetched.value.m, r.fetched.value.position)
          && r.position <= r.fetched.value.position)
  }

  ghost predicate ReplicaOk(w: World, r: Replica) {
    ReplicaIn(History(w, r.cluster), r)
  }

  ghost predicate AnswerOk(w: World, a: Answer) {
    var h := History(w, a.cluster);
    && a.position < |h|
    && (a.position < 0 ==> a.shard == 0)
    && (0 <= a.position ==>
          var n := h[a.position].numShards; n >= 1 && a.shard == Fnv.Hash(a.conversation) % n)
  }

  ghost predicate SysInv(s: State) {
    && Inv(s.world)
    && (forall r :: 0 <= r < |s.replicas| ==> ReplicaOk(s.world, s.replicas[r]))
    && (forall k :: 0 <= k < |s.answers| ==> AnswerOk(s.world, s.answers[k]))
  }

  /** Publication histories only grow at the end. */
  ghost predicate Grows(w: World, v: World) {
    forall c :: History(w, c) <= History(v, c)
  }

  lemma StepGrows(w: World, call: Call)
    requires w.worker.Busy?
    ensures Grows(w, Step(w, call))
  {
    if w.worker.pc.Write? && w.worker.pc.slot.ShardMapMap? {
      var v := Step(w, call);
      forall c ensures History(w, c) <= History(v, c) {
      }
    }
  }

  lemma ApplyGrows(w: World, a: Action)
    requires Enabled(w, a)
    ensures Grows(w, Apply(w, a))
  {
    if a.Op? {
      StepGrows(w, a.call);
    }
  }

  lemma ReplicaGrows(w: World, v: World, rep: Replica)
    requires Grows(w, v) && ReplicaOk(w, rep)
    ensures ReplicaOk(v, rep)
  {
    assert History(w, rep.cluster) <= History(v, rep.cluster);
  }

  lemma AnswerGrows(w: World, v: World, a: Answer)
    requires Grows(w, v) && AnswerOk(w, a)
    ensures AnswerOk(v, a)
  {
    assert History(w, a.cluster) <= History(v, a.cluster);
  }

  lemma GrowthKeeps(s: State, v: World)
    requires SysInv(s) && Grows(s.world, v) && Inv(v)
    ensures SysInv(s.(world := v))
  {
    forall r | 0 <= r < |s.replicas| ensures ReplicaOk(v, s.replicas[r]) {
      ReplicaGrows(s.world, v, s.replicas[r]);
    }
    forall k | 0 <= k < |s.answers| ensures AnswerOk(v, s.answers[k]) {
      AnswerGrows(s.world, v, s.answers[k]);
    }
  }

  lemma ControlKeeps(s: State, a: Action)
    requires SysInv(s) && Enabled(s.world, a)
    ensures SysInv(Next(s, Operate(a)))
  {
    ApplyInv(s.world, a);
    ApplyGrows(s.world, a);
    GrowthKeeps(s, Apply(s.world, a));
  }

  /** The reading r, if there is one, is the map at the end of the history h. */
  ghost predicate IsLatest(r: Option<ShardMap>, h: seq<Publication>) {
    r.Some? ==> IsPublished(h, r.value, |h| - 1)
  }

  /** What a successful poll obtains is the latest publication, whole. */
  lemma PollReadsLatest(w: World, cluster: string, answered: bool)
    requires Inv(w)
    ensures IsLatest(Reading(w, cluster, answered), History(w, cluster))
  {
    var h := History(w, cluster);
    assert MapData(w.store, cluster) == None || MapData(w.store, cluster) == Latest(h);
    if |h| > 0 {
      var last := h[|h| - 1];
      assert GoodPublication(last, w.versions, cluster);
      OperatorMapReads(last.pods, last.numShards);
    }
  }

  lemma ReplaceReplica(s: State, r: nat, rep: Replica)
    requires SysInv(s) && r < |s.replicas| && ReplicaOk(s.world, rep)
    ensures SysInv(s.(replicas := s.replicas[r := rep]))
  {
  }

  lemma HeldBefore(h: seq<Publication>, rep: Replica)
    requires ReplicaIn(h, rep)
    ensures rep.position <= |h| - 1
  {
  }

  lemma ReceivedOk(h: seq<Publication>, rep: Replica, m: Option<ShardMap>)
    requires ReplicaIn(h, rep) && IsLatest(m, h)
    ensures ReplicaIn(h, Received(rep, m, |h| - 1))
  {
    HeldBefore(h, rep);
    if m.Some? {
      assert Received(rep, m, |h| - 1) == rep.(fetched := Some(Fetched(m.value, |h| - 1)));
    }
  }

  /** Polling a world whose latest publication is what a read returns. */
  ghost predicate ReadsLatest(w: World, cluster: string) {
    forall answered :: IsLatest(Reading(w, cluster, answered), History(w, cluster))
  }

  lemma AlwaysReadsLatest(w: World, cluster: string)
    requires Inv(w)
    ensures ReadsLatest(w, cluster)
  {
    forall answered ensures IsLatest(Reading(w, cluster, answered), History(w, cluster)) {
      PollReadsLatest(w, cluster, answered);
    }
  }

  lemma PolledOk(w: World, rep: Replica, answered: bool) returns (polled: Replica)
    requires ReadsLatest(w, rep.cluster) && ReplicaOk(w, rep)
    ensures polled == Polled(w, rep, answered) && ReplicaOk(w, polled)
  {
    var reading := Reading(w, rep.cluster, answered);
    ReceivedOk(History(w, rep.cluster), rep, reading);
    polled := Received(rep, reading, |History(w, rep.cluster)| - 1);
  }

  lemma PollKeeps(s: State, r: nat, answered: bool)
    requires SysInv(s) && Able(s, Poll(r, answered))
    ensures SysInv(Next(s, Poll(r, answered)))
  {
    assert ReplicaOk(s.world, s.replicas[r]);
    AlwaysReadsLatest(s.world, s.replicas[r].cluster);
    var polled := PolledOk(s.world, s.replicas[r], answered);
    ReplaceReplica(s, r, polled);
  }

  lemma KeepKeeps(s: State, r: nat)
    requires SysInv(s) && Able(s, Keep(r))
    ensures SysInv(Next(s, Keep(r)))
  {
    assert ReplicaOk(s.world, s.replicas[r]);
    ReplaceReplica(s, r, Kept(s.replicas[r]));
  }

  lemma RequestKeeps(s: State, r: nat, c: string)
    requires SysInv(s) && r < |s.replicas|
    ensures var rep := s.replicas[r];
            AnswerOk(s.world, Answer(r, rep.cluster, c, ShardFor(rep.current, c), rep.position))
  {
    var rep := s.replicas[r];
    assert ReplicaOk(s.world, rep);
    if rep.position >= 0 {
      var p := History(s.world, rep.cluster)[rep.position];
      assert GoodPublication(p, s.world.versions, rep.cluster);
      SelectPublished(p.pods, p.numShards, c);
    }
  }

  lemma NextKeeps(s: State, e: Event)
    requires SysInv(s) && Able(s, e)
    ensures SysInv(Next(s, e))
  {
    match e
    case Operate(a) => ControlKeeps(s, a);
    case StartReplica(_) =>
    case Poll(r, answered) => PollKeeps(s, r, answered);
    case Keep(r) => KeepKeeps(s, r);
    case Request(r, c) => RequestKeeps(s, r, c);
  }

  lemma {:induction false} SysInvAlong(states: seq<State>, events: seq<Event>, i: nat)
    requires Trace(states, events) && i < |states|
    ensures SysInv(states[i])
  {
    if i == 0 {
      InitialInv(states[0].world);
    } else {
      SysInvAlong(states, events, i - 1);
      NextKeeps(states[i - 1], events[i - 1]);
    }
  }

  // ---- main results ----

  /** Every version of the cluster the operator may act on asks for n shards; unset means 8. */
  ghost predicate FixedShards(w: World, cluster: string, n: int) {
    forall k :: 0 <= k < |w.versions| && w.versions[k].name == cluster && Admissible(w.versions[k]) ==>
                  w.versions[k].spec.numShards.GetOr(8) == n
  }

  /** Every such version that sets the count sets n. */
  ghost predicate SetShards(w: World, cluster: string, n: int) {
    forall k :: 0 <= k < |w.versions| && w.versions[k].name == cluster && Admissible(w.versions[k]) ==>
                  w.versions[k].spec.numShards.None? || w.versions[k].spec.numShards.value == n
  }

  /** Every such version sets the count. */
  ghost predicate AlwaysSet(w: World, cluster: string) {
    forall k :: 0 <= k < |w.versions| && w.versions[k].name == cluster && Admissible(w.versions[k]) ==>
                  w.versions[k].spec.numShards.Some?
  }

  /** A count that is n wherever it is set is fixed exactly if it is always set, or n is the default. */
  lemma FixedIff(w: World, cluster: string, n: int)
    ensures FixedShards(w, cluster, n) <==> SetShards(w, cluster, n) && (n == 8 || AlwaysSet(w, cluster))
  {
    if FixedShards(w, cluster, n) && n != 8 {
      forall k | 0 <= k < |w.versions| && w.versions[k].name == cluster && Admissible(w.versions[k])
        ensures w.versions[k].spec.numShards.Some?
      {
        assert w.versions[k].spec.numShards.GetOr(8) == n;
      }
    }
  }

  /**
   Session affinity: in every run, as long as the cluster's shard count is n throughout, every
   request answered by any replica that has loaded a map gets shard FNV-1a(id) mod n, whatever the
   interleaving of pod churn, failing or succeeding passes, polls, spec edits and deletions.
   */
  lemma SessionAffinity(states: seq<State>, events: seq<Event>, i: nat, k: nat, n: int)
    requires Trace(states, events) && i < |states| && k < |states[i].answers|
    requires states[i].answers[k].position >= 0 && FixedShards(states[i].world, states[i].answers[k].cluster, n)
    ensures n >= 1 && states[i].answers[k].shard == Fnv.Hash(states[i].answers[k].conversation) % n
  {
    SysInvAlong(states, events, i);
    var s, a := states[i], states[i].answers[k];
    assert AnswerOk(s.world, a);
    var p := History(s.world, a.cluster)[a.position];
    assert GoodPublication(p, s.world.versions, a.cluster);
    var j :| 0 <= j < |s.world.versions| && s.world.versions[j].name == a.cluster
             && Admissible(s.world.versions[j]) && s.world.versions[j].spec.numShards.GetOr(8) == p.numShards;
  }

  /** In every run a replica that has not loaded a map yet answers with shard 0. */
  lemma BeforeFirstMap(states: seq<State>, events: seq<Event>, i: nat, k: nat)
    requires Trace(states, events) && i < |states| && k < |states[i].answers|
    requires states[i].answers[k].position < 0
    ensures states[i].answers[k].shard == 0
  {
    SysInvAlong(states, events, i);
    assert AnswerOk(states[i].world, states[i].answers[k]);
  }

  /** Two requests of one conversation, on any replicas at any times, get the same shard. */
  lemma AffinityAcrossReplicas(states: seq<State>, events: seq<Event>, i: nat, k: nat, l: nat, n: int)
    requires Trace(states, events) && i < |states| && k < |states[i].answers| && l < |states[i].answers|
    requires var a, b := states[i].answers[k], states[i].answers[l];
             a.conversation == b.conversation && a.cluster == b.cluster && a.position >= 0 && b.position >= 0
    requires FixedShards(states[i].world, states[i].answers[k].cluster, n)
    ensures states[i].answers[k].shard == states[i].answers[l].shard
  {
    SessionAffinity(states, events, i, k, n);
    SessionAffinity(states, events, i, l, n);
  }

  /**
   Snapshot safety: in every run each replica holds nothing or one whole map the operator has
   published for its cluster.
   */
  lemma SnapshotSafety(states: seq<State>, events: seq<Event>, i: nat, r: nat)
    requires Trace(states, events) && i < |states| && r < |states[i].replicas|
    ensures var w, rep := states[i].world, states[i].replicas[r];
            rep.current.Some? ==> 0 <= rep.position < |History(w, rep.cluster)|
                                  && var p := History(w, rep.cluster)[rep.position];
                                  && rep.current == Some(MapOf(p.pods, p.numShards))
                                  && p.text == Publish(MapOf(p.pods, p.numShards))
  {
    SysInvAlong(states, events, i);
    var w, rep := states[i].world, states[i].replicas[r];
    assert ReplicaOk(w, rep);
    if rep.current.Some? {
      assert GoodPublication(History(w, rep.cluster)[rep.position], w.versions, rep.cluster);
    }
  }

  lemma ReceivedKeeps(rep: Replica, m: Option<ShardMap>, position: int)
    ensures Received(rep, m, position) == rep.(fetched := Received(rep, m, position).fetched)
  {
  }

  /** What one event does to a replica's map. */
  ghost predicate Forward(before: Replica, after: Replica, kept: bool) {
    && after.cluster == before.cluster
    && after.position >= before.position
    && (before.current.Some? ==> after.current.Some?)
    && (!kept ==> after.current == before.current && after.position == before.position)
  }

  lemma PollForward(s: State, q: nat, answered: bool, r: nat)
    requires q < |s.replicas| && r < |s.replicas|
    ensures var replicas := s.replicas[q := Polled(s.world, s.replicas[q], answered)];
            Forward(s.replicas[r], replicas[r], false) && (!answered ==> replicas == s.replicas)
  {
    var rep := s.replicas[q];
    ReceivedKeeps(rep, Reading(s.world, rep.cluster, answered), |History(s.world, rep.cluster)| - 1);
  }

  lemma KeepForward(s: State, q: nat, r: nat)
    requires q < |s.replicas| && r < |s.replicas| && s.replicas[q].fetched.Some?
    requires s.replicas[q].position <= s.replicas[q].fetched.value.position
    ensures Forward(s.replicas[r], s.replicas[q := Kept(s.replicas[q])][r], true)
  {
  }

  lemma OneStepForward(s: State, e: Event, r: nat)
    requires SysInv(s) && Able(s, e) && r < |s.replicas|
    ensures var t := Next(s, e);
            && r < |t.replicas| && Forward(s.replicas[r], t.replicas[r], e.Keep?)
            && (e.Poll? && !e.answered ==> t.replicas == s.replicas)
  {
    match e
    case Operate(_) =>
    case StartReplica(_) =>
    case Poll(q, answered) => PollForward(s, q, answered, r);
    case Keep(q) =>
      assert ReplicaOk(s.world, s.replicas[q]);
      KeepForward(s, q, r);
    case Request(_, _) =>
  }

  /** Between any two moments a replica never forgets its map nor goes back in the publish history. */
  lemma {:induction false} NeverBack(states: seq<State>, events: seq<Event>, i: nat, j: nat, r: nat)
    requires Trace(states, events) && i <= j < |states| && r < |states[i].replicas|
    ensures r < |states[j].replicas|
    ensures states[j].replicas[r].position >= states[i].replicas[r].position
    ensures states[i].replicas[r].current.Some? ==> states[j].replicas[r].current.Some?
    decreases j - i
  {
    if i < j {
      NeverBack(states, events, i, j - 1, r);
      SysInvAlong(states, events, j - 1);
      OneStepForward(states[j - 1], events[j - 1], r);
    }
  }

  // ---- from a pass to the routers ----

  /** What a converged map ConfigMap reads as. */
  lemma ConvergedReads(w: World, i: Inputs, pods: seq<Pod>, n: nat)
    requires Convergence.At(w.store, ShardMapMap, i) && i.mapText == Publish(MapOf(pods, n))
    requires n <= MAX32 && ValidPods(pods)
    ensures Reading(w, i.cluster, true) == Some(MapOf(pods, n))
  {
    OperatorMapReads(pods, n);
  }

  /** One poll and one store bring replica r to the map m. */
  ghost predicate Refreshes(s: State, r: nat, m: ShardMap) {
    && Able(s, Poll(r, true))
    && var polled := Next(s, Poll(r, true));
    && Able(polled, Keep(r)) && Next(polled, Keep(r)).replicas[r].current == Some(m)
  }

  lemma PollThenKeep(s: State, r: nat, m: ShardMap)
    requires r < |s.replicas| && s.replicas[r].fetched.None?
    requires Reading(s.world, s.replicas[r].cluster, true) == Some(m)
    ensures Refreshes(s, r, m)
  {
    assert Polled(s.world, s.replicas[r], true)
        == Received(s.replicas[r], Some(m), |History(s.world, s.replicas[r].cluster)| - 1);
  }

  lemma PassReads(w: World, snapshot: Cluster, script: Pc -> Call)
    requires Inv(w) && Convergence.Ready(w, snapshot, script) && Convergence.PassSucceeds(w, snapshot, script)
    ensures Reading(Convergence.Pass(w, snapshot, script), snapshot.name, true)
            == Some(MapOf(DecodePods(w, snapshot.name), ShardCount(Convergence.Goal(w, snapshot).spec)))
  {
    var i := Convergence.Goal(w, snapshot);
    var pods := DecodePods(w, snapshot.name);
    Convergence.SuccessfulPassConverges(w, snapshot, script);
    GoalCounts(w, snapshot);
    ListedValid(w, snapshot.name, pods);
    ConvergedReads(Convergence.Pass(w, snapshot, script), i, pods, ShardCount(i.spec));
  }

  /**
   After a successful pass, one poll and one store bring a router replica to the map of exactly the
   decode pods there are, for the shard count the spec asks for; from then on a request goes to its
   hash modulo that count.
   */
  lemma RouterCatchesUp(s: State, snapshot: Cluster, script: Pc -> Call, r: nat, conversation: string)
    requires Inv(s.world) && Convergence.Ready(s.world, snapshot, script)
    requires Convergence.PassSucceeds(s.world, snapshot, script)
    requires r < |s.replicas| && s.replicas[r].cluster == snapshot.name && s.replicas[r].fetched.None?
    ensures var n := Convergence.Goal(s.world, snapshot).spec.numShards.GetOr(8);
            n >= 1 &&
            var m := MapOf(DecodePods(s.world, snapshot.name), n);
            && Refreshes(s.(world := Convergence.Pass(s.world, snapshot, script)), r, m)
            && ShardFor(Some(m), conversation) == Fnv.Hash(conversation) % n
  {
    var n := ShardCount(Convergence.Goal(s.world, snapshot).spec);
    var m := MapOf(DecodePods(s.world, snapshot.name), n);
    PassReads(s.world, snapshot, script);
    PollThenKeep(s.(world := Convergence.Pass(s.world, snapshot, script)), r, m);
    GoalCounts(s.world, snapshot);
    SelectPublished(DecodePods(s.world, snapshot.name), n, conversation);
  }

  /**
   After a successful pass the name the router deployment hands to its router is that of a ConfigMap
   that reads as the map of the decode pods there are.
   */
  lemma RouterPollsPublishedMap(w: World, snapshot: Cluster, script: Pc -> Call)
    requires Inv(w) && Convergence.Ready(w, snapshot, script) && Convergence.PassSucceeds(w, snapshot, script)
    ensures PollsMap(Convergence.Pass(w, snapshot, script).store, snapshot.name,
                     MapOf(DecodePods(w, snapshot.name), ShardCount(Convergence.Goal(w, snapshot).spec)))
  {
    var u, i := Convergence.Pass(w, snapshot, script), Convergence.Goal(w, snapshot);
    Convergence.SuccessfulPassConverges(w, snapshot, script);
    assert Convergence.At(u.store, RouterDeployment, i);
    PassReads(w, snapshot, script);
    ArgsName(u, i, MapOf(DecodePods(w, snapshot.name), ShardCount(i.spec)));
  }

  /** The router deployment names a ConfigMap, and that reads as the map m. */
  ghost predicate PollsMap(store: Store, cluster: string, m: ShardMap) {
    var deployment := KeyOf(cluster, RouterDeployment);
    && deployment in store && store[deployment].Deployment? && |store[deployment].containers| > 0
    && var args := store[deployment].containers[0].args;
    && |args| == 4 && args[0] == "--shardmap-configmap"
    && Key(ConfigMapKind, args[1]) in store && store[Key(ConfigMapKind, args[1])].ConfigMap?
    && Fetch(Some(store[Key(ConfigMapKind, args[1])].data)) == Some(m)
  }

  lemma ArgsName(w: World, i: Inputs, m: ShardMap)
    requires Convergence.At(w.store, RouterDeployment, i) && Reading(w, i.cluster, true) == Some(m)
    ensures PollsMap(w.store, i.cluster, m)
  {
    DesiredRouterPolls(w.store[KeyOf(i.cluster, RouterDeployment)], i);
    ReadingIsThere(w, i.cluster);
  }

  lemma ReadingIsThere(w: World, cluster: string)
    requires Reading(w, cluster, true).Some?
    ensures var key := KeyOf(cluster, ShardMapMap);
            && key in w.store && w.store[key].ConfigMap?
            && Fetch(Some(w.store[key].data)) == Reading(w, cluster, true)
  {
    assert Existing(w.store, KeyOf(cluster, ShardMapMap)).ConfigMap?;
  }

  lemma DesiredRouterPolls(o: Object, i: Inputs)
    requires Desired(RouterDeployment, o, i)
    ensures var args := o.containers[0].args;
            && |args| == 4 && args[0] == "--shardmap-configmap"
            && Key(ConfigMapKind, args[1]) == KeyOf(i.cluster, ShardMapMap)
  {
    MutateIdle(RouterDeployment, o, i);
    RouterPolls(i, o);
  }

  lemma GoalCounts(w: World, snapshot: Cluster)
    requires Inv(w) && snapshot.name in w.clusters
    ensures var spec := Convergence.Goal(w, snapshot).spec;
            1 <= ShardCount(spec) == spec.numShards.GetOr(8) <= MAX32
  {
    ServerFacts(w, snapshot.name);
    DefaultsValid(snapshot.spec, w.clusters[snapshot.name].spec);
    ShardCountIs(Convergence.Goal(w, snapshot).spec);
  }
}
