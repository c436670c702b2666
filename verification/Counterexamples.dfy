/** Inputs and runs at which a plausible property fails; the exact conditions stand beside the theorems. */
module Counterexamples {
  import opened Autoscaler
  import opened Control
  import opened ControlInv
  import opened Convergence
  import opened Generations
  import opened Objects
  import opened Options
  import opened Safety
  import opened ShardMaps
  import opened StatusFields

  function CallOf(outcome: Outcome, listed: seq<Pod>): Call {
    Call(outcome, listed, 0, "refused")
  }

  // ---- reachable states ----

  ghost predicate Reachable(w: World) {
    exists worlds, actions :: Run(worlds, actions) && worlds[|actions|] == w
  }

  lemma Take(w: World, a: Action)
    requires Reachable(w) && Enabled(w, a)
    ensures Reachable(Apply(w, a))
  {
    var worlds, actions :| Run(worlds, actions) && worlds[|actions|] == w;
    RunExtends(worlds, actions, a);
    assert (worlds + [Apply(w, a)])[|actions + [a]|] == Apply(w, a);
  }

  lemma RunExtends(worlds: seq<World>, actions: seq<Action>, a: Action)
    requires Run(worlds, actions) && Enabled(worlds[|actions|], a)
    ensures Run(worlds + [Apply(worlds[|actions|], a)], actions + [a])
  {
    var longer, more := worlds + [Apply(worlds[|actions|], a)], actions + [a];
    forall i | 0 <= i < |more| ensures Enabled(longer[i], more[i]) && longer[i + 1] == Apply(longer[i], more[i]) {
      if i < |actions| {
        assert longer[i] == worlds[i] && longer[i + 1] == worlds[i + 1] && more[i] == actions[i];
      }
    }
  }

  lemma Begun(w: World)
    requires Initial(w)
    ensures Reachable(w)
  {
    var worlds: seq<World>, actions: seq<Action> := [w], [];
    assert Run(worlds, actions);
  }

  lemma Calls(w: World, call: Call) returns (v: World)
    requires Reachable(w) && w.worker.Busy? && !w.worker.pc.ListPods?
    ensures Reachable(v) && v == Step(w, call)
  {
    Take(w, Op(call));
    v := Step(w, call);
  }

  // ---- one pod and its map ----

  /** A ready decode pod of a cluster. */
  function PodOf(cluster: string, pod: string): Pod {
    Pod(pod, LabelsFor(cluster, ROLE_DECODE), [PodCondition("Ready", "True")])
  }

  function MapFor(p: Pod, n: nat): ShardMap {
    MapOf([p], n)
  }

  function ShardsFor(p: Pod, n: nat): seq<ShardStatus> {
    StatusOf([p], n, 0)
  }

  lemma OneDecodePod(w: World, cluster: string, pod: string)
    requires w.pods == [PodOf(cluster, pod)]
    ensures DecodePods(w, cluster) == [PodOf(cluster, pod)]
  {
    var pods, selector := w.pods, LabelsFor(cluster, ROLE_DECODE);
    assert Select([], selector) == [];
    assert pods[..0] == [] && pods[0] == PodOf(cluster, pod);
    assert Matches(selector, pods[0].labels);
  }

  lemma OwnerOfOne(p: Pod, n: nat)
    requires n >= 1
    ensures |MapFor(p, n).shards| == n && MapFor(p, n).shards[0].ownerPod == p.name
    ensures |ShardsFor(p, n)| == n && ShardsFor(p, n)[0].ownerPod == p.name
  {
    OwnershipTotal([p], n, 0, 0);
  }

  lemma OtherPodDisagrees(p: Pod, q: Pod, n: nat)
    requires p.name != q.name && n >= 1
    ensures !Agree(ShardsFor(p, n), MapFor(q, n)) && ShardsFor(p, n) != ShardsFor(q, n) && ShardsFor(p, n) != []
  {
    OwnerOfOne(p, n);
    OwnerOfOne(q, n);
  }

  // ---- stretches of a pass ----

  /** A spec a pass without autoscaling gets through. */
  ghost predicate Usable(spec: Spec) {
    ValidSpec(spec) && !Scales(spec) && !LacksPort(spec) && ShardCount(spec) >= 1
  }

  /** One with every default filled in. */
  ghost predicate Complete(spec: Spec) {
    Usable(spec) && forall s :: PatchDefaults(spec, s) == s
  }

  ghost predicate AllOurs(store: Store, name: string) {
    forall slot :: Ours(store, name, slot)
  }

  lemma WriteKeepsOurs(store: Store, slot: Slot, i: Inputs, after: Store)
    requires AllOurs(store, i.cluster) && Ensure(store, slot, i) == Some(after)
    ensures AllOurs(after, i.cluster)
  {
    EnsureReaches(store, slot, i);
    forall t ensures Ours(after, i.cluster, t) {
      if t == slot {
        AtIsOurs(after, slot, i);
      } else {
        EnsureKeepsOthers(store, slot, i, t, i);
      }
    }
  }

  lemma WriteOnce(w: World, name: string) returns (v: World)
    requires Reachable(w) && w.worker.Busy? && w.worker.pc.Write? && w.worker.local.name == name
    requires !LacksPort(w.worker.local.spec) && AllOurs(w.store, name)
    ensures Reachable(v) && AllOurs(v.store, name)
    ensures v == Goto(Wrote(w, w.worker.pc.slot, v.store), After(w.worker.pc.slot))
  {
    var slot := w.worker.pc.slot;
    assert Ours(w.store, name, slot);
    EnsureReaches(w.store, slot, InputsOf(w));
    var store := Ensure(w.store, slot, InputsOf(w)).value;
    WriteKeepsOurs(w.store, slot, InputsOf(w), store);
    v := Calls(w, CallOf(Done, []));
    assert v == WriteStep(w, CallOf(Done, []), slot);
    assert v.store == store;
  }

  lemma {:induction false} ToListing(w: World, name: string) returns (v: World)
    requires Reachable(w) && w.worker.Busy? && w.worker.pc.Write? && 4 <= SlotIndex(w.worker.pc.slot) <= 12
    requires w.worker.local.name == name && !LacksPort(w.worker.local.spec) && AllOurs(w.store, name)
    ensures Reachable(v) && AllOurs(v.store, name)
    ensures v == w.(store := v.store, worker := w.worker.(pc := ListPods))
    decreases 20 - SlotIndex(w.worker.pc.slot)
  {
    v := WriteOnce(w, name);
    AfterAdvances(w.worker.pc.slot);
    if v.worker.pc.Write? {
      v := ToListing(v, name);
    }
  }

  /** Between passes: a live cluster under the operator's finalizer, with nothing in the way. */
  ghost predicate Steady(w: World, name: string, spec: Spec) {
    && Reachable(w) && w.worker.Idle? && AllOurs(w.store, name) && name in w.clusters && Usable(spec)
    && var c := w.clusters[name];
    && c.name == name && c.spec == spec && !c.deleting && FINALIZER in c.finalizers && Held(w.versions, c)
  }

  /** A pass may start from version k and finds nothing to default. */
  ghost predicate Startable(w: World, name: string, spec: Spec, k: nat) {
    Steady(w, name, spec) && k < |w.versions| && w.versions[k].name == name && Complete(w.versions[k].spec)
  }

  lemma DefaultsIdle(w: World, name: string, snapshot: Cluster, call: Call)
    requires name in w.clusters && w.clusters[name].name == name && snapshot.name == name && call.outcome.Done?
    requires PatchDefaults(snapshot.spec, w.clusters[name].spec) == w.clusters[name].spec
    ensures Step(Start(w, snapshot), call) == w.(worker := Busy(Finalize, snapshot, w.clusters[name], None, [], ""))
  {
  }

  /** A pass from version k past the finalizer gate, where there is nothing to persist. */
  lemma Enter(w: World, name: string, spec: Spec, k: nat) returns (v: World)
    requires Startable(w, name, spec, k)
    ensures Reachable(v)
    ensures v == w.(worker := Busy(Write(DecodeService), w.versions[k], w.clusters[name], None, [], ""))
  {
    var call := CallOf(Done, []);
    Take(w, Begin(k));
    var u := Calls(Start(w, w.versions[k]), call);
    DefaultsIdle(w, name, w.versions[k], call);
    v := Calls(u, call);
    assert v == FinalizeStep(u, call) == Goto(u, First(spec));
  }

  /** The worker once it has computed the map for one pod. */
  function Computed(pc: Pc, snapshot: Cluster, server: Cluster, p: Pod): Worker {
    var n := ShardCount(server.spec);
    Busy(pc, snapshot, server.(status := server.status.(shards := ShardsFor(p, n))), None, [p], Publish(MapFor(p, n)))
  }

  lemma Lists(w: World, call: Call) returns (v: World)
    requires Reachable(w) && w.worker.Busy? && w.worker.pc.ListPods?
    requires multiset(call.listed) == multiset(DecodePods(w, w.worker.local.name))
    ensures Reachable(v) && v == ListStep(w, call)
  {
    Take(w, Op(call));
    v := Step(w, call);
  }

  lemma ListOnce(w: World, name: string, pod: string) returns (v: World)
    requires Reachable(w) && w.worker.Busy? && w.worker.pc.ListPods? && w.pods == [PodOf(name, pod)]
    requires w.worker.local.name == name && w.worker.scaledTo == None
    ensures Reachable(v)
    ensures v == w.(worker := Computed(Write(ShardMapMap), w.worker.snapshot, w.worker.local, PodOf(name, pod)))
  {
    OneDecodePod(w, name, pod);
    var call := CallOf(Done, [PodOf(name, pod)]);
    v := Lists(w, call);
  }

  lemma ToMapWrite(w: World, name: string, spec: Spec, k: nat, pod: string) returns (v: World)
    requires Startable(w, name, spec, k) && w.pods == [PodOf(name, pod)]
    ensures Reachable(v) && AllOurs(v.store, name)
    ensures v == w.(store := v.store,
                    worker := Computed(Write(ShardMapMap), w.versions[k], w.clusters[name], PodOf(name, pod)))
  {
    var a := Enter(w, name, spec, k);
    var b := ToListing(a, name);
    v := ListOnce(b, name, pod);
  }

  lemma LastIs<T>(s: seq<T>, x: T)
    ensures (s + [x])[|s + [x]| - 1] == x
  {
  }

  /** The state has the map for p as its latest publication. */
  ghost predicate Shows(w: World, name: string, p: Pod, n: nat) {
    |History(w, name)| > 0 && LatestMap(w, name) == MapFor(p, n)
  }

  lemma WroteShows(w: World, name: string, store: Store, p: Pod)
    requires w.worker.Busy? && w.worker.local.name == name && w.worker.listed == [p]
    ensures Shows(Goto(Wrote(w, ShardMapMap, store), Report), name, p, ShardCount(w.worker.local.spec))
  {
    LastIs(History(w, name), PublicationOf(w.worker));
  }

  lemma WroteComputed(w: World, store: Store, snapshot: Cluster, server: Cluster, p: Pod)
    requires w.worker == Computed(Write(ShardMapMap), snapshot, server, p)
    ensures var v := Goto(Wrote(w, ShardMapMap, store), Report);
            v == w.(store := store, published := v.published, worker := Computed(Report, snapshot, server, p))
  {
  }

  lemma PublishOnce(w: World, name: string) returns (v: World)
    requires Reachable(w) && w.worker.Busy? && w.worker.pc == Write(ShardMapMap) && w.worker.local.name == name
    requires !LacksPort(w.worker.local.spec) && AllOurs(w.store, name)
    ensures Reachable(v) && AllOurs(v.store, name) && v == Goto(Wrote(w, ShardMapMap, v.store), Report)
  {
    v := WriteOnce(w, name);
  }

  lemma SameLatest(w: World, v: World, name: string)
    requires |History(w, name)| > 0 && v.published == w.published
    ensures |History(v, name)| > 0 && LatestMap(v, name) == LatestMap(w, name)
  {
    assert History(v, name) == History(w, name);
  }

  lemma StillShows(w: World, v: World, name: string, p: Pod, n: nat)
    requires Shows(w, name, p, n) && v.published == w.published
    ensures Shows(v, name, p, n)
  {
    SameLatest(w, v, name);
  }

  lemma Publishes(w: World, name: string, spec: Spec, snapshot: Cluster, server: Cluster, p: Pod) returns (v: World)
    requires Reachable(w) && AllOurs(w.store, name) && w.worker == Computed(Write(ShardMapMap), snapshot, server, p)
    requires server.name == name && server.spec == spec && !LacksPort(spec)
    ensures Reachable(v) && AllOurs(v.store, name) && Shows(v, name, p, ShardCount(spec))
    ensures v == w.(store := v.store, published := v.published, worker := Computed(Report, snapshot, server, p))
  {
    v := PublishOnce(w, name);
    WroteShows(w, name, v.store, p);
    WroteComputed(w, v.store, snapshot, server, p);
  }

  lemma ToReport(w: World, name: string, spec: Spec, k: nat, pod: string) returns (v: World)
    requires Startable(w, name, spec, k) && w.pods == [PodOf(name, pod)]
    ensures Reachable(v) && AllOurs(v.store, name) && Shows(v, name, PodOf(name, pod), ShardCount(spec))
    ensures v == w.(store := v.store, published := v.published,
                    worker := Computed(Report, w.versions[k], w.clusters[name], PodOf(name, pod)))
  {
    var u := ToMapWrite(w, name, spec, k, pod);
    v := Publishes(u, name, spec, w.versions[k], w.clusters[name], PodOf(name, pod));
  }

  // ---- the start of every run below ----

  function Newborn(name: string, spec: Spec): Cluster {
    Cluster(name, 1, 0, false, [], spec, EMPTY_STATUS)
  }

  function Nothing(strconv: FloatParser, pods: seq<Pod>): World {
    World("default", strconv, map[], [], map[], pods, map[], Idle)
  }

  lemma NothingIsInitial(strconv: FloatParser, pods: seq<Pod>)
    requires ValidPods(pods)
    ensures Initial(Nothing(strconv, pods))
  {
  }

  lemma Born(strconv: FloatParser, pods: seq<Pod>, name: string, spec: Spec) returns (w: World)
    requires ValidPods(pods) && ValidSpec(spec)
    ensures Reachable(w)
    ensures var c := Newborn(name, spec);
            w == Nothing(strconv, pods).(clusters := map[name := c], versions := [c])
  {
    var v := Nothing(strconv, pods);
    NothingIsInitial(strconv, pods);
    Begun(v);
    Take(v, Create(name, spec));
    w := Persist(v, Newborn(name, spec));
  }

  lemma GateIsLost(w: World, name: string, c: Cluster)
    requires w.worker == Busy(Finalize, c, c, None, [], "") && w.clusters == map[name := c] && w.versions == [c]
    requires c.name == name && !c.deleting && c.finalizers == [] && c.version == 0
    ensures var d := c.(finalizers := [FINALIZER], version := 1);
            FinalizeStep(w, CallOf(Lost, [])) == w.(clusters := map[name := d], versions := [c, d], worker := Idle)
  {
    assert c.finalizers + [FINALIZER] == [FINALIZER];
    assert w.clusters[name := c.(finalizers := [FINALIZER], version := 1)]
        == map[name := c.(finalizers := [FINALIZER], version := 1)];
  }

  lemma EmptyIsOurs(name: string)
    ensures AllOurs(map[], name)
  {
  }

  lemma AtGate(strconv: FloatParser, name: string, spec: Spec, pods: seq<Pod>) returns (w: World)
    requires ValidPods(pods) && Complete(spec)
    ensures Reachable(w)
    ensures var c := Newborn(name, spec);
            w == Nothing(strconv, pods).(clusters := map[name := c], versions := [c],
                                         worker := Busy(Finalize, c, c, None, [], ""))
  {
    var c := Newborn(name, spec);
    var b := Born(strconv, pods, name, spec);
    Take(b, Begin(0));
    w := Calls(Start(b, c), CallOf(Done, []));
    DefaultsIdle(b, name, c, CallOf(Done, []));
  }

  lemma PastGate(strconv: FloatParser, name: string, spec: Spec, pods: seq<Pod>) returns (w: World)
    requires ValidPods(pods) && Complete(spec)
    ensures Reachable(w)
    ensures var c := Newborn(name, spec);
            var d := c.(finalizers := [FINALIZER], version := 1);
            w == Nothing(strconv, pods).(clusters := map[name := d], versions := [c, d])
  {
    var u := AtGate(strconv, name, spec, pods);
    w := Calls(u, CallOf(Lost, []));
    assert w == FinalizeStep(u, CallOf(Lost, []));
    GateIsLost(u, name, Newborn(name, spec));
  }

  /** A cluster is created, and a first pass gets as far as its finalizer. */
  lemma Established(strconv: FloatParser, name: string, spec: Spec, pod: string) returns (w: World)
    requires ValidName(pod) && Complete(spec)
    ensures Steady(w, name, spec) && w.pods == [PodOf(name, pod)] && |w.versions| == 2
    ensures w.clusters[name] == Newborn(name, spec).(finalizers := [FINALIZER], version := 1)
    ensures Startable(w, name, spec, 1) && w.versions[1] == w.clusters[name]
    ensures w.versions[0] == Newborn(name, spec)
  {
    w := PastGate(strconv, name, spec, [PodOf(name, pod)]);
    EmptyIsOurs(name);
  }

  lemma SwapPods(w: World, name: string, spec: Spec, pod: string) returns (v: World)
    requires Steady(w, name, spec) && ValidName(pod)
    ensures Steady(v, name, spec) && v == w.(pods := [PodOf(name, pod)])
  {
    Take(w, SetPods([PodOf(name, pod)]));
    v := w.(pods := [PodOf(name, pod)]);
  }

  // ---- status shards that disagree with the map ----

  lemma RefusedOnce(w: World, name: string) returns (v: World)
    requires Reachable(w) && w.worker.Busy? && w.worker.pc == Write(ShardMapMap)
    ensures Reachable(v) && v == Goto(w, Degrade)
  {
    v := Calls(w, CallOf(Refused, []));
    assert v == WriteStep(w, CallOf(Refused, []), ShardMapMap);
  }

  lemma DegradeOnce(w: World, name: string) returns (v: World)
    requires Reachable(w) && w.worker.Busy? && w.worker.pc.Degrade?
    requires w.worker.local.name == name && Current(w, w.worker.local) && w.clusters[name].name == name
    ensures Reachable(v) && v.worker.Idle? && v.published == w.published && name in v.clusters
    ensures v.clusters[name].status.shards == w.worker.local.status.shards
    ensures v.clusters[name].status.observedGeneration == w.worker.local.status.observedGeneration
  {
    var call := CallOf(Done, []);
    v := Calls(w, call);
    assert v == DegradeStep(w, call);
    assert Failed(w, call).shards == w.worker.local.status.shards;
  }

  lemma ReportRefused(w: World) returns (v: World)
    requires Reachable(w) && w.worker.Busy? && w.worker.pc.Report?
    ensures Reachable(v) && v == Stop(w)
  {
    v := Calls(w, CallOf(Refused, []));
    assert v == ReportStep(w, CallOf(Refused, []));
  }

  /** A pass publishes the map of one pod and fails to report it; then another takes the pod's place. */
  lemma PublishedThenSwapped(strconv: FloatParser, name: string, spec: Spec, p: string, q: string) returns (w: World)
    requires Complete(spec) && ValidName(p) && ValidName(q)
    ensures Startable(w, name, spec, 1) && w.pods == [PodOf(name, q)]
    ensures Shows(w, name, PodOf(name, p), ShardCount(spec))
    ensures w.clusters[name].version == 1 && w.clusters[name].status == EMPTY_STATUS
  {
    var a := Established(strconv, name, spec, p);
    var b := ToReport(a, name, spec, 1, p);
    var c := ReportRefused(b);
    w := SwapPods(c, name, spec, q);
    StillShows(b, w, name, PodOf(name, p), ShardCount(spec));
  }

  /**
   A pass publishes a map and fails to report. The pods change, and the next pass is refused the map
   write but gets its degraded status through: that shows shards no router was ever told about.
   */
  lemma FailedPassDisagrees(strconv: FloatParser, name: string, spec: Spec, p: string, q: string) returns (w: World)
    requires Complete(spec) && ValidName(p) && ValidName(q) && p != q
    ensures Reachable(w) && w.worker.Idle? && name in w.clusters && |History(w, name)| > 0
    ensures !Agree(w.clusters[name].status.shards, LatestMap(w, name))
    ensures w.clusters[name].status.observedGeneration == 0
  {
    var a := PublishedThenSwapped(strconv, name, spec, p, q);
    var b := ToMapWrite(a, name, spec, 1, q);
    var c := RefusedOnce(b, name);
    w := DegradeOnce(c, name);
    OtherPodDisagrees(PodOf(name, q), PodOf(name, p), ShardCount(spec));
  }

  lemma PersistSteady(w: World, name: string, spec: Spec, c: Cluster)
    requires AllOurs(w.store, name) && Usable(spec) && Reachable(Stop(Persist(w, c)))
    requires name in w.clusters && Held(w.versions, w.clusters[name])
    requires c == w.clusters[name].(status := c.status)
    requires c.name == name && c.spec == spec && !c.deleting && FINALIZER in c.finalizers
    ensures var v := Stop(Persist(w, c));
            Steady(v, name, spec) && w.versions <= v.versions && v.clusters[name].status == c.status
            && v.clusters[name].generation == c.generation
  {
    PersistGrows(w, c);
  }

  /** The object is reported on in its current generation. */
  ghost predicate UpToDate(c: Cluster) {
    c.status.observedGeneration == c.generation
  }

  lemma ReportOnce(w: World, name: string) returns (v: World)
    requires Reachable(w) && w.worker.Busy? && w.worker.pc.Report? && w.worker.local.name == name && name in w.clusters
    ensures Reachable(v) && v == Stop(Persist(w, w.clusters[name].(status := Merged(w, 0))))
  {
    v := Calls(w, CallOf(Done, []));
    assert v == ReportStep(w, CallOf(Done, []));
  }

  lemma MergedFields(w: World, name: string)
    requires w.worker.Busy? && w.worker.local.name == name && name in w.clusters
    ensures var was, local, server := w.worker.snapshot.status, w.worker.local, w.clusters[name].status;
            && Merged(w, 0).shards == Patched(was.shards, local.status.shards, server.shards)
            && Merged(w, 0).observedGeneration
               == Patched(was.observedGeneration, local.generation, server.observedGeneration)
  {
  }

  /** A whole pass from version k that reports success. */
  lemma Reports(w: World, name: string, spec: Spec, k: nat, pod: string) returns (v: World)
    requires Startable(w, name, spec, k) && w.pods == [PodOf(name, pod)]
    ensures Steady(v, name, spec) && w.versions <= v.versions && Shows(v, name, PodOf(name, pod), ShardCount(spec))
    ensures v.clusters[name].status.shards
            == Patched(w.versions[k].status.shards, ShardsFor(PodOf(name, pod), ShardCount(spec)),
                       w.clusters[name].status.shards)
    ensures UpToDate(w.clusters[name]) || !(w.versions[k].status.observedGeneration == w.clusters[name].generation) ==>
              UpToDate(v.clusters[name])
    ensures v.clusters[name].generation == w.clusters[name].generation
  {
    var u := ToReport(w, name, spec, k, pod);
    v := ReportOnce(u, name);
    MergedFields(u, name);
    PersistSteady(u, name, spec, u.clusters[name].(status := Merged(u, 0)));
    StillShows(u, v, name, PodOf(name, pod), ShardCount(spec));
  }

  lemma SwapAndReport(w: World, name: string, spec: Spec, k: nat, pod: string) returns (v: World)
    requires Startable(w, name, spec, k) && ValidName(pod)
    ensures Steady(v, name, spec) && Shows(v, name, PodOf(name, pod), ShardCount(spec))
    ensures k < |v.versions| && v.versions[k] == w.versions[k]
    ensures v.clusters[name].status.shards
            == Patched(w.versions[k].status.shards, ShardsFor(PodOf(name, pod), ShardCount(spec)),
                       w.clusters[name].status.shards)
    ensures UpToDate(w.clusters[name]) || !(w.versions[k].status.observedGeneration == w.clusters[name].generation) ==>
              UpToDate(v.clusters[name])
    ensures v.clusters[name].generation == w.clusters[name].generation
  {
    var u := SwapPods(w, name, spec, pod);
    v := Reports(u, name, spec, k, pod);
  }

  lemma ReportedOnce(strconv: FloatParser, name: string, spec: Spec, p: string) returns (w: World)
    requires Complete(spec) && ValidName(p)
    ensures Steady(w, name, spec) && UpToDate(w.clusters[name])
    ensures w.clusters[name].status.shards == ShardsFor(PodOf(name, p), ShardCount(spec))
  {
    OwnerOfOne(PodOf(name, p), ShardCount(spec));
    var start := Established(strconv, name, spec, p);
    w := Reports(start, name, spec, 1, p);
  }

  lemma StartAgain(w: World, name: string, spec: Spec) returns (k: nat)
    requires Steady(w, name, spec) && Complete(spec)
    ensures Startable(w, name, spec, k) && w.versions[k] == w.clusters[name]
  {
    k := w.clusters[name].version;
  }

  lemma StillStartable(w: World, name: string, spec: Spec, k: nat, c: Cluster)
    requires Steady(w, name, spec) && k < |w.versions| && w.versions[k] == c && c.name == name && Complete(c.spec)
    ensures Startable(w, name, spec, k)
  {
  }

  /** Two passes report, on different pods; version k is the object as the first left it. */
  lemma ReportedTwice(strconv: FloatParser, name: string, spec: Spec, p: string, q: string) returns (w: World, k: nat)
    requires Complete(spec) && ValidName(p) && ValidName(q) && p != q
    ensures Startable(w, name, spec, k) && UpToDate(w.clusters[name])
    ensures w.versions[k].status.shards == ShardsFor(PodOf(name, p), ShardCount(spec))
    ensures w.clusters[name].status.shards == ShardsFor(PodOf(name, q), ShardCount(spec))
  {
    OtherPodDisagrees(PodOf(name, q), PodOf(name, p), ShardCount(spec));
    var first := ReportedOnce(strconv, name, spec, p);
    k := StartAgain(first, name, spec);
    w := SwapAndReport(first, name, spec, k, q);
    StillStartable(w, name, spec, k, first.clusters[name]);
  }

  /**
   Three passes report success within one second while the pods change and change back; the third has
   read the object as the first left it. Its shards are those of its snapshot, so its patch carries
   none, and the shards of the second stay beside the map of the third.
   */
  lemma StaleReportDisagrees(strconv: FloatParser, name: string, spec: Spec, p: string, q: string) returns (w: World)
    requires Complete(spec) && ValidName(p) && ValidName(q) && p != q
    ensures Reachable(w) && w.worker.Idle? && name in w.clusters && |History(w, name)| > 0
    ensures !Agree(w.clusters[name].status.shards, LatestMap(w, name))
    ensures UpToDate(w.clusters[name])
  {
    var twice, k := ReportedTwice(strconv, name, spec, p, q);
    w := SwapAndReport(twice, name, spec, k, p);
    OtherPodDisagrees(PodOf(name, q), PodOf(name, p), ShardCount(spec));
  }

  // ---- a status ahead of its object ----

  lemma Edited(w: World, name: string, spec: Spec, edited: Spec) returns (v: World)
    requires Steady(w, name, spec) && Usable(edited) && edited != spec
    ensures Steady(v, name, edited) && v.pods == w.pods && v.versions == w.versions + [v.clusters[name]]
    ensures v.clusters[name].generation == w.clusters[name].generation + 1
    ensures v.clusters[name].status == w.clusters[name].status
  {
    Take(w, EditSpec(name, edited));
    v := Respec(w, w.clusters[name], edited);
  }

  lemma Emptied(w: World, name: string) returns (v: World)
    requires Reachable(w) && name in w.clusters && w.clusters[name].name == name && !w.clusters[name].deleting
    ensures Reachable(v) && v == w.(clusters := v.clusters, versions := v.versions) && name !in v.clusters
  {
    Take(w, EditFinalizers(name, []));
    var a := SetFinalizers(w, w.clusters[name], []);
    assert name in a.clusters && a.clusters[name].finalizers == [] && a.clusters[name].name == name;
    Take(a, Delete(name));
    v := DeleteCluster(a, a.clusters[name]);
  }

  lemma Recreated(w: World, name: string, spec: Spec) returns (v: World)
    requires Reachable(w) && name !in w.clusters && ValidSpec(spec)
    ensures Reachable(v) && v == w.(clusters := v.clusters, versions := v.versions)
    ensures name in v.clusters && v.clusters[name] == Newborn(name, spec).(version := v.clusters[name].version)
  {
    Take(w, Create(name, spec));
    v := Persist(w, Newborn(name, spec));
  }

  lemma LandsAhead(w: World, name: string, c: Cluster)
    requires w.worker.Busy? && name in w.clusters && w.worker.local.name == name && w.clusters[name].name == name
    requires c == w.clusters[name].(status := Merged(w, 0)) && w.clusters[name].status == EMPTY_STATUS
    requires w.worker.snapshot.status == EMPTY_STATUS && w.worker.local.generation > c.generation >= 0
    ensures var v := Stop(Persist(w, c));
            && name in v.clusters && v.clusters[name].generation == c.generation
            && v.clusters[name].status.observedGeneration == w.worker.local.generation && !SeenLog(v)
  {
    var v := Stop(Persist(w, c));
    assert Merged(w, 0).observedGeneration == w.worker.local.generation;
    assert v.versions[|w.versions|] == c.(version := |w.versions|);
  }

  /**
   While a pass for generation 2 is on its way to its report, the object is released, deleted and
   created again. The report lands on the new object, whose generation is 1.
   */
  lemma StatusAhead(strconv: FloatParser, name: string, spec: Spec, edited: Spec, pod: string) returns (w: World)
    requires Complete(spec) && Complete(edited) && edited != spec && ValidName(pod)
    ensures Reachable(w) && name in w.clusters && !SeenLog(w)
    ensures w.clusters[name].generation == 1 && w.clusters[name].status.observedGeneration == 2
  {
    var a := Established(strconv, name, spec, pod);
    var b := Edited(a, name, spec, edited);
    StillStartable(b, name, edited, 2, b.clusters[name]);
    var c := ToReport(b, name, edited, 2, pod);
    var d := Emptied(c, name);
    var e := Recreated(d, name, spec);
    w := ReportOnce(e, name);
    LandsAhead(e, name, e.clusters[name].(status := Merged(e, 0)));
  }

  // ---- a shard count that is not fixed although every version that sets it agrees ----

  /** The count was removed, and version 1 still has it. */
  lemma CountRemoved(strconv: FloatParser, name: string, spec: Spec, pod: string) returns (w: World)
    requires Complete(spec) && spec.numShards.Some? && ValidName(pod)
    ensures Startable(w, name, spec.(numShards := None), 1) && w.pods == [PodOf(name, pod)] && |w.versions| == 3
    ensures w.versions[0].spec == w.versions[1].spec == spec && w.versions[2].spec == spec.(numShards := None)
  {
    var unset := spec.(numShards := None);
    ShardCountIs(unset);
    var a := Established(strconv, name, spec, pod);
    w := Edited(a, name, spec, unset);
    StillStartable(w, name, unset, 1, a.clusters[name]);
  }

  lemma ShowsCount(w: World, name: string, p: Pod, n: nat)
    requires Shows(w, name, p, n) && n >= 1
    ensures |LatestMap(w, name).shards| == n
  {
    OwnerOfOne(p, n);
  }

  lemma PublishesCount(w: World, name: string, spec: Spec, pod: string) returns (v: World)
    requires Startable(w, name, spec, 1) && w.pods == [PodOf(name, pod)]
    ensures Reachable(v) && v.versions == w.versions
    ensures |History(v, name)| > 0 && |LatestMap(v, name).shards| == ShardCount(spec)
  {
    v := ToReport(w, name, spec, 1, pod);
    ShowsCount(v, name, PodOf(name, pod), ShardCount(spec));
  }

  /** Every version that sets a count sets this one. */
  ghost predicate SetsOnly(versions: seq<Cluster>, count: Option<int>) {
    forall k :: 0 <= k < |versions| && versions[k].spec.numShards.Some? ==> versions[k].spec.numShards == count
  }

  lemma ThreeVersions(versions: seq<Cluster>, spec: Spec)
    requires |versions| == 3 && versions[0].spec == versions[1].spec == spec
    requires versions[2].spec == spec.(numShards := None)
    ensures SetsOnly(versions, spec.numShards)
  {
  }

  /**
   A user removes the shard count while the operator still knows an older version: that pass does not
   default the field again, and publishes a map of 8 shards although 8 was never set.
   */
  lemma UnsetCountPublishesEight(strconv: FloatParser, name: string, spec: Spec, pod: string) returns (w: World)
    requires Complete(spec) && spec.numShards.Some? && ValidName(pod)
    ensures Reachable(w) && SetsOnly(w.versions, spec.numShards)
    ensures |History(w, name)| > 0 && |LatestMap(w, name).shards| == 8
  {
    var a := CountRemoved(strconv, name, spec, pod);
    ThreeVersions(a.versions, spec);
    w := PublishesCount(a, name, spec.(numShards := None), pod);
    ShardCountIs(spec.(numShards := None));
  }

  // ---- a stale pass overwrites an edit ----

  lemma EditedMeanwhile(strconv: FloatParser, name: string, read: Spec, edited: Spec) returns (w: World)
    requires ValidSpec(read) && ValidSpec(edited) && edited != read
    ensures Reachable(w) && name in w.clusters && w.clusters[name].spec == edited && w.clusters[name].name == name
    ensures w.worker == Busy(Defaults, Newborn(name, read), Newborn(name, read), None, [], "")
  {
    var c := Newborn(name, read);
    var a := Born(strconv, [], name, read);
    Take(a, Begin(0));
    var b := Start(a, c);
    Take(b, EditSpec(name, edited));
    w := Respec(b, c, edited);
  }

  /**
   A user sets hash key and shard count after a pass has read the object without them; the defaults
   that pass persists replace both.
   */
  lemma StaleDefaultsOverwrite(strconv: FloatParser, name: string, spec: Spec) returns (before: World, after: World)
    requires Complete(spec)
    ensures Reachable(before) && before.worker.Busy? && name in before.clusters
    ensures before.clusters[name].spec == spec.(hashKey := Some("userId"), numShards := Some(16))
    ensures Reachable(after) && after == Step(before, CallOf(Done, [])) && name in after.clusters
    ensures after.clusters[name].spec.hashKey == Some("conversationId")
    ensures after.clusters[name].spec.numShards == Some(8)
  {
    var read := spec.(hashKey := None, numShards := None);
    before := EditedMeanwhile(strconv, name, read, spec.(hashKey := Some("userId"), numShards := Some(16)));
    after := Calls(before, CallOf(Done, []));
    assert after == DefaultsStep(before, CallOf(Done, []));
  }

  // ---- pod labels that never arrive ----

  /** A pod label of the spec is missing from the template, whatever deployment existed before. */
  lemma PodLabelsLost(was: Object, i: Inputs)
    requires was.Deployment? && i.spec.decode.podLabels == map["team" := "search"]
    ensures "team" !in Mutate(DecodeDeployment, was, i).podLabels
    ensures !Matches(i.spec.decode.podLabels, Mutate(DecodeDeployment, was, i).podLabels)
  {
    assert |"team"| == 4 && |NAME_LABEL| == 22 && |PART_LABEL| == 25 && |CLUSTER_LABEL| == 24 && |ROLE_LABEL| == 21;
    assert "team" !in LabelsFor(i.cluster, "decode");
    assert "team" in i.spec.decode.podLabels;
  }

  // ---- one input for all of them ----

  const EXAMPLE := Spec("worker:v1", [], [], RoleSpec(None, Some(8001), map[]), RoleSpec(None, Some(8000), map[]),
                        "sharded", Some(8), "lru", "none", "sessionAffinity", Some("conversationId"), Some(1),
                        Autoscaling(None, None, None, ""))

  lemma ExampleIsComplete(image: string)
    ensures Complete(EXAMPLE.(image := image)) && ValidName("a") && ValidName("b")
    ensures Complete(EXAMPLE.(image := image, numShards := Some(16)))
  {
    assert |"sessionAffinity"| > 0 && |"sharded"| > 0 && |"lru"| > 0 && |"none"| > 0;
  }

  /** The persisted shards of a cluster disagree with the map its routers are given. */
  ghost predicate Disagrees(w: World, name: string) {
    && Reachable(w) && w.worker.Idle? && name in w.clusters && |History(w, name)| > 0
    && !Agree(w.clusters[name].status.shards, LatestMap(w, name))
  }

  /** A status has seen a generation its object has not reached. */
  ghost predicate Ahead(w: World, name: string) {
    && Reachable(w) && name in w.clusters
    && w.clusters[name].status.observedGeneration > w.clusters[name].generation
  }

  /** One call of the operator replaces a shard count other than the default by the default. */
  ghost predicate Overwrites(w: World, v: World, name: string) {
    && Reachable(w) && Reachable(v) && w.worker.Busy? && v == Step(w, CallOf(Done, []))
    && name in w.clusters && w.clusters[name].spec.numShards == Some(16)
    && name in v.clusters && v.clusters[name].spec.numShards == Some(8)
  }

  /** Eight shards are published although every version that sets a count sets 16. */
  ghost predicate Falls(w: World, name: string) {
    && Reachable(w) && |History(w, name)| > 0 && |LatestMap(w, name).shards| == 8
    && SetsOnly(w.versions, Some(16))
  }

  /**
   For a cluster "chat" with eight shards and pods a and b there are runs with shards that disagree,
   before anything was ever reported and after three reports, with a status ahead of its object,
   with an edit that is lost, and, for sixteen shards, with a count that falls to eight.
   */
  lemma AllHappen(strconv: FloatParser)
    ensures exists w :: Disagrees(w, "chat") && w.clusters["chat"].status.observedGeneration == 0
    ensures exists w :: Disagrees(w, "chat") && UpToDate(w.clusters["chat"])
    ensures exists w :: Ahead(w, "chat")
    ensures exists w, v :: Overwrites(w, v, "chat")
    ensures exists w :: Falls(w, "chat")
  {
    ExampleIsComplete("worker:v1");
    ExampleIsComplete("worker:v2");
    assert |"worker:v1"| == 9 && "worker:v1"[8] != "worker:v2"[8];
    var failed := FailedPassDisagrees(strconv, "chat", EXAMPLE, "a", "b");
    assert Disagrees(failed, "chat");
    var stale := StaleReportDisagrees(strconv, "chat", EXAMPLE, "a", "b");
    assert Disagrees(stale, "chat");
    var ahead := StatusAhead(strconv, "chat", EXAMPLE, EXAMPLE.(image := "worker:v2"), "a");
    assert Ahead(ahead, "chat");
    var before, after := StaleDefaultsOverwrite(strconv, "chat", EXAMPLE);
    assert Overwrites(before, after, "chat");
    var unset := UnsetCountPublishesEight(strconv, "chat", EXAMPLE.(numShards := Some(16)), "a");
    assert Falls(unset, "chat");
  }
}
