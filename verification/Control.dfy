/**
 The reconciler as a transition system. Every call to the API server is one step that may take
 effect, fail, or take effect and still report failure; users, pods and other controllers act
 between any two steps. The log of persisted versions plays the part of resource versions.
 */
module Control {
  import opened Autoscaler
  import opened Decimal
  import opened Ints
  import opened Objects
  import opened Options
  import opened ShardMaps
  import opened StatusFields

  const FINALIZER := "inference.llm.io/finalizer"

  datatype Cluster = Cluster(
    name: string, generation: int, version: nat, deleting: bool, finalizers: seq<string>,
    spec: Spec, status: Status)

  /** What the operator has once written into a cluster's shard map. */
  datatype Publication = Publication(pods: seq<Pod>, numShards: nat, text: string)

  datatype Pc = Defaults | Finalize | Write(slot: Slot) | Scale | ListPods | Report | Degrade

  datatype Worker =
    | Idle
    | Busy(pc: Pc, snapshot: Cluster, local: Cluster, scaledTo: Option<int>, listed: seq<Pod>, mapText: string)

  datatype World = World(
    namespace: string,
    strconv: FloatParser,
    clusters: map<string, Cluster>,
    versions: seq<Cluster>,
    store: Store,
    pods: seq<Pod>,
    published: map<string, seq<Publication>>,
    worker: Worker)

  /** Refused: no effect. Lost: the effect took place but the caller sees an error. */
  datatype Outcome = Done | Refused | Lost

  datatype Call = Call(outcome: Outcome, listed: seq<Pod>, now: int, message: string)

  predicate Takes(o: Outcome) {
    !o.Refused?
  }

  // ---- spec ----

  predicate InRange(x: Option<int>, lo: int) {
    x.Some? ==> lo <= x.value <= MAX32
  }

  /** The bounds the resource definition enforces. */
  predicate ValidSpec(s: Spec) {
    && InRange(s.numShards, 1) && InRange(s.routerReplicas, 1)
    && InRange(s.decode.replicas, 0) && InRange(s.prefill.replicas, 0)
    && InRange(s.autoscaling.minReplicas, 0) && InRange(s.autoscaling.maxReplicas, 1)
  }

  function ShardCount(s: Spec): nat {
    if NumShards(s) < 0 then 0 else NumShards(s)
  }

  /** The shard count is the one the spec sets, and 8 when it sets none. */
  lemma ShardCountIs(s: Spec)
    requires ValidSpec(s)
    ensures s.numShards.Some? ==> ShardCount(s) == s.numShards.value
    ensures s.numShards.None? ==> ShardCount(s) == 8
    ensures 1 <= ShardCount(s) <= MAX32
  {
  }

  function FillText(snapshot: string, default: string, server: string): string {
    if snapshot == "" then default else server
  }

  function Fill<T>(snapshot: Option<T>, default: T, server: Option<T>): Option<T> {
    if snapshot.None? then Some(default) else server
  }

  /** The merge patch that persists defaults: fields empty in the snapshot are set, others untouched. */
  function PatchDefaults(snapshot: Spec, server: Spec): Spec {
    server.(mode := FillText(snapshot.mode, "sessionAffinity", server.mode),
            hashKey := Fill(snapshot.hashKey, "conversationId", server.hashKey),
            routerReplicas := Fill(snapshot.routerReplicas, 1, server.routerReplicas),
            decode := server.decode.(servicePort := Fill(snapshot.decode.servicePort, 8000, server.decode.servicePort)),
            prefill :=
              server.prefill.(servicePort := Fill(snapshot.prefill.servicePort, 8001, server.prefill.servicePort)),
            strategy := FillText(snapshot.strategy, "sharded", server.strategy),
            numShards := Fill(snapshot.numShards, 8, server.numShards),
            evictionPolicy := FillText(snapshot.evictionPolicy, "lru", server.evictionPolicy),
            warmCache := FillText(snapshot.warmCache, "none", server.warmCache))
  }

  // ---- server ----

  /** Stores a new version, unless nothing changed. */
  function Persist(w: World, c: Cluster): (v: World)
    ensures v == w.(clusters := v.clusters, versions := v.versions)
  {
    if c.name in w.clusters && w.clusters[c.name] == c then w
    else
      var v := c.(version := |w.versions|);
      w.(clusters := w.clusters[c.name := v], versions := w.versions + [v])
  }

  function Respec(w: World, c: Cluster, spec: Spec): (v: World)
    ensures v == w.(clusters := v.clusters, versions := v.versions)
  {
    Persist(w, if spec == c.spec then c else c.(spec := spec, generation := c.generation + 1))
  }

  /** An object that is being deleted goes away with its last finalizer. */
  function SetFinalizers(w: World, c: Cluster, finalizers: seq<string>): (v: World)
    ensures v == w.(clusters := v.clusters, versions := v.versions)
  {
    if c.deleting && |finalizers| == 0 then w.(clusters := w.clusters - {c.name})
    else Persist(w, c.(finalizers := finalizers))
  }

  function Without(finalizers: seq<string>, f: string): seq<string> {
    if |finalizers| == 0 then []
    else if finalizers[0] == f then Without(finalizers[1..], f)
    else [finalizers[0]] + Without(finalizers[1..], f)
  }

  /** Optimistic concurrency: the caller's copy is the version the server holds. */
  predicate Current(w: World, c: Cluster) {
    c.name in w.clusters && w.clusters[c.name].version == c.version
  }

  // ---- the steps of one reconcile ----

  function First(spec: Spec): Pc {
    if Scales(spec) then Write(SignalsMap) else Write(DecodeService)
  }

  function After(slot: Slot): Pc {
    match slot
    case SignalsMap => Scale
    case DecodeService => Write(PrefillService)
    case PrefillService => Write(RouterService)
    case RouterService => Write(RouterAccount)
    case RouterAccount => Write(RouterRole)
    case RouterRole => Write(RouterBinding)
    case RouterBinding => Write(DecodeDeployment)
    case DecodeDeployment => Write(PrefillDeployment)
    case PrefillDeployment => Write(RouterDeployment)
    case RouterDeployment => ListPods
    case ShardMapMap => Report
  }

  function Stop(w: World): World {
    w.(worker := Idle)
  }

  function Goto(w: World, pc: Pc): World
    requires w.worker.Busy?
  {
    w.(worker := w.worker.(pc := pc))
  }

  function DefaultsStep(w: World, call: Call): (v: World)
    requires w.worker.Busy?
    ensures v.worker.Idle? || v.worker.pc.Finalize?
    ensures v == w.(clusters := v.clusters, versions := v.versions, worker := v.worker)
  {
    var b := w.worker;
    var name := b.local.name;
    if name !in w.clusters || !Takes(call.outcome) then Stop(w)
    else
      var server := w.clusters[name];
      var w1 := Respec(w, server, PatchDefaults(b.snapshot.spec, server.spec));
      if call.outcome.Lost? || name !in w1.clusters then Stop(w1)
      else w1.(worker := b.(pc := Finalize, local := w1.clusters[name]))
  }

  function FinalizeStep(w: World, call: Call): (v: World)
    requires w.worker.Busy?
    ensures v.worker.Idle? || v.worker.pc == Write(SignalsMap) || v.worker.pc == Write(DecodeService)
    ensures v == w.(clusters := v.clusters, versions := v.versions, worker := v.worker)
  {
    var b := w.worker;
    var local := b.local;
    if local.deleting then
      if FINALIZER !in local.finalizers || !Takes(call.outcome) || !Current(w, local) then Stop(w)
      else Stop(SetFinalizers(w, local, Without(local.finalizers, FINALIZER)))
    else if FINALIZER in local.finalizers then Goto(w, First(local.spec))
    else if !Takes(call.outcome) || !Current(w, local) then Stop(w)
    else
      var w1 := Persist(w, local.(finalizers := local.finalizers + [FINALIZER]));
      if call.outcome.Lost? || local.name !in w1.clusters then Stop(w1)
      else w1.(worker := b.(pc := First(local.spec), local := w1.clusters[local.name]))
  }

  /** Dereferencing an absent port stops the pass: the two services need theirs. */
  predicate PortMissing(slot: Slot, spec: Spec) {
    (slot.DecodeService? && spec.decode.servicePort.None?) || (slot.PrefillService? && spec.prefill.servicePort.None?)
  }

  function InputsOf(w: World): Inputs
    requires w.worker.Busy?
  {
    Inputs(w.worker.local.name, w.namespace, w.worker.local.spec, w.worker.scaledTo, w.worker.mapText)
  }

  function History(w: World, cluster: string): seq<Publication> {
    if cluster in w.published then w.published[cluster] else []
  }

  function PublicationOf(b: Worker): Publication
    requires b.Busy?
  {
    Publication(b.listed, ShardCount(b.local.spec), b.mapText)
  }

  /** The world after the mutation of a slot reached the server. */
  function Wrote(w: World, slot: Slot, store: Store): World
    requires w.worker.Busy?
  {
    var name := w.worker.local.name;
    if slot.ShardMapMap? then
      w.(store := store,
         published := w.published[name := History(w, name) + [PublicationOf(w.worker)]])
    else w.(store := store)
  }

  function WriteStep(w: World, call: Call, slot: Slot): (v: World)
    requires w.worker.Busy?
    ensures v.worker.Idle? || v.worker.pc.Degrade? || v.worker.pc == After(slot)
    ensures v == w.(store := v.store, published := v.published, worker := v.worker)
  {
    if PortMissing(slot, w.worker.local.spec) then Stop(w)
    else
      match Ensure(w.store, slot, InputsOf(w))
      case None => Goto(w, Degrade)
      case Some(store) =>
        if !Takes(call.outcome) then Goto(w, Degrade)
        else Goto(Wrote(w, slot, store), if call.outcome.Lost? then Degrade else After(slot))
  }

  function ScalingCondition(n: int, b: Bounds, gen: int, now: int): Condition {
    if n != b.Current() then
      Condition(SCALING, true, "Autoscaling", "Autoscaling decode replicas to " + Itoa(n), gen, now)
    else
      Condition(SCALING, false, "Stable", "No autoscaling change required", gen, now)
  }

  function ScaleStep(w: World, call: Call): (v: World)
    requires w.worker.Busy?
    ensures v.worker.Busy? && (v.worker.pc.Degrade? || v.worker.pc == Write(DecodeService))
    ensures v == w.(worker := v.worker)
  {
    var b := w.worker;
    var key := KeyOf(b.local.name, SignalsMap);
    if b.local.spec.autoscaling.source == "prometheus" || !call.outcome.Done? || key !in w.store then Goto(w, Degrade)
    else
      var depth := ReadSignals(Existing(w.store, key).data, w.strconv).queueDepth;
      var bounds := BoundsOf(b.local.spec);
      var n := DecodeReplicas(bounds, depth);
      var conds := SetCondition(b.local.status.conditions, ScalingCondition(n, bounds, b.local.generation, call.now));
      w.(worker := b.(pc := Write(DecodeService), scaledTo := Some(n),
                      local := b.local.(status := b.local.status.(conditions := conds))))
  }

  /** The pods a label selector lists. */
  function Select(pods: seq<Pod>, selector: Labels): seq<Pod> {
    if |pods| == 0 then []
    else
      var last := pods[|pods| - 1];
      Select(pods[..|pods| - 1], selector) + if Matches(selector, last.labels) then [last] else []
  }

  function DecodePods(w: World, cluster: string): seq<Pod> {
    Select(w.pods, LabelsFor(cluster, ROLE_DECODE))
  }

  function ListStep(w: World, call: Call): (v: World)
    requires w.worker.Busy?
    ensures v.worker.Busy? && (v.worker.pc.Degrade? || v.worker.pc == Write(ShardMapMap))
    ensures v == w.(worker := v.worker)
  {
    var b := w.worker;
    if !call.outcome.Done? then Goto(w, Degrade)
    else
      var n := ShardCount(b.local.spec);
      w.(worker := b.(pc := Write(ShardMapMap), listed := call.listed, mapText := Publish(MapOf(call.listed, n)),
                      local := b.local.(status := b.local.status.(shards := StatusOf(call.listed, n, call.now)))))
  }

  function EndpointsOf(i: Inputs): Endpoints {
    Endpoints("http://" + ChildName(i.cluster, "router") + "." + i.namespace + ".svc.cluster.local:8080",
              ServiceAddress(i, "decode"), ServiceAddress(i, "prefill"))
  }

  /** The status a successful pass reports. */
  function Reported(w: World, now: int): Status
    requires w.worker.Busy?
  {
    var local := w.worker.local;
    local.status.(observedGeneration := local.generation, endpoints := EndpointsOf(InputsOf(w)),
                  conditions := SetOutcome(local.status.conditions, true, ("Reconciled", "Healthy"),
                                           ("Resources are reconciled", "No reconciliation errors"),
                                           local.generation, now))
  }

  function ReportStep(w: World, call: Call): (v: World)
    requires w.worker.Busy?
    ensures v.worker.Idle?
    ensures v == w.(clusters := v.clusters, versions := v.versions, worker := v.worker)
  {
    var b := w.worker;
    var name := b.local.name;
    if name !in w.clusters || !Takes(call.outcome) then Stop(w)
    else
      var server := w.clusters[name];
      Stop(Persist(w, server.(status := PatchStatus(b.snapshot.status, Reported(w, call.now), server.status))))
  }

  /** The status a failed pass writes. */
  function Failed(w: World, call: Call): Status
    requires w.worker.Busy?
  {
    var local := w.worker.local;
    local.status.(conditions := SetOutcome(local.status.conditions, false, ("Error", "ReconcileError"),
                                           (call.message, call.message), local.generation, call.now))
  }

  function DegradeStep(w: World, call: Call): (v: World)
    requires w.worker.Busy?
    ensures v.worker.Idle?
    ensures v == w.(clusters := v.clusters, versions := v.versions, worker := v.worker)
  {
    var local := w.worker.local;
    if !Takes(call.outcome) || !Current(w, local) then Stop(w)
    else Stop(Persist(w, w.clusters[local.name].(status := Failed(w, call))))
  }

  function Step(w: World, call: Call): World
    requires w.worker.Busy?
  {
    match w.worker.pc
    case Defaults => DefaultsStep(w, call)
    case Finalize => FinalizeStep(w, call)
    case Write(slot) => WriteStep(w, call, slot)
    case Scale => ScaleStep(w, call)
    case ListPods => ListStep(w, call)
    case Report => ReportStep(w, call)
    case Degrade => DegradeStep(w, call)
  }

  // ---- everyone else ----

  datatype Action =
    | Op(call: Call)                                         // the worker's next call
    | Begin(k: nat)                                          // a pass starts from any version ever held
    | Create(name: string, newSpec: Spec)
    | EditSpec(name: string, newSpec: Spec)
    | EditFinalizers(name: string, finalizers: seq<string>)
    | Delete(name: string)
    | SetPods(pods: seq<Pod>)
    | EditStore(store: Store)

  function MapData(store: Store, cluster: string): Option<string> {
    var data := Existing(store, KeyOf(cluster, ShardMapMap)).data;
    if MAP_KEY in data then Some(data[MAP_KEY]) else None
  }

  ghost predicate Once(finalizers: seq<string>) {
    forall i, j :: 0 <= i < j < |finalizers| && finalizers[i] == FINALIZER ==> finalizers[j] != FINALIZER
  }

  /** Others may delete a shard map but only the operator writes one. */
  ghost predicate LeavesMaps(before: Store, after: Store) {
    forall c :: MapData(after, c) == MapData(before, c) || MapData(after, c) == None
  }

  ghost predicate Enabled(w: World, a: Action) {
    match a
    case Op(call) =>
      && w.worker.Busy?
      && (w.worker.pc.ListPods? ==> multiset(call.listed) == multiset(DecodePods(w, w.worker.local.name)))
    case Begin(k) => w.worker.Idle? && k < |w.versions|
    case Create(name, spec) => ValidSpec(spec) && name !in w.clusters
    case EditSpec(name, spec) => name in w.clusters && ValidSpec(spec)
    case EditFinalizers(name, finalizers) => name in w.clusters && Once(finalizers)
    case Delete(name) => name in w.clusters
    case SetPods(pods) => ValidPods(pods)
    case EditStore(store) => LeavesMaps(w.store, store)
  }

  function Start(w: World, snapshot: Cluster): World {
    w.(worker := Busy(Defaults, snapshot, snapshot, None, [], ""))
  }

  function DeleteCluster(w: World, c: Cluster): World {
    if |c.finalizers| == 0 then w.(clusters := w.clusters - {c.name})
    else Persist(w, if c.deleting then c else c.(deleting := true, generation := c.generation + 1))
  }

  ghost function Apply(w: World, a: Action): World
    requires Enabled(w, a)
  {
    match a
    case Op(call) => Step(w, call)
    case Begin(k) => Start(w, w.versions[k])
    case Create(name, spec) => Persist(w, Cluster(name, 1, 0, false, [], spec, EMPTY_STATUS))
    case EditSpec(name, spec) => Respec(w, w.clusters[name], spec)
    case EditFinalizers(name, finalizers) => SetFinalizers(w, w.clusters[name], finalizers)
    case Delete(name) => DeleteCluster(w, w.clusters[name])
    case SetPods(pods) => w.(pods := pods)
    case EditStore(store) => w.(store := store)
  }

  /** Nothing created yet, and no shard map lying around. */
  ghost predicate Initial(w: World) {
    && w.clusters == map[] && w.versions == [] && w.published == map[] && w.worker == Idle
    && ValidPods(w.pods)
    && forall c :: MapData(w.store, c) == None
  }

  ghost predicate Run(worlds: seq<World>, actions: seq<Action>) {
    && |worlds| == |actions| + 1
    && Initial(worlds[0])
    && forall i :: 0 <= i < |actions| ==>
         Enabled(worlds[i], actions[i]) && worlds[i + 1] == Apply(worlds[i], actions[i])
  }
}
