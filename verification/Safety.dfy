/** Safety of the control plane over whole runs. */
module Safety {
  import opened Autoscaler
  import opened Control
  import opened ControlInv
  import opened Decimal
  import opened Ints
  import opened Objects
  import opened Options
  import opened ShardMaps
  import opened StatusFields

  // ---- defaults ----

  /** A text field of the server's spec is not overwritten by a default. */
  predicate KeepsText(snapshot: string, default: string, server: string) {
    snapshot != "" || server == default
  }

  predicate Keeps<T(==)>(snapshot: Option<T>, default: T, server: Option<T>) {
    snapshot.Some? || server == Some(default)
  }

  /**
   What persisting the defaults does to the spec the server holds, field by field: a field keeps its
   value exactly if the snapshot had that field set or the value is the default, and so a value a user
   set after the snapshot was read is lost otherwise.
   */
  lemma DefaultsKeepIff(snapshot: Spec, server: Spec)
    ensures var s := PatchDefaults(snapshot, server);
            && (s.mode == server.mode <==> KeepsText(snapshot.mode, "sessionAffinity", server.mode))
            && (s.hashKey == server.hashKey <==> Keeps(snapshot.hashKey, "conversationId", server.hashKey))
            && (s.routerReplicas == server.routerReplicas <==> Keeps(snapshot.routerReplicas, 1, server.routerReplicas))
            && (s.decode == server.decode
                <==> Keeps(snapshot.decode.servicePort, 8000, server.decode.servicePort))
            && (s.prefill == server.prefill
                <==> Keeps(snapshot.prefill.servicePort, 8001, server.prefill.servicePort))
            && (s.strategy == server.strategy <==> KeepsText(snapshot.strategy, "sharded", server.strategy))
            && (s.numShards == server.numShards <==> Keeps(snapshot.numShards, 8, server.numShards))
            && (s.evictionPolicy == server.evictionPolicy
                <==> KeepsText(snapshot.evictionPolicy, "lru", server.evictionPolicy))
            && (s.warmCache == server.warmCache <==> KeepsText(snapshot.warmCache, "none", server.warmCache))
            && s.image == server.image && s.args == server.args && s.env == server.env
            && s.autoscaling == server.autoscaling
  {
  }

  /** Every field some snapshot left open is set on the server or already has its default. */
  ghost predicate KeepsAll(snapshot: Spec, server: Spec) {
    && KeepsText(snapshot.mode, "sessionAffinity", server.mode)
    && Keeps(snapshot.hashKey, "conversationId", server.hashKey)
    && Keeps(snapshot.routerReplicas, 1, server.routerReplicas)
    && Keeps(snapshot.decode.servicePort, 8000, server.decode.servicePort)
    && Keeps(snapshot.prefill.servicePort, 8001, server.prefill.servicePort)
    && KeepsText(snapshot.strategy, "sharded", server.strategy)
    && Keeps(snapshot.numShards, 8, server.numShards)
    && KeepsText(snapshot.evictionPolicy, "lru", server.evictionPolicy)
    && KeepsText(snapshot.warmCache, "none", server.warmCache)
  }

  lemma SpecKeptIff(snapshot: Spec, server: Spec)
    ensures PatchDefaults(snapshot, server) == server <==> KeepsAll(snapshot, server)
  {
    DefaultsKeepIff(snapshot, server);
  }

  lemma RespecEffect(w: World, name: string, spec: Spec)
    requires Inv(w) && name in w.clusters
    ensures var c, v := w.clusters[name], Respec(w, w.clusters[name], spec);
            && name in v.clusters && (v.clusters[name] == c <==> spec == c.spec)
            && (spec != c.spec ==> v.clusters[name].generation == c.generation + 1)
  {
    ServerFacts(w, name);
  }

  lemma PatchEffect(w: World, call: Call)
    requires w.worker.Busy? && w.worker.pc.Defaults? && Takes(call.outcome) && w.worker.local.name in w.clusters
    ensures var c := w.clusters[w.worker.local.name];
            Step(w, call).clusters == Respec(w, c, PatchDefaults(w.worker.snapshot.spec, c.spec)).clusters
  {
    assert Step(w, call) == DefaultsStep(w, call);
  }

  /**
   In every run, a defaulting patch that takes effect leaves the stored object exactly as it was, with
   its version and generation, if every field of its spec is kept; otherwise a new generation begins.
   */
  lemma PatchKeepsEditsIff(worlds: seq<World>, actions: seq<Action>, i: nat)
    requires Run(worlds, actions) && i < |actions| && actions[i].Op? && Takes(actions[i].call.outcome)
    requires worlds[i].worker.Busy? && worlds[i].worker.pc.Defaults?
    requires worlds[i].worker.local.name in worlds[i].clusters
    ensures var w, v, name := worlds[i], worlds[i + 1], worlds[i].worker.local.name;
            && name in v.clusters
            && (v.clusters[name] == w.clusters[name] <==> KeepsAll(w.worker.snapshot.spec, w.clusters[name].spec))
            && (!KeepsAll(w.worker.snapshot.spec, w.clusters[name].spec) ==>
                  v.clusters[name].generation == w.clusters[name].generation + 1)
  {
    InvAlongRun(worlds, actions, i);
    var w, name := worlds[i], worlds[i].worker.local.name;
    PatchEffect(w, actions[i].call);
    RespecEffect(w, name, PatchDefaults(w.worker.snapshot.spec, w.clusters[name].spec));
    SpecKeptIff(w.worker.snapshot.spec, w.clusters[name].spec);
  }

  // ---- finalizer gate ----

  /** Some persisted version of the cluster was not being deleted and carried the finalizer. */
  ghost predicate Admitted(w: World, name: string, spec: Spec) {
    exists k :: 0 <= k < |w.versions| && w.versions[k].name == name && w.versions[k].spec == spec
                && !w.versions[k].deleting && FINALIZER in w.versions[k].finalizers
  }

  /** The children are only touched by the write steps. */
  lemma OnlyWritesTouchStore(w: World, call: Call)
    requires w.worker.Busy? && !w.worker.pc.Write?
    ensures Step(w, call).store == w.store && Step(w, call).published == w.published
  {
  }

  /**
   In every run, a step of the operator that changes any child belongs to a pass whose refreshed
   object is not being deleted and carries the finalizer, in a version the server has persisted.
   */
  lemma FinalizerGate(worlds: seq<World>, actions: seq<Action>, i: nat)
    requires Run(worlds, actions) && i < |actions| && actions[i].Op?
    requires worlds[i + 1].store != worlds[i].store
    ensures var w := worlds[i];
            && w.worker.Busy? && w.worker.pc.Write?
            && !w.worker.local.deleting && "inference.llm.io/finalizer" in w.worker.local.finalizers
            && Admitted(w, w.worker.local.name, w.worker.local.spec)
  {
    InvAlongRun(worlds, actions, i);
    var w := worlds[i];
    if !w.worker.pc.Write? {
      OnlyWritesTouchStore(w, actions[i].call);
    }
    var v := w.versions[w.worker.local.version];
    assert v.name == w.worker.local.name && v.spec == w.worker.local.spec && !v.deleting && FINALIZER in v.finalizers;
  }

  /** The gate adds the finalizer behind those that are there, and changes nothing else of the object. */
  lemma GateAppends(w: World, call: Call)
    requires Inv(w) && w.worker.Busy? && w.worker.pc.Finalize? && Takes(call.outcome) && Current(w, w.worker.local)
    requires !w.worker.local.deleting && FINALIZER !in w.worker.local.finalizers
    ensures var v, c := FinalizeStep(w, call), w.worker.local;
            && c.name in v.clusters && w.clusters[c.name] == c
            && v.clusters[c.name] == c.(finalizers := c.finalizers + ["inference.llm.io/finalizer"],
                                        version := v.clusters[c.name].version)
  {
    HeldIsCurrent(w, w.worker.local);
  }

  /** In every run, no persisted version lists the operator's finalizer twice. */
  lemma FinalizerOnce(worlds: seq<World>, actions: seq<Action>, i: nat, k: nat)
    requires Run(worlds, actions) && i < |worlds| && k < |worlds[i].versions|
    ensures Once(worlds[i].versions[k].finalizers)
  {
    InvAlongRun(worlds, actions, i);
    assert GoodVersion(worlds[i].versions[k], k);
  }

  /** All other clusters are as they were. */
  ghost predicate OthersSame(w: World, v: World, name: string) {
    && (forall n :: n != name ==> (n in v.clusters <==> n in w.clusters))
    && (forall n :: n != name && n in w.clusters ==> v.clusters[n] == w.clusters[n])
  }

  /** c became d by losing the operator's finalizer and nothing else. */
  ghost predicate Released(c: Cluster, d: Cluster) {
    && FINALIZER in c.finalizers && FINALIZER !in d.finalizers
    && (forall f :: f != FINALIZER ==> (f in d.finalizers <==> f in c.finalizers))
    && d == c.(finalizers := d.finalizers, version := d.version)
  }

  lemma ReleaseEffect(w: World, c: Cluster)
    requires c.name in w.clusters && w.clusters[c.name] == c && FINALIZER in c.finalizers && c.deleting
    ensures var v := SetFinalizers(w, c, Without(c.finalizers, FINALIZER));
            && OthersSame(w, v, c.name)
            && (c.name in v.clusters ==> Released(c, v.clusters[c.name]))
            && (c.name !in v.clusters ==> forall f :: f in c.finalizers ==> f == FINALIZER)
  {
    WithoutGone(c.finalizers, FINALIZER);
  }

  /**
   Handling a deletion ends the pass, writes no child, touches no other cluster, and changes at most
   the finalizer list, from which exactly the operator's own entry disappears; the object goes away
   only if no other finalizer holds it.
   */
  lemma DeletionOnlyReleases(w: World, call: Call)
    requires Inv(w) && w.worker.Busy? && w.worker.pc.Finalize? && w.worker.local.deleting
    ensures var v, name := Step(w, call), w.worker.local.name;
            && v.worker.Idle? && v.store == w.store && v.published == w.published
            && OthersSame(w, v, name)
            && (name in v.clusters ==>
                  && name in w.clusters
                  && (v.clusters[name] == w.clusters[name] || Released(w.clusters[name], v.clusters[name])))
            && (name !in v.clusters && name in w.clusters ==>
                  forall f :: f in w.clusters[name].finalizers ==> f == FINALIZER)
  {
    var local := w.worker.local;
    if FINALIZER in local.finalizers && Takes(call.outcome) && Current(w, local) {
      HeldIsCurrent(w, local);
      ReleaseEffect(w, local);
      assert Step(w, call) == Stop(SetFinalizers(w, local, Without(local.finalizers, FINALIZER)));
    } else {
      assert Step(w, call) == Stop(w);
    }
  }

  // ---- status ----

  /**
   In every run, every persisted status has unique condition types, and Ready and Degraded present
   together with opposite values.
   */
  lemma StatusSound(worlds: seq<World>, actions: seq<Action>, i: nat, k: nat)
    requires Run(worlds, actions) && i < |worlds| && k < |worlds[i].versions|
    ensures var conds := worlds[i].versions[k].status.conditions; UniqueKinds(conds) && Opposed(conds)
  {
    InvAlongRun(worlds, actions, i);
    assert GoodVersion(worlds[i].versions[k], k);
  }

  /** Status shards that say, entry by entry, what a published map says. */
  ghost predicate Agree(shards: seq<ShardStatus>, m: ShardMap) {
    && |shards| == |m.shards|
    && forall j :: 0 <= j < |shards| ==>
         && shards[j].shardID == m.shards[j].shardID && shards[j].role == m.shards[j].role
         && shards[j].ownerPod == m.shards[j].ownerPod
  }

  lemma MapAndStatusAgree(pods: seq<Pod>, n: nat, now: int)
    ensures Agree(StatusOf(pods, n, now), MapOf(pods, n))
  {
    forall j | 0 <= j < n
      ensures var s, e := StatusOf(pods, n, now)[j], MapOf(pods, n).shards[j];
              s.shardID == e.shardID && s.role == e.role && s.ownerPod == e.ownerPod
    {
      OwnershipTotal(pods, n, now, j);
    }
  }

  /** Status entries for one pod list agree with the map for another exactly if the maps are the same. */
  lemma AgreeIffSameMap(p: seq<Pod>, n: nat, now: int, q: seq<Pod>, m: nat)
    ensures Agree(StatusOf(p, n, now), MapOf(q, m)) <==> MapOf(p, n) == MapOf(q, m)
  {
    MapAndStatusAgree(p, n, now);
    if Agree(StatusOf(p, n, now), MapOf(q, m)) {
      var a, b := MapOf(p, n).shards, MapOf(q, m).shards;
      forall j | 0 <= j < |a| ensures a[j] == b[j] {
        assert StatusOf(p, n, now)[j].shardID == a[j].shardID;
      }
      assert a == b;
    }
  }

  /** Maps the operator publishes are the same exactly if their texts are. */
  lemma SameTextSameMap(p: seq<Pod>, n: nat, q: seq<Pod>, m: nat)
    requires n <= MAX32 && m <= MAX32 && ValidPods(p) && ValidPods(q)
    ensures Publish(MapOf(p, n)) == Publish(MapOf(q, m)) <==> MapOf(p, n) == MapOf(q, m)
  {
    OperatorMapReads(p, n);
    OperatorMapReads(q, m);
  }

  function LastMap(history: seq<Publication>): ShardMap
    requires |history| > 0
  {
    var last := history[|history| - 1];
    MapOf(last.pods, last.numShards)
  }

  /** The map the operator published last for a cluster. */
  function LatestMap(w: World, cluster: string): ShardMap
    requires |History(w, cluster)| > 0
  {
    LastMap(History(w, cluster))
  }

  /**
   When the final status write of a pass takes effect, the persisted shards agree with the latest
   published map exactly if the shards changed since the snapshot or the server's agreed already;
   so always if the snapshot was current.
   */
  lemma ReportAgrees(worlds: seq<World>, actions: seq<Action>, i: nat)
    requires Run(worlds, actions) && i < |actions| && actions[i].Op? && Takes(actions[i].call.outcome)
    requires worlds[i].worker.Busy? && worlds[i].worker.pc.Report?
    requires worlds[i].worker.local.name in worlds[i].clusters
    ensures var w, v, name := worlds[i], worlds[i + 1], worlds[i].worker.local.name;
            && name in v.clusters && |History(w, name)| > 0 && v.published == w.published
            && var snapshot, server := w.worker.snapshot.status.shards, w.clusters[name].status.shards;
            && (Agree(v.clusters[name].status.shards, LatestMap(w, name))
                <==> w.worker.local.status.shards != snapshot || Agree(server, LatestMap(w, name)))
            && (snapshot == server ==> Agree(v.clusters[name].status.shards, LatestMap(w, name)))
  {
    InvAlongRun(worlds, actions, i);
    var w, call := worlds[i], actions[i].call;
    LocalShardsAgree(w);
    ReportedShards(w, call);
    OnlyWritesTouchStore(w, call);
  }

  lemma LocalShardsAgree(w: World)
    requires Inv(w) && w.worker.Busy? && w.worker.pc.Report?
    ensures |History(w, w.worker.local.name)| > 0
    ensures Agree(w.worker.local.status.shards, LatestMap(w, w.worker.local.name))
  {
    var b := w.worker;
    var now :| b.local.status.shards == StatusOf(b.listed, ShardCount(b.local.spec), now);
    MapAndStatusAgree(b.listed, ShardCount(b.local.spec), now);
  }

  lemma ReportLands(w: World, call: Call, name: string)
    requires w.worker.Busy? && w.worker.pc.Report? && Takes(call.outcome) && w.worker.local.name == name
    requires name in w.clusters && w.clusters[name].name == name
    ensures var v := Step(w, call);
            && name in v.clusters
            && v.clusters[name].status
               == PatchStatus(w.worker.snapshot.status, Reported(w, call.now), w.clusters[name].status)
  {
    PersistedStatus(w, name, PatchStatus(w.worker.snapshot.status, Reported(w, call.now), w.clusters[name].status));
    assert Step(w, call) == ReportStep(w, call);
  }

  lemma ReportedShards(w: World, call: Call)
    requires Inv(w) && w.worker.Busy? && w.worker.pc.Report? && Takes(call.outcome)
    requires w.worker.local.name in w.clusters
    ensures var v, name := Step(w, call), w.worker.local.name;
            && name in v.clusters
            && v.clusters[name].status.shards
               == Patched(w.worker.snapshot.status.shards, w.worker.local.status.shards, w.clusters[name].status.shards)
  {
    ServerFacts(w, w.worker.local.name);
    ReportLands(w, call, w.worker.local.name);
  }

  /**
   When the status write of a failed pass takes effect: a pass that failed before listing the pods
   leaves the persisted shards as they were. One that failed later has written the shards of its own
   listing, and these agree with the latest published map exactly if its map text is the published
   one, which is to say unless the write of a different map was refused.
   */
  lemma FailureAgrees(worlds: seq<World>, actions: seq<Action>, i: nat)
    requires Run(worlds, actions) && i < |actions| && actions[i].Op? && Takes(actions[i].call.outcome)
    requires worlds[i].worker.Busy? && worlds[i].worker.pc.Degrade? && Current(worlds[i], worlds[i].worker.local)
    ensures var w, v, name := worlds[i], worlds[i + 1], worlds[i].worker.local.name;
            && name in v.clusters && v.published == w.published
            && (!Listed(w.worker) ==> v.clusters[name].status.shards == w.clusters[name].status.shards)
            && (Listed(w.worker) && |History(w, name)| > 0 ==>
                  (Agree(v.clusters[name].status.shards, LatestMap(w, name))
                   <==> Latest(History(w, name)) == Some(w.worker.mapText)))
  {
    InvAlongRun(worlds, actions, i);
    var w, call := worlds[i], actions[i].call;
    FailedShards(w, call);
    OnlyWritesTouchStore(w, call);
    if Listed(w.worker) && |History(w, w.worker.local.name)| > 0 {
      ListedShardsAgree(w);
    }
  }

  lemma PersistedStatus(w: World, name: string, status: Status)
    requires name in w.clusters && w.clusters[name].name == name
    ensures var v := Stop(Persist(w, w.clusters[name].(status := status)));
            name in v.clusters && v.clusters[name].status == status
  {
  }

  lemma UnlistedShards(w: World)
    requires Inv(w) && w.worker.Busy? && Current(w, w.worker.local) && !Listed(w.worker)
    ensures w.clusters[w.worker.local.name].status.shards == w.worker.local.status.shards
  {
    ServerFacts(w, w.worker.local.name);
  }

  lemma FailedShards(w: World, call: Call)
    requires Inv(w) && w.worker.Busy? && w.worker.pc.Degrade? && Takes(call.outcome) && Current(w, w.worker.local)
    ensures var v, name := Step(w, call), w.worker.local.name;
            && name in v.clusters && v.clusters[name].status.shards == w.worker.local.status.shards
            && (!Listed(w.worker) ==> w.clusters[name].status.shards == w.worker.local.status.shards)
  {
    ServerFacts(w, w.worker.local.name);
    PersistedStatus(w, w.worker.local.name, Failed(w, call));
    if !Listed(w.worker) {
      UnlistedShards(w);
    }
  }

  lemma ListedShardsAgree(w: World)
    requires Inv(w) && w.worker.Busy? && Listed(w.worker) && |History(w, w.worker.local.name)| > 0
    ensures var name := w.worker.local.name;
            Agree(w.worker.local.status.shards, LatestMap(w, name))
            <==> Latest(History(w, name)) == Some(w.worker.mapText)
  {
    var b, name := w.worker, w.worker.local.name;
    var n, last := ShardCount(b.local.spec), History(w, name)[|History(w, name)| - 1];
    assert GoodPublication(last, w.versions, name);
    assert GoodVersion(w.versions[b.local.version], b.local.version);
    var now :| b.local.status.shards == StatusOf(b.listed, n, now);
    AgreeIffSameMap(b.listed, n, now, last.pods, last.numShards);
    SameTextSameMap(b.listed, n, last.pods, last.numShards);
  }

  // ---- what a status says ----

  /** The reported addresses are those of the services the pass writes, with the ports those services open. */
  lemma EndpointsAgree(i: Inputs, decode: Object, prefill: Object, router: Object)
    requires !LacksPorts(i.spec) && decode.Service? && prefill.Service? && router.Service?
    ensures var ports := Mutate(RouterService, router, i).ports;
            && EndpointsOf(i).decode == Address(i, DecodeService, i.spec.decode.servicePort.value)
            && EndpointsOf(i).prefill == Address(i, PrefillService, i.spec.prefill.servicePort.value)
            && Mutate(DecodeService, decode, i).ports == [Port("http", i.spec.decode.servicePort.value)]
            && Mutate(PrefillService, prefill, i).ports == [Port("http", i.spec.prefill.servicePort.value)]
            && |ports| == 2 && ports[0] == Port("http", 8080) && ports[1] == Port("metrics", 9090)
            && EndpointsOf(i).router
               == "http://" + KeyOf(i.cluster, RouterService).name + "." + i.namespace + ".svc.cluster.local:8080"
  {
    SuffixesDiffer();
  }

  ghost predicate LacksPorts(spec: Spec) {
    spec.decode.servicePort.None? || spec.prefill.servicePort.None?
  }

  /** A success is reported as Ready and not Degraded, for the generation the pass worked on. */
  lemma SuccessSays(w: World, now: int)
    requires w.worker.Busy?
    ensures var s := Reported(w, now);
            && Says(s, "Ready", true, "Reconciled", "Resources are reconciled", w.worker.local.generation)
            && Says(s, "Degraded", false, "Healthy", "No reconciliation errors", w.worker.local.generation)
            && s.observedGeneration == w.worker.local.generation && s.endpoints == EndpointsOf(InputsOf(w))
            && s.shards == w.worker.local.status.shards
  {
    var local := w.worker.local;
    OutcomeSays(local.status, true, ("Reconciled", "Healthy"),
                ("Resources are reconciled", "No reconciliation errors"), local.generation, now);
  }

  /** A status has a condition of this kind that says this, about this generation. */
  ghost predicate Says(s: Status, kind: string, status: bool, reason: string, message: string, gen: int) {
    var c := Find(s.conditions, kind);
    && c.Some? && c.value.kind == kind && c.value.status == status && c.value.reason == reason
    && c.value.message == message && c.value.observedGeneration == gen
  }

  lemma OutcomeSays(s: Status, ok: bool, reasons: (string, string), messages: (string, string), gen: int, now: int)
    ensures var t := s.(conditions := SetOutcome(s.conditions, ok, reasons, messages, gen, now));
            && Says(t, "Ready", ok, reasons.0, messages.0, gen)
            && Says(t, "Degraded", !ok, reasons.1, messages.1, gen)
  {
    var r := Condition(READY, ok, reasons.0, messages.0, gen, now);
    var d := Condition(DEGRADED, !ok, reasons.1, messages.1, gen, now);
    SetReadsBack(s.conditions, r);
    SetReadsBack(SetCondition(s.conditions, r), d);
    FindAfterSet(SetCondition(s.conditions, r), d, READY);
    assert READY != DEGRADED by {
      assert |READY| == 5 && |DEGRADED| == 8;
    }
  }

  /** A failure is reported as Degraded and not Ready, and claims neither generation nor addresses. */
  lemma FailureSays(w: World, call: Call)
    requires w.worker.Busy?
    ensures var s := Failed(w, call);
            && Says(s, "Ready", false, "Error", call.message, w.worker.local.generation)
            && Says(s, "Degraded", true, "ReconcileError", call.message, w.worker.local.generation)
            && s == w.worker.local.status.(conditions := s.conditions)
  {
    var local := w.worker.local;
    OutcomeSays(local.status, false, ("Error", "ReconcileError"), (call.message, call.message),
                local.generation, call.now);
  }

  /** Scaling is reported exactly when the decision differs from where it started. */
  lemma ScalingSays(w: World, call: Call)
    requires w.worker.Busy? && !ScaleStep(w, call).worker.pc.Degrade?
    ensures var v := ScaleStep(w, call);
            v.worker.scaledTo.Some?
            && var s, n, gen := v.worker.local.status, v.worker.scaledTo.value, w.worker.local.generation;
            if n != BoundsOf(w.worker.local.spec).Current()
            then Says(s, "Scaling", true, "Autoscaling", "Autoscaling decode replicas to " + Itoa(n), gen)
            else Says(s, "Scaling", false, "Stable", "No autoscaling change required", gen)
  {
    var v, local := ScaleStep(w, call), w.worker.local;
    SetReadsBack(local.status.conditions,
                 ScalingCondition(v.worker.scaledTo.value, BoundsOf(local.spec), local.generation, call.now));
  }

  /** The shards a pass shows are those of its own listing, as many as the spec asks for, and dated when it listed. */
  lemma ListingSays(w: World, call: Call, j: nat)
    requires w.worker.Busy? && ValidSpec(w.worker.local.spec) && !ListStep(w, call).worker.pc.Degrade?
    requires j < w.worker.local.spec.numShards.GetOr(8)
    ensures var v, n := ListStep(w, call), w.worker.local.spec.numShards.GetOr(8);
            && |v.worker.local.status.shards| == n && v.worker.mapText == Publish(MapOf(call.listed, n))
            && Sourced(call.listed, MapOf(call.listed, n).shards[j], v.worker.local.status.shards[j], j, call.now)
  {
    ShardCountIs(w.worker.local.spec);
    OwnershipTotal(call.listed, ShardCount(w.worker.local.spec), call.now, j);
  }

  // ---- clusters do not interfere ----

  lemma StepStore(w: World, call: Call)
    requires w.worker.Busy?
    ensures Step(w, call).store == w.store
            || (w.worker.pc.Write? && Ensure(w.store, w.worker.pc.slot, InputsOf(w)) == Some(Step(w, call).store))
  {
    if !w.worker.pc.Write? {
      OnlyWritesTouchStore(w, call);
    }
  }

  /** A pass for one cluster leaves every child of every other cluster unchanged. */
  lemma ClustersApart(w: World, call: Call, other: string, slot: Slot)
    requires w.worker.Busy? && other != w.worker.local.name
    ensures var key := KeyOf(other, slot);
            (key in Step(w, call).store <==> key in w.store)
            && (key in w.store ==> Step(w, call).store[key] == w.store[key])
  {
    StepStore(w, call);
    if Step(w, call).store != w.store {
      if KeyOf(other, slot) == KeyOf(w.worker.local.name, w.worker.pc.slot) {
        KeysApart(other, slot, w.worker.local.name, w.worker.pc.slot);
      }
    }
  }

  /** An object another controller owns is never modified. */
  lemma ForeignUntouched(w: World, call: Call, key: Key)
    requires w.worker.Busy? && key in w.store && KindOf(w.store[key]) == key.kind
    requires w.store[key].meta.owner.Some? && w.store[key].meta.owner.value != w.worker.local.name
    ensures key in Step(w, call).store && Step(w, call).store[key] == w.store[key]
  {
    StepStore(w, call);
  }

  // ---- autoscaling over runs ----

  /** What scaling can make of the spec's own decode count, given effective bounds. */
  ghost predicate OneFrom(n: int, spec: Spec) {
    var x, min := spec.decode.replicas.GetOr(1), spec.autoscaling.minReplicas.GetOr(0);
    var max := if spec.autoscaling.maxReplicas.GetOr(10) < 1 then 1 else spec.autoscaling.maxReplicas.GetOr(10);
    && (min <= x <= max ==> x - 1 <= n <= x + 1 || (x == MAX32 && n == min))
    && (min > max ==> n == max)
    && (min <= max < x ==> max - 1 <= n <= max)
    && (x < min <= max ==> min <= n <= min + 1)
  }

  lemma ScaledIsOneFrom(n: int, spec: Spec)
    requires ValidSpec(spec) && ScaledBy(n, spec)
    ensures OneFrom(n, spec)
  {
    var b := BoundsOf(spec);
    var depth :| n == DecodeReplicas(b, depth);
    StartsFromSpec(b);
    if b.Min() <= b.Max() {
      RaisedIs(b, b.Current());
    }
  }

  /**
   Whenever the operator writes the decode deployment, in any run and after any signal history, the
   count is the spec's own without autoscaling. With it, it is the pass's one decision, within one of
   the spec's count as far as that is within the bounds, and of the bound it violates otherwise; only
   at 2^31-1 does it fall to the minimum.
   */
  lemma DecodeCountMemoryless(worlds: seq<World>, actions: seq<Action>, i: nat)
    requires Run(worlds, actions) && i < |actions| && actions[i].Op?
    requires worlds[i].worker.Busy? && worlds[i].worker.pc == Write(DecodeDeployment)
    requires worlds[i + 1].store != worlds[i].store
    ensures var spec := worlds[i].worker.local.spec;
            var key := KeyOf(worlds[i].worker.local.name, DecodeDeployment);
            && key in worlds[i + 1].store && worlds[i + 1].store[key].Deployment?
            && var n := worlds[i + 1].store[key].replicas;
            && (spec.autoscaling.enabled != Some(true) ==> n == spec.decode.replicas.GetOr(1))
            && (spec.autoscaling.enabled == Some(true) ==> worlds[i].worker.scaledTo == Some(n) && OneFrom(n, spec))
  {
    InvAlongRun(worlds, actions, i);
    var w := worlds[i];
    StepStore(w, actions[i].call);
    var spec := w.worker.local.spec;
    assert GoodVersion(w.versions[w.worker.local.version], w.worker.local.version);
    MutateReaches(DecodeDeployment, Existing(w.store, KeyOf(w.worker.local.name, DecodeDeployment)), InputsOf(w));
    if Scales(spec) {
      ScaledIsOneFrom(w.worker.scaledTo.value, spec);
    }
  }

  /**
   The decision itself: whenever a pass makes one, in any run, it does so for the depth under the
   queueDepth key of its own cluster's signals, starting from the spec's own count.
   */
  lemma DecisionReadsSignals(worlds: seq<World>, actions: seq<Action>, i: nat, x: int)
    requires Run(worlds, actions) && i < |actions| && actions[i].Op?
    requires worlds[i].worker.Busy? && worlds[i].worker.pc.Scale? && !worlds[i + 1].worker.pc.Degrade?
    requires InBounds(BoundsOf(worlds[i].worker.local.spec), x)
    ensures var w, v, b := worlds[i], worlds[i + 1], BoundsOf(worlds[i].worker.local.spec);
            x == w.worker.local.spec.decode.replicas.GetOr(1)
            && exists depth :: StandsFor(depth, SignalData(w.store, w.worker.local.name), "queueDepth", w.strconv)
                          && v.worker.scaledTo == Some(Decided(b, x, depth))
  {
    InvAlongRun(worlds, actions, i);
    var w := worlds[i];
    assert GoodVersion(w.versions[w.worker.local.version], w.worker.local.version);
    assert worlds[i + 1] == ScaleStep(w, actions[i].call);
    var depth := StepDecides(w, actions[i].call, x);
  }

  lemma StepDecides(w: World, call: Call, x: int) returns (depth: Float)
    requires w.worker.Busy? && !ScaleStep(w, call).worker.pc.Degrade?
    requires BoundsOf(w.worker.local.spec).Valid() && InBounds(BoundsOf(w.worker.local.spec), x)
    ensures StandsFor(depth, SignalData(w.store, w.worker.local.name), "queueDepth", w.strconv)
    ensures ScaleStep(w, call).worker.scaledTo == Some(Decided(BoundsOf(w.worker.local.spec), x, depth))
  {
    var data := SignalData(w.store, w.worker.local.name);
    depth := ReadSignals(data, w.strconv).queueDepth;
    SignalsTotal(data, w.strconv);
    DecisionIs(BoundsOf(w.worker.local.spec), x, depth);
  }

  function SignalData(store: Store, cluster: string): map<string, string> {
    Existing(store, KeyOf(cluster, SignalsMap)).data
  }

  /** Signals the user has set survive every step of the operator. */
  lemma SignalsSurvive(w: World, call: Call, cluster: string, k: string)
    requires w.worker.Busy?
    requires k in SignalData(w.store, cluster)
    ensures k in SignalData(Step(w, call).store, cluster)
    ensures SignalData(Step(w, call).store, cluster)[k] == SignalData(w.store, cluster)[k]
  {
    StepStore(w, call);
    if Step(w, call).store != w.store {
      if cluster == w.worker.local.name && w.worker.pc.slot == SignalsMap {
        SeedHasKeys(SignalData(w.store, cluster));
      } else {
        EnsureFrame(w.store, w.worker.pc.slot, InputsOf(w), cluster, SignalsMap);
      }
    }
  }

  /** In every run each prefill and router count written is the spec's own, whatever the signals. */
  lemma OtherCountsFixed(worlds: seq<World>, actions: seq<Action>, i: nat)
    requires Run(worlds, actions) && i < |actions| && actions[i].Op? && worlds[i + 1].store != worlds[i].store
    ensures var w, v := worlds[i], worlds[i + 1];
            w.worker.Busy? && w.worker.pc.Write?
            && var spec, key := w.worker.local.spec, KeyOf(w.worker.local.name, w.worker.pc.slot);
            && (w.worker.pc.slot.PrefillDeployment? ==>
                  key in v.store && v.store[key].Deployment? && v.store[key].replicas == spec.prefill.replicas.GetOr(1))
            && (w.worker.pc.slot.RouterDeployment? ==>
                  key in v.store && v.store[key].Deployment? && v.store[key].replicas == spec.routerReplicas.GetOr(1))
  {
    var w := worlds[i];
    StepStore(w, actions[i].call);
    var slot := w.worker.pc.slot;
    MutateReaches(slot, Existing(w.store, KeyOf(w.worker.local.name, slot)), InputsOf(w));
    SuffixesDiffer();
  }

  /** Only the decode deployment depends on the scaling decision. */
  lemma ScalingTouchesDecodeOnly(slot: Slot, was: Object, i: Inputs, n: Option<int>)
    requires KindOf(was) == SlotKind(slot) && slot != DecodeDeployment
    ensures Mutate(slot, was, i.(scaledTo := n)) == Mutate(slot, was, i)
  {
    assert "prefill" != "decode" by {
      SuffixesDiffer();
    }
  }
}
