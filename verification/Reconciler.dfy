/**
 The reconciler as the sequential program it is: one object updated in place call by call, proved to
 end where the transition system of module Control ends.
 */
module Reconcilers {
  import opened Autoscaler
  import opened Control
  import opened ControlInv
  import opened Convergence
  import opened Decimal
  import opened Objects
  import opened Options
  import opened ShardMaps
  import StatusFields

  /** What a pass hands back to the work queue; seconds, 0 for no requeue. */
  datatype Result = Result(requeueAfter: nat, failed: bool)

  /** The read a pass starts with; it may return any past version. */
  datatype Got = Found(c: Cluster) | NotFound | Unreachable

  /** How a group of calls ended: go on, report the failure, or return at once, with or without an error. */
  datatype Flow = Proceed | Fail | Abort(quiet: bool)

  // ---- the result of a pass ----

  /** A deletion was handled, or there was nothing left to release. */
  predicate Settled(w: World, call: Call)
    requires w.worker.Busy?
  {
    var local := w.worker.local;
    && w.worker.pc.Finalize? && local.deleting
    && (FINALIZER in local.finalizers ==> call.outcome.Done? && Current(w, local))
  }

  /** The result if the pass ends with its next call: requeue after 30s, 5s with an error, or not at all. */
  function Ends(w: World, call: Call): Option<Result>
    requires w.worker.Busy?
  {
    match w.worker.pc
    case Report =>
      Some(if call.outcome.Done? && w.worker.local.name in w.clusters then Result(30, false) else Result(0, true))
    case Degrade => Some(Result(5, true))
    case _ => if Step(w, call).worker.Idle? then Some(Result(0, !Settled(w, call))) else None
  }

  /** What each way of ending hands back. */
  lemma EndsAre(w: World, call: Call)
    requires w.worker.Busy?
    ensures w.worker.pc.Report? && call.outcome.Done? && w.worker.local.name in w.clusters ==>
              Ends(w, call) == Some(Result(30, false))
    ensures w.worker.pc.Report? && !call.outcome.Done? ==> Ends(w, call) == Some(Result(0, true))
    ensures w.worker.pc.Degrade? ==> Ends(w, call) == Some(Result(5, true))
    ensures w.worker.pc.Defaults? && !call.outcome.Done? ==> Ends(w, call) == Some(Result(0, true))
    ensures w.worker.pc.Finalize? && w.worker.local.deleting && FINALIZER !in w.worker.local.finalizers ==>
              Ends(w, call) == Some(Result(0, false))
    ensures w.worker.pc.Finalize? && w.worker.local.deleting && FINALIZER in w.worker.local.finalizers ==>
              Ends(w, call) == Some(Result(0, !(call.outcome.Done? && Current(w, w.worker.local))))
    ensures Ends(w, call).None? ==> Step(w, call).worker.Busy?
  {
  }

  /** The result of the pass in progress. */
  function Verdict(w: World, script: Pc -> Call): Result
    requires w.worker.Busy?
    decreases 20 - Index(w.worker.pc)
  {
    var call := script(w.worker.pc);
    StepAdvances(w, call);
    match Ends(w, call)
    case Some(r) => r
    case None => Verdict(Step(w, call), script)
  }

  lemma {:induction false} VerdictSucceeds(w: World, script: Pc -> Call)
    requires w.worker.Busy?
    ensures Verdict(w, script) == Result(30, false) <==> Succeeds(w, script)
    decreases 20 - Index(w.worker.pc)
  {
    var call := script(w.worker.pc);
    DriveStep(w, script);
    StepAdvances(w, call);
    if w.worker.pc.Degrade? {
      DriveDegrade(w, script);
    } else if !w.worker.pc.Report? && Step(w, call).worker.Busy? {
      VerdictSucceeds(Step(w, call), script);
    }
  }

  /**
   A result of "requeue in 30 seconds, no error" is trustworthy: every child is then at the goal; and
   without failing calls it is what the pass returns exactly when nothing is in the way.
   */
  lemma SuccessResultIsTrue(w: World, snapshot: Cluster, script: Pc -> Call)
    requires Convergence.Ready(w, snapshot, script) && NamesOk(w)
    ensures var r := Verdict(Start(w, snapshot), script);
            && (r == Result(30, false) ==> Converged(Pass(w, snapshot, script).store, Goal(w, snapshot)))
            && (Faultless(script) ==>
                  (r == Result(30, false)
                   <==> !w.clusters[snapshot.name].deleting && Clear(w.store, Goal(w, snapshot))))
  {
    VerdictSucceeds(Start(w, snapshot), script);
    if PassSucceeds(w, snapshot, script) {
      SuccessfulPassConverges(w, snapshot, script);
    }
    if Faultless(script) {
      SucceedsIff(w, snapshot, script);
    }
  }

  datatype Ending = Ending(world: World, result: Result)

  /** How a pass ends, given how it ends from the state after its next call. */
  function Follow(onward: World -> Ending, w: World, script: Pc -> Call): Ending
    requires w.worker.Busy?
  {
    var call := script(w.worker.pc);
    match Ends(w, call)
    case Some(r) => Ending(Step(w, call), r)
    case None => onward(Step(w, call))
  }

  ghost predicate FollowsAt(onward: World -> Ending, w: World, script: Pc -> Call) {
    w.worker.Busy? ==> onward(w) == Follow(onward, w, script)
  }

  /** A function that says how passes end, consistently along every step. */
  ghost predicate Forecast(onward: World -> Ending, script: Pc -> Call) {
    forall w :: FollowsAt(onward, w, script)
  }

  function EndOf(script: Pc -> Call): World -> Ending {
    (w: World) => if w.worker.Busy? then Ending(Drive(w, script), Verdict(w, script)) else Ending(w, Result(0, false))
  }

  lemma EndOfFollows(w: World, script: Pc -> Call)
    requires w.worker.Busy?
    ensures FollowsAt(EndOf(script), w, script)
  {
    DriveStep(w, script);
    match w.worker.pc
    case Report => DriveReport(w, script);
    case Degrade => DriveDegrade(w, script);
    case _ =>
  }

  lemma EndOfForecasts(script: Pc -> Call)
    ensures Forecast(EndOf(script), script)
  {
    forall w ensures FollowsAt(EndOf(script), w, script) {
      if w.worker.Busy? {
        EndOfFollows(w, script);
      }
    }
  }

  // ---- merge patch of the spec ----

  function MergeRole(snapshot: RoleSpec, local: RoleSpec, server: RoleSpec): RoleSpec {
    RoleSpec(StatusFields.Patched(snapshot.replicas, local.replicas, server.replicas),
             StatusFields.Patched(snapshot.servicePort, local.servicePort, server.servicePort),
             StatusFields.Patched(snapshot.podLabels, local.podLabels, server.podLabels))
  }

  /** A merge patch carries exactly the members in which the local copy differs from its snapshot. */
  function MergeSpec(snapshot: Spec, local: Spec, server: Spec): Spec {
    Spec(StatusFields.Patched(snapshot.image, local.image, server.image),
         StatusFields.Patched(snapshot.args, local.args, server.args),
         StatusFields.Patched(snapshot.env, local.env, server.env),
         MergeRole(snapshot.prefill, local.prefill, server.prefill),
         MergeRole(snapshot.decode, local.decode, server.decode),
         StatusFields.Patched(snapshot.strategy, local.strategy, server.strategy),
         StatusFields.Patched(snapshot.numShards, local.numShards, server.numShards),
         StatusFields.Patched(snapshot.evictionPolicy, local.evictionPolicy, server.evictionPolicy),
         StatusFields.Patched(snapshot.warmCache, local.warmCache, server.warmCache),
         StatusFields.Patched(snapshot.mode, local.mode, server.mode),
         StatusFields.Patched(snapshot.hashKey, local.hashKey, server.hashKey),
         StatusFields.Patched(snapshot.routerReplicas, local.routerReplicas, server.routerReplicas),
         StatusFields.Patched(snapshot.autoscaling, local.autoscaling, server.autoscaling))
  }

  /** Defaulting a snapshot and sending the difference sets, on the server, exactly the fields it left open. */
  lemma DefaultsAsMerge(snapshot: Spec, server: Spec)
    ensures MergeSpec(snapshot, PatchDefaults(snapshot, snapshot), server) == PatchDefaults(snapshot, server)
  {
    assert |"sessionAffinity"| > 0 && |"sharded"| > 0 && |"lru"| > 0 && |"none"| > 0;
  }

  /** What the server stores does not depend on what the worker is doing. */
  lemma RespecBeside(w: World, b: Worker, c: Cluster, spec: Spec)
    ensures Respec(w.(worker := b), c, spec) == Respec(w, c, spec).(worker := b)
  {
  }

  lemma WriteStepIs(w: World, call: Call, slot: Slot, ensured: Option<Store>)
    requires w.worker.Busy? && !PortMissing(slot, w.worker.local.spec) && ensured == Ensure(w.store, slot, InputsOf(w))
    ensures WriteStep(w, call, slot)
            == if ensured.None? || !Takes(call.outcome) then Goto(w, Degrade)
               else Goto(Wrote(w, slot, ensured.value), if call.outcome.Lost? then Degrade else After(slot))
  {
  }

  // ---- mutations of the children ----

  /** Copies a label set and adds the role. */
  method CopyLabels(base: Labels, role: string) returns (out: Labels)
    ensures out == RoleLabels(base, role)
  {
    out := map[];
    var rest := base.Keys;
    while rest != {}
      invariant rest <= base.Keys && out.Keys == base.Keys - rest
      invariant forall k :: k in out ==> out[k] == base[k]
      decreases |rest|
    {
      var k :| k in rest;
      out := out[k := base[k]];
      rest := rest - {k};
    }
    assert out == base;
    out := out[ROLE_LABEL := role];
  }

  /** Overwrites the operator's fields of the first container, adding one if there is none. */
  method WorkerContainers(was: seq<Container>, i: Inputs, role: string) returns (containers: seq<Container>)
    ensures containers == PatchWorker(was, i, role)
  {
    containers := was;
    if |containers| == 0 {
      containers := [Container("worker", "", "", [], [], [], "")];
    }
    var c := containers[0];
    c := c.(name := "worker", image := i.spec.image, pullPolicy := "IfNotPresent", args := i.spec.args);
    var env := BuildEnvVars(i.spec.env);
    c := c.(ports := [Port("http", ServicePort(i.spec, role))]);
    env := env + [EnvVar("INFERENCE_ROLE", Literal(role)),
                  EnvVar("SERVICE_NAME", Literal(ChildName(i.cluster, role))),
                  EnvVar("KV_SHARDS", Literal(Itoa(NumShards(i.spec))))];
    c := c.(env := env);
    assert c == PatchWorker(was, i, role)[0];
    containers := containers[0 := c];
  }

  method WorkerDeployment(was: Object, i: Inputs, role: string, slot: Slot) returns (o: Object)
    requires was.Deployment?
    requires (slot.DecodeDeployment? && role == "decode") || (slot.PrefillDeployment? && role == "prefill")
    ensures o == Mutate(slot, was, i)
  {
    SuffixesDiffer();
    var labels := CopyLabels(BaseLabels(i.cluster), role);
    var meta := was.meta.(labels := labels);
    var replicas := 1;
    if role == "decode" && i.spec.decode.replicas.Some? {
      replicas := i.spec.decode.replicas.value;
    }
    if role == "prefill" && i.spec.prefill.replicas.Some? {
      replicas := i.spec.prefill.replicas.value;
    }
    if role == "decode" && i.scaledTo.Some? {
      replicas := i.scaledTo.value;
    }
    o := was.(replicas := replicas, selector := labels, podLabels := labels);
    var containers := WorkerContainers(o.containers, i, role);
    meta := meta.(owner := Some(i.cluster));
    o := o.(containers := containers, meta := meta);
  }

  method SeedMissing(was: map<string, string>) returns (data: map<string, string>)
    ensures data == SeedSignals(was)
  {
    data := was;
    if "queueDepth" !in data {
      data := data["queueDepth" := "0"];
    }
    if "tokensPerSecond" !in data {
      data := data["tokensPerSecond" := "0"];
    }
    if "memPressure" !in data {
      data := data["memPressure" := "0"];
    }
  }

  method RouterContainers(was: seq<Container>, i: Inputs) returns (containers: seq<Container>)
    ensures containers == PatchRouter(was, i)
  {
    containers := was;
    if |containers| == 0 {
      containers := [Container("router", "", "", [], [], [], "")];
    }
    var c := containers[0];
    c := c.(name := "router", image := "llm-inference-router:latest", pullPolicy := "IfNotPresent");
    c := c.(args := ["--shardmap-configmap", ChildName(i.cluster, "shardmap"),
                     "--hash-key", i.spec.hashKey.GetOr("conversationId")]);
    c := c.(ports := [Port("http", 8080), Port("metrics", 9090)]);
    c := c.(env := [EnvVar("NAMESPACE", FieldRef("metadata.namespace")),
                    EnvVar("DECODE_SERVICE_DNS", Literal(ServiceAddress(i, "decode"))),
                    EnvVar("PREFILL_SERVICE_DNS", Literal(ServiceAddress(i, "prefill")))]);
    assert c == PatchRouter(was, i)[0];
    containers := containers[0 := c];
  }

  method RouterDeploymentOf(was: Object, i: Inputs) returns (o: Object)
    requires was.Deployment?
    ensures o == Mutate(RouterDeployment, was, i)
  {
    var labels := CopyLabels(BaseLabels(i.cluster), "router");
    var meta := was.meta.(labels := labels);
    o := was.(selector := labels, podLabels := labels, replicas := i.spec.routerReplicas.GetOr(1));
    o := o.(serviceAccount := ChildName(i.cluster, "router"));
    var containers := RouterContainers(o.containers, i);
    meta := meta.(owner := Some(i.cluster));
    o := o.(containers := containers, meta := meta);
  }

  method ServiceOf(slot: Slot, was: Object, i: Inputs) returns (o: Object)
    requires SlotKind(slot).ServiceKind? && was.Service?
    ensures o == Mutate(slot, was, i)
  {
    var labels := CopyLabels(BaseLabels(i.cluster), Suffix(slot));
    var ports := [Port("http", 8080), Port("metrics", 9090)];
    if !slot.RouterService? {
      ports := [Port("http", ServicePort(i.spec, Suffix(slot)))];
    }
    o := Service(was.meta.(labels := labels, owner := Some(i.cluster)), labels, ports, was.other);
  }

  method ConfigMapOf(slot: Slot, was: Object, i: Inputs) returns (o: Object)
    requires SlotKind(slot).ConfigMapKind? && was.ConfigMap?
    ensures o == Mutate(slot, was, i)
  {
    var labels := CopyLabels(BaseLabels(i.cluster), Suffix(slot));
    var data := was.data;
    if slot.SignalsMap? {
      data := SeedMissing(data);
    } else {
      data := data[MAP_KEY := i.mapText];
    }
    o := ConfigMap(was.meta.(labels := labels, owner := Some(i.cluster)), data);
  }

  method AccessOf(slot: Slot, was: Object, i: Inputs) returns (o: Object)
    requires slot.RouterAccount? || slot.RouterRole? || slot.RouterBinding?
    requires KindOf(was) == SlotKind(slot)
    ensures o == Mutate(slot, was, i)
  {
    var labels := CopyLabels(BaseLabels(i.cluster), "router");
    var meta := was.meta.(labels := labels, owner := Some(i.cluster));
    var name := ChildName(i.cluster, "router");
    match slot
    case RouterAccount => o := ServiceAccount(meta);
    case RouterRole => o := Role(meta, ["configmaps"], ["get", "list", "watch"]);
    case RouterBinding => o := RoleBinding(meta, name, name);
  }

  /** The mutation callback of each child. */
  method MutateChild(slot: Slot, was: Object, i: Inputs) returns (o: Object)
    requires KindOf(was) == SlotKind(slot)
    ensures o == Mutate(slot, was, i)
  {
    match was
    case Service(_, _, _, _) => o := ServiceOf(slot, was, i);
    case ConfigMap(_, _) => o := ConfigMapOf(slot, was, i);
    case Deployment(_, _, _, _, _, _, _) =>
      if slot.DecodeDeployment? {
        o := WorkerDeployment(was, i, "decode", slot);
      } else if slot.PrefillDeployment? {
        o := WorkerDeployment(was, i, "prefill", slot);
      } else {
        o := RouterDeploymentOf(was, i);
      }
    case _ => o := AccessOf(slot, was, i);
  }

  // ---- the pass ----

  class Reconciler {
    const namespace: string
    const strconv: FloatParser
    // what the API server holds
    var clusters: map<string, Cluster>
    var versions: seq<Cluster>
    var store: Store
    var pods: seq<Pod>
    ghost var published: map<string, seq<Publication>>
    // the pass in progress
    var original: Cluster
    var cluster: Cluster
    var scaledTo: Option<int>
    var mapText: string
    ghost var listed: seq<Pod>

    constructor (namespace: string, strconv: FloatParser, blank: Cluster)
      ensures Valid() && Rest() == World(namespace, strconv, map[], [], map[], [], map[], Idle)
    {
      this.namespace, this.strconv := namespace, strconv;
      clusters, versions, store, pods, published := map[], [], map[], [], map[];
      original, cluster, scaledTo, mapText, listed := blank, blank, None, "", [];
    }

    /** The same situation in the transition system: between passes, and before a given call. */
    ghost function Rest(): World
      reads this
    {
      World(namespace, strconv, clusters, versions, store, pods, published, Idle)
    }

    ghost function Before(pc: Pc): World
      reads this
    {
      Rest().(worker := Busy(pc, original, cluster, scaledTo, listed, mapText))
    }

    /** The server validates every spec it stores. */
    ghost predicate Valid()
      reads this
    {
      forall n :: n in clusters ==> ValidSpec(clusters[n].spec)
    }

    ghost function Landed(flow: Flow, pc: Pc): World
      reads this
    {
      match flow
      case Proceed => Before(pc)
      case Fail => Before(Degrade)
      case Abort(_) => Rest()
    }

    /** The pass ends the same way from here as from an earlier state. */
    ghost predicate Leads(from: World, flow: Flow, pc: Pc, onward: World -> Ending)
      reads this
    {
      onward(from) == if flow.Abort? then Ending(Rest(), Result(0, !flow.quiet)) else onward(Landed(flow, pc))
    }

    // ---- single calls ----

    /** Stores a new version of an object. */
    method Put(c: Cluster)
      modifies `clusters, `versions
      ensures Rest() == old(Persist(Rest(), c))
      ensures old(Valid()) && ValidSpec(c.spec) ==> Valid()
    {
      if c.name !in clusters || clusters[c.name] != c {
        var v := c.(version := |versions|);
        clusters, versions := clusters[c.name := v], versions + [v];
      }
    }

    method FillRouting(was: Spec) returns (s: Spec)
      ensures s == was.(mode := FillText(was.mode, "sessionAffinity", was.mode),
                        hashKey := Fill(was.hashKey, "conversationId", was.hashKey),
                        routerReplicas := Fill(was.routerReplicas, 1, was.routerReplicas))
    {
      s := was;
      if s.mode == "" {
        s := s.(mode := "sessionAffinity");
      }
      if s.hashKey.None? {
        s := s.(hashKey := Some("conversationId"));
      }
      if s.routerReplicas.None? {
        s := s.(routerReplicas := Some(1));
      }
    }

    method FillPorts(was: Spec) returns (s: Spec)
      ensures var decode := Fill(was.decode.servicePort, 8000, was.decode.servicePort);
              var prefill := Fill(was.prefill.servicePort, 8001, was.prefill.servicePort);
              s == was.(decode := was.decode.(servicePort := decode), prefill := was.prefill.(servicePort := prefill))
    {
      s := was;
      if s.decode.servicePort.None? {
        s := s.(decode := s.decode.(servicePort := Some(8000)));
      }
      if s.prefill.servicePort.None? {
        s := s.(prefill := s.prefill.(servicePort := Some(8001)));
      }
    }

    method FillCache(was: Spec) returns (s: Spec)
      ensures s == was.(strategy := FillText(was.strategy, "sharded", was.strategy),
                        numShards := Fill(was.numShards, 8, was.numShards),
                        evictionPolicy := FillText(was.evictionPolicy, "lru", was.evictionPolicy),
                        warmCache := FillText(was.warmCache, "none", was.warmCache))
    {
      s := was;
      if s.strategy == "" {
        s := s.(strategy := "sharded");
      }
      if s.numShards.None? {
        s := s.(numShards := Some(8));
      }
      if s.evictionPolicy == "" {
        s := s.(evictionPolicy := "lru");
      }
      if s.warmCache == "" {
        s := s.(warmCache := "none");
      }
    }

    method FillSpec()
      modifies `cluster
      ensures cluster == old(cluster.(spec := PatchDefaults(cluster.spec, cluster.spec)))
    {
      var s := FillRouting(cluster.spec);
      s := FillPorts(s);
      s := FillCache(s);
      cluster := cluster.(spec := s);
    }

    method PutSpec(c: Cluster, spec: Spec)
      requires Valid() && ValidSpec(spec)
      modifies `clusters, `versions
      ensures Valid()
      ensures Rest() == old(Respec(Rest(), c, spec))
    {
      if spec == c.spec {
        Put(c);
      } else {
        Put(c.(spec := spec, generation := c.generation + 1));
      }
    }

    /** What the server makes of the difference between the working copy and its snapshot. */
    method MergedSpec(server: Spec) returns (spec: Spec)
      requires cluster.spec == PatchDefaults(original.spec, original.spec) && ValidSpec(server)
      ensures ValidSpec(spec)
      ensures spec == PatchDefaults(original.spec, server)
    {
      DefaultsAsMerge(original.spec, server);
      DefaultsValid(original.spec, server);
      return MergeSpec(original.spec, cluster.spec, server);
    }

    /** Defaults the working copy and patches the difference to its snapshot into the server's object. */
    method PatchSpec(call: Call) returns (ok: bool)
      requires Valid() && cluster == original
      modifies `cluster, `clusters, `versions
      ensures Valid() && (ok ==> ValidSpec(cluster.spec))
      ensures (if ok then Before(Finalize) else Rest()) == old(DefaultsStep(Before(Defaults), call))
    {
      var name := cluster.name;
      FillSpec();
      if name !in clusters || !Takes(call.outcome) {
        return false;
      }
      var server := clusters[name];
      var spec := MergedSpec(server.spec);
      RespecBeside(Rest(), old(Before(Defaults).worker), server, spec);
      PutSpec(server, spec);
      if call.outcome.Lost? || name !in clusters {
        return false;
      }
      cluster := clusters[name];
      return true;
    }

    /** Releases an object under deletion; otherwise makes sure the finalizer is persisted. */
    method Gate(call: Call) returns (flow: Flow)
      requires Valid() && ValidSpec(cluster.spec)
      modifies `cluster, `clusters, `versions
      ensures Valid()
      ensures Landed(flow, First(cluster.spec)) == old(FinalizeStep(Before(Finalize), call))
      ensures flow == if flow.Proceed? then Proceed else Abort(old(Settled(Before(Finalize), call)))
      ensures flow.Proceed? ==> cluster.spec == old(cluster.spec)
    {
      var held := cluster.name in clusters && clusters[cluster.name].version == cluster.version;
      if cluster.deleting {
        var release := FINALIZER in cluster.finalizers;
        if release && Takes(call.outcome) && held {
          Release();
        }
        return Abort(release ==> call.outcome.Done? && held);
      }
      if FINALIZER !in cluster.finalizers {
        if !Takes(call.outcome) || !held {
          return Abort(false);
        }
        Put(cluster.(finalizers := cluster.finalizers + [FINALIZER]));
        if call.outcome.Lost? || cluster.name !in clusters {
          return Abort(false);
        }
        cluster := clusters[cluster.name];
      }
      return Proceed;
    }

    method Release()
      requires Valid() && ValidSpec(cluster.spec) && cluster.deleting
      modifies `clusters, `versions
      ensures Valid()
      ensures Rest() == old(SetFinalizers(Rest(), cluster, Without(cluster.finalizers, FINALIZER)))
    {
      var finalizers := Without(cluster.finalizers, FINALIZER);
      if |finalizers| == 0 {
        clusters := clusters - {cluster.name};
      } else {
        Put(cluster.(finalizers := finalizers));
      }
    }

    method WriteChild(slot: Slot, call: Call) returns (wrote: bool)
      modifies `store
      ensures var e := old(Ensure(store, slot, Inputs(cluster.name, namespace, cluster.spec, scaledTo, mapText)));
              && (wrote <==> e.Some? && Takes(call.outcome))
              && store == if wrote then e.value else old(store)
    {
      var i := Inputs(cluster.name, namespace, cluster.spec, scaledTo, mapText);
      var key := KeyOf(cluster.name, slot);
      var o := Existing(store, key);
      if o.meta.owner.Some? && o.meta.owner.value != cluster.name {
        return false;
      }
      o := MutateChild(slot, o, i);
      if !Takes(call.outcome) {
        return false;
      }
      store := store[key := o];
      return true;
    }

    /** Create-or-update of one child. */
    method CreateOrUpdate(slot: Slot, call: Call) returns (ok: bool)
      requires !PortMissing(slot, cluster.spec)
      modifies `store, `published
      ensures Before(if ok then After(slot) else Degrade) == old(WriteStep(Before(Write(slot)), call, slot))
    {
      ghost var was := Before(Write(slot));
      WriteStepIs(was, call, slot, Ensure(store, slot, InputsOf(was)));
      var wrote := WriteChild(slot, call);
      if wrote && slot.ShardMapMap? {
        published := Wrote(was, slot, store).published;
      }
      return wrote && call.outcome.Done?;
    }

    method SetCondition(c: StatusFields.Condition)
      modifies `cluster
      ensures var conds := StatusFields.SetCondition(old(cluster.status.conditions), c);
              cluster == old(cluster.(status := cluster.status.(conditions := conds)))
    {
      var conds := cluster.status.conditions;
      conds := StatusFields.SetCondition(conds, c);
      cluster := cluster.(status := cluster.status.(conditions := conds));
    }

    /** Reads the signals and decides the decode count. */
    method Rescale(call: Call) returns (ok: bool)
      requires ValidSpec(cluster.spec)
      modifies `cluster, `scaledTo
      ensures Before(if ok then Write(DecodeService) else Degrade) == old(ScaleStep(Before(Scale), call))
      ensures cluster.spec == old(cluster.spec)
    {
      var key := KeyOf(cluster.name, SignalsMap);
      if cluster.spec.autoscaling.source == "prometheus" || !call.outcome.Done? || key !in store {
        return false;
      }
      var signals := ReadSignals(Existing(store, key).data, strconv);
      var n, scaling := ComputeDecodeReplicas(BoundsOf(cluster.spec), signals.queueDepth);
      scaledTo := Some(n);
      if scaling {
        SetCondition(StatusFields.Condition(StatusFields.SCALING, true, "Autoscaling",
                                            "Autoscaling decode replicas to " + Itoa(n), cluster.generation, call.now));
      } else {
        SetCondition(StatusFields.Condition(StatusFields.SCALING, false, "Stable",
                                            "No autoscaling change required", cluster.generation, call.now));
      }
      return true;
    }

    /** Lists the decode pods and computes the shard map from them. */
    method MapShards(call: Call) returns (ok: bool)
      requires ValidSpec(cluster.spec)
      modifies `cluster, `mapText, `listed
      ensures Before(if ok then Write(ShardMapMap) else Degrade) == old(ListStep(Before(ListPods), call))
      ensures cluster.spec == old(cluster.spec)
      ensures ok ==> |cluster.status.shards| == cluster.spec.numShards.GetOr(8)
    {
      if !call.outcome.Done? {
        return false;
      }
      ShardCountIs(cluster.spec);
      var shards, doc, text := ComputeShardMap(call.listed, ShardCount(cluster.spec), call.now);
      cluster := cluster.(status := cluster.status.(shards := shards));
      mapText, listed := text, call.listed;
      return true;
    }

    /** Completes the status and patches it. */
    method ReportSuccess(call: Call) returns (ok: bool)
      requires Valid()
      modifies `cluster, `clusters, `versions
      ensures Valid()
      ensures Rest() == old(ReportStep(Before(Report), call))
      ensures ok <==> call.outcome.Done? && old(cluster.name in clusters)
    {
      var i := Inputs(cluster.name, namespace, cluster.spec, scaledTo, mapText);
      var status := cluster.status.(observedGeneration := cluster.generation, endpoints := EndpointsOf(i));
      cluster := cluster.(status := status);
      SetCondition(StatusFields.Condition(StatusFields.READY, true, "Reconciled", "Resources are reconciled",
                                          cluster.generation, call.now));
      SetCondition(StatusFields.Condition(StatusFields.DEGRADED, false, "Healthy", "No reconciliation errors",
                                          cluster.generation, call.now));
      assert cluster.status == old(Reported(Before(Report), call.now));
      if cluster.name !in clusters || !Takes(call.outcome) {
        return false;
      }
      var server := clusters[cluster.name];
      Put(server.(status := StatusFields.PatchStatus(original.status, cluster.status, server.status)));
      return call.outcome.Done?;
    }

    /** Marks the object degraded; the result of the status write is ignored. */
    method RequeueDegraded(call: Call)
      requires Valid()
      modifies `cluster, `clusters, `versions
      ensures Valid()
      ensures Rest() == old(DegradeStep(Before(Degrade), call))
    {
      SetCondition(StatusFields.Condition(StatusFields.READY, false, "Error", call.message,
                                          cluster.generation, call.now));
      SetCondition(StatusFields.Condition(StatusFields.DEGRADED, true, "ReconcileError", call.message,
                                          cluster.generation, call.now));
      assert cluster.status == old(Failed(Before(Degrade), call));
      if Takes(call.outcome) && cluster.name in clusters && clusters[cluster.name].version == cluster.version {
        Put(clusters[cluster.name].(status := cluster.status));
      }
    }

    // ---- the sequence ----

    /** Dereferencing an absent port ends the pass at once. */
    method Child(slot: Slot, script: Pc -> Call, ghost onward: World -> Ending) returns (flow: Flow)
      requires Forecast(onward, script)
      modifies `store, `published
      ensures Leads(old(Before(Write(slot))), flow, After(slot), onward)
    {
      assert FollowsAt(onward, Before(Write(slot)), script);
      if PortMissing(slot, cluster.spec) {
        return Abort(false);
      }
      var ok := CreateOrUpdate(slot, script(Write(slot)));
      return if ok then Proceed else Fail;
    }

    /** Two children written one after the other. */
    method Children(first: Slot, second: Slot, script: Pc -> Call, ghost onward: World -> Ending) returns (flow: Flow)
      requires Forecast(onward, script) && After(first) == Write(second)
      modifies `store, `published
      ensures Leads(old(Before(Write(first))), flow, After(second), onward)
    {
      flow := Child(first, script, onward);
      if flow.Proceed? {
        flow := Child(second, script, onward);
      }
    }

    method Enter(script: Pc -> Call, ghost onward: World -> Ending) returns (flow: Flow)
      requires Forecast(onward, script) && Valid() && cluster == original
      modifies `cluster, `clusters, `versions
      ensures Leads(old(Before(Defaults)), flow, First(cluster.spec), onward) && !flow.Fail?
      ensures Valid() && (flow.Proceed? ==> ValidSpec(cluster.spec))
    {
      assert FollowsAt(onward, Before(Defaults), script);
      var ok := PatchSpec(script(Defaults));
      if !ok {
        return Abort(false);
      }
      assert FollowsAt(onward, Before(Finalize), script);
      flow := Gate(script(Finalize));
    }

    method Scaling(script: Pc -> Call, ghost onward: World -> Ending) returns (flow: Flow)
      requires Forecast(onward, script) && ValidSpec(cluster.spec)
      modifies `store, `published, `cluster, `scaledTo
      ensures Leads(old(Before(Write(SignalsMap))), flow, Write(DecodeService), onward)
      ensures cluster.spec == old(cluster.spec)
    {
      flow := Child(SignalsMap, script, onward);
      if flow.Proceed? {
        flow := Decide(script, onward);
      }
    }

    method Decide(script: Pc -> Call, ghost onward: World -> Ending) returns (flow: Flow)
      requires Forecast(onward, script) && ValidSpec(cluster.spec)
      modifies `cluster, `scaledTo
      ensures Leads(old(Before(Scale)), flow, Write(DecodeService), onward)
      ensures cluster.spec == old(cluster.spec)
    {
      assert FollowsAt(onward, Before(Scale), script);
      var ok := Rescale(script(Scale));
      return if ok then Proceed else Fail;
    }

    method Services(script: Pc -> Call, ghost onward: World -> Ending) returns (flow: Flow)
      requires Forecast(onward, script)
      modifies `store, `published
      ensures Leads(old(Before(Write(DecodeService))), flow, Write(RouterAccount), onward)
    {
      flow := Children(DecodeService, PrefillService, script, onward);
      if flow.Proceed? {
        flow := Child(RouterService, script, onward);
      }
    }

    method RouterAccess(script: Pc -> Call, ghost onward: World -> Ending) returns (flow: Flow)
      requires Forecast(onward, script)
      modifies `store, `published
      ensures Leads(old(Before(Write(RouterAccount))), flow, Write(DecodeDeployment), onward)
    {
      flow := Children(RouterAccount, RouterRole, script, onward);
      if flow.Proceed? {
        flow := Child(RouterBinding, script, onward);
      }
    }

    method Deployments(script: Pc -> Call, ghost onward: World -> Ending) returns (flow: Flow)
      requires Forecast(onward, script)
      modifies `store, `published
      ensures Leads(old(Before(Write(DecodeDeployment))), flow, ListPods, onward)
    {
      flow := Children(DecodeDeployment, PrefillDeployment, script, onward);
      if flow.Proceed? {
        flow := Child(RouterDeployment, script, onward);
      }
    }

    method ListShards(script: Pc -> Call, ghost onward: World -> Ending) returns (flow: Flow)
      requires Forecast(onward, script) && ValidSpec(cluster.spec)
      modifies `cluster, `mapText, `listed
      ensures Leads(old(Before(ListPods)), flow, Write(ShardMapMap), onward)
    {
      assert FollowsAt(onward, Before(ListPods), script);
      var ok := MapShards(script(ListPods));
      return if ok then Proceed else Fail;
    }

    method PublishShards(script: Pc -> Call, ghost onward: World -> Ending) returns (flow: Flow)
      requires Forecast(onward, script) && ValidSpec(cluster.spec)
      modifies `store, `published, `cluster, `mapText, `listed
      ensures Leads(old(Before(ListPods)), flow, Report, onward)
    {
      flow := ListShards(script, onward);
      if flow.Proceed? {
        flow := Child(ShardMapMap, script, onward);
      }
    }

    method WriteChildren(script: Pc -> Call, ghost onward: World -> Ending) returns (flow: Flow)
      requires Forecast(onward, script) && ValidSpec(cluster.spec)
      modifies `store, `published, `cluster, `mapText, `listed
      ensures Leads(old(Before(Write(DecodeService))), flow, Report, onward)
    {
      flow := Services(script, onward);
      if flow.Proceed? {
        flow := RouterAccess(script, onward);
      }
      if flow.Proceed? {
        flow := Deployments(script, onward);
      }
      if flow.Proceed? {
        flow := PublishShards(script, onward);
      }
    }

    method Sync(script: Pc -> Call, ghost onward: World -> Ending) returns (flow: Flow)
      requires Forecast(onward, script) && ValidSpec(cluster.spec)
      modifies `store, `published, `cluster, `mapText, `listed, `scaledTo
      ensures Leads(old(Before(First(cluster.spec))), flow, Report, onward)
    {
      flow := Proceed;
      if Scales(cluster.spec) {
        flow := Scaling(script, onward);
      }
      if flow.Proceed? {
        flow := WriteChildren(script, onward);
      }
    }

    method Finish(flow: Flow, script: Pc -> Call, ghost onward: World -> Ending) returns (r: Result)
      requires Forecast(onward, script) && Valid()
      modifies `cluster, `clusters, `versions
      ensures Valid()
      ensures Ending(Rest(), r)
              == old(if flow.Abort? then Ending(Rest(), Result(0, !flow.quiet)) else onward(Landed(flow, Report)))
    {
      match flow
      case Abort(quiet) => return Result(0, !quiet);
      case Fail =>
        assert FollowsAt(onward, Before(Degrade), script);
        RequeueDegraded(script(Degrade));
        return Result(5, true);
      case Proceed =>
        assert FollowsAt(onward, Before(Report), script);
        var ok := ReportSuccess(script(Report));
        return if ok then Result(30, false) else Result(0, true);
    }

    method Perform(script: Pc -> Call, ghost onward: World -> Ending) returns (r: Result)
      requires Forecast(onward, script) && Valid() && cluster == original
      modifies this
      ensures Valid()
      ensures Ending(Rest(), r) == old(onward(Before(Defaults)))
    {
      var flow := Enter(script, onward);
      if flow.Proceed? {
        flow := Sync(script, onward);
      }
      r := Finish(flow, script, onward);
    }

    /**
     One pass. Nobody else acts meanwhile; every call goes as the script says. It leaves the server
     in the state the transition system ends in, and hands back the matching result.
     */
    method Reconcile(got: Got, script: Pc -> Call) returns (r: Result)
      requires Valid()
      modifies this
      ensures Valid()
      ensures got.Found? ==> Rest() == old(Drive(Start(Rest(), got.c), script))
      ensures got.Found? ==> r == old(Verdict(Start(Rest(), got.c), script))
      ensures !got.Found? ==> Rest() == old(Rest()) && r == Result(0, got.Unreachable?)
    {
      if !got.Found? {
        return Result(0, got.Unreachable?);
      }
      original, cluster, scaledTo, mapText, listed := got.c, got.c, None, "", [];
      EndOfForecasts(script);
      assert Before(Defaults) == old(Start(Rest(), got.c));
      r := Perform(script, EndOf(script));
    }
  }
}
