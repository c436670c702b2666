/**
 When a persisted status may claim to have seen a generation: never one later than its object's,
 except where a pass reports on an object that was deleted and created again under its name.
 */
module Generations {
  import opened Control
  import opened ControlInv
  import opened Objects
  import opened StatusFields

  /** No persisted status has seen a generation later than its object's. */
  ghost predicate SeenLog(w: World) {
    forall k :: 0 <= k < |w.versions| ==> SeenUpTo(w.versions[k].status, w.versions[k].generation)
  }

  ghost predicate SeenLocal(w: World) {
    w.worker.Busy? ==> SeenUpTo(w.worker.local.status, w.worker.local.generation)
  }

  /** The report changes neither the observed generation nor any condition of its snapshot. */
  predicate SaysNothingNew(w: World, now: int)
    requires w.worker.Busy?
  {
    var snapshot, reported := w.worker.snapshot.status, Reported(w, now);
    reported.observedGeneration == snapshot.observedGeneration && reported.conditions == snapshot.conditions
  }

  /** A report that takes effect is on an object at least as old as the one the pass read, or says nothing new. */
  predicate ReportFits(w: World, a: Action) {
    a.Op? && w.worker.Busy? && w.worker.pc.Report? && Takes(a.call.outcome) && w.worker.local.name in w.clusters ==>
      || w.worker.local.generation <= w.clusters[w.worker.local.name].generation
      || SaysNothingNew(w, a.call.now)
  }

  // ---- the report ----

  lemma ReportedSeen(w: World, now: int, age: int)
    requires w.worker.Busy? && SeenLocal(w)
    ensures SeenUpTo(Reported(w, now), w.worker.local.generation)
    ensures (exists i :: 0 <= i < |Reported(w, now).conditions|
                         && Reported(w, now).conditions[i].observedGeneration > age)
            <==> w.worker.local.generation > age
  {
    var local := w.worker.local;
    var s := local.status.(observedGeneration := local.generation, endpoints := EndpointsOf(InputsOf(w)));
    OutcomeSeen(s, true, ("Reconciled", "Healthy"), ("Resources are reconciled", "No reconciliation errors"),
                local.generation, now, age);
  }

  function Merged(w: World, now: int): Status
    requires w.worker.Busy? && w.worker.local.name in w.clusters
  {
    PatchStatus(w.worker.snapshot.status, Reported(w, now), w.clusters[w.worker.local.name].status)
  }

  /** The exact condition at the one write that can break the generation clause. */
  lemma MergedSeenIff(w: World, now: int)
    requires w.worker.Busy? && w.worker.local.name in w.clusters && SeenLocal(w)
    requires var server := w.clusters[w.worker.local.name]; SeenUpTo(server.status, server.generation)
    ensures SeenUpTo(Merged(w, now), w.clusters[w.worker.local.name].generation)
            <==> w.worker.local.generation <= w.clusters[w.worker.local.name].generation || SaysNothingNew(w, now)
  {
    var age := w.clusters[w.worker.local.name].generation;
    ReportedSeen(w, now, age);
    assert Reported(w, now).observedGeneration == w.worker.local.generation;
    if w.worker.local.generation > age && Reported(w, now).conditions != w.worker.snapshot.status.conditions {
      assert Merged(w, now).conditions == Reported(w, now).conditions;
    }
  }

  // ---- every step ----

  lemma PersistSeen(w: World, c: Cluster)
    requires SeenLog(w)
    ensures SeenUpTo(c.status, c.generation) ==> SeenLog(Persist(w, c))
    ensures !SeenUpTo(c.status, c.generation) && !(c.name in w.clusters && w.clusters[c.name] == c) ==>
              !SeenLog(Persist(w, c))
  {
    var v := Persist(w, c);
    if !SeenUpTo(c.status, c.generation) && !(c.name in w.clusters && w.clusters[c.name] == c) {
      assert v.versions[|w.versions|] == c.(version := |w.versions|);
    }
  }

  lemma ServerSeen(w: World, name: string)
    requires Inv(w) && SeenLog(w) && name in w.clusters
    ensures SeenUpTo(w.clusters[name].status, w.clusters[name].generation)
  {
    ServerFacts(w, name);
    assert w.versions[w.clusters[name].version] == w.clusters[name];
  }

  lemma RespecSeen(w: World, name: string, spec: Spec)
    requires Inv(w) && SeenLog(w) && name in w.clusters
    ensures SeenLog(Respec(w, w.clusters[name], spec))
  {
    var c := w.clusters[name];
    ServerSeen(w, name);
    PersistSeen(w, if spec == c.spec then c else c.(spec := spec, generation := c.generation + 1));
  }

  lemma RefreshedSeen(v: World, name: string)
    requires Inv(v) && SeenLog(v) && name in v.clusters && v.worker.Busy? && v.worker.local == v.clusters[name]
    ensures SeenLocal(v)
  {
    ServerSeen(v, name);
  }

  lemma DefaultsSeen(w: World, call: Call)
    requires Inv(w) && w.worker.Busy? && w.worker.pc.Defaults? && SeenLog(w)
    ensures SeenLog(DefaultsStep(w, call)) && SeenLocal(DefaultsStep(w, call))
  {
    var name := w.worker.local.name;
    var v := DefaultsStep(w, call);
    if name in w.clusters && Takes(call.outcome) {
      var u := Respec(w, w.clusters[name], PatchDefaults(w.worker.snapshot.spec, w.clusters[name].spec));
      RespecSeen(w, name, PatchDefaults(w.worker.snapshot.spec, w.clusters[name].spec));
      assert v.versions == u.versions && v.clusters == u.clusters;
      if v.worker.Busy? {
        DefaultsInv(w, call);
        RefreshedSeen(v, name);
      }
    } else {
      assert v == Stop(w);
    }
  }

  lemma FinalizeLog(w: World, call: Call)
    requires w.worker.Busy?
    ensures var local, v := w.worker.local, FinalizeStep(w, call);
            || v.versions == w.versions
            || v.versions == Persist(w, local.(finalizers := Without(local.finalizers, FINALIZER))).versions
            || v.versions == Persist(w, local.(finalizers := local.finalizers + [FINALIZER])).versions
  {
  }

  lemma FinalizeLocal(w: World, call: Call)
    requires w.worker.Busy? && SeenLocal(w)
    ensures SeenLocal(FinalizeStep(w, call))
  {
  }

  lemma FinalizeSeen(w: World, call: Call)
    requires w.worker.Busy? && SeenLog(w) && SeenLocal(w)
    ensures SeenLog(FinalizeStep(w, call)) && SeenLocal(FinalizeStep(w, call))
  {
    var local := w.worker.local;
    FinalizeLog(w, call);
    FinalizeLocal(w, call);
    PersistSeen(w, local.(finalizers := Without(local.finalizers, FINALIZER)));
    PersistSeen(w, local.(finalizers := local.finalizers + [FINALIZER]));
  }

  lemma ScaleSeen(w: World, call: Call)
    requires w.worker.Busy? && SeenLog(w) && SeenLocal(w)
    ensures SeenLog(ScaleStep(w, call)) && SeenLocal(ScaleStep(w, call))
  {
    var local, v := w.worker.local, ScaleStep(w, call);
    if v.worker.pc.Write? {
      var bounds := BoundsOf(local.spec);
      SetKeepsSeen(local.status, ScalingCondition(v.worker.scaledTo.value, bounds, local.generation, call.now),
                   local.generation);
    }
  }

  lemma ReportIs(w: World, call: Call)
    requires w.worker.Busy? && w.worker.local.name in w.clusters && Takes(call.outcome)
    ensures var c := w.clusters[w.worker.local.name].(status := Merged(w, call.now));
            ReportStep(w, call) == Stop(Persist(w, c))
  {
  }

  lemma StopSeen(w: World)
    ensures SeenLog(Stop(w)) <==> SeenLog(w)
  {
  }

  lemma MergedPersists(w: World, now: int)
    requires Inv(w) && w.worker.Busy? && w.worker.local.name in w.clusters && SeenLog(w) && SeenLocal(w)
    ensures var name := w.worker.local.name;
            SeenLog(Persist(w, w.clusters[name].(status := Merged(w, now))))
            <==> w.worker.local.generation <= w.clusters[name].generation || SaysNothingNew(w, now)
  {
    var name := w.worker.local.name;
    ServerSeen(w, name);
    ServerFacts(w, name);
    MergedSeenIff(w, now);
    PersistSeen(w, w.clusters[name].(status := Merged(w, now)));
  }

  lemma ReportSeenIff(w: World, call: Call)
    requires Inv(w) && w.worker.Busy? && w.worker.pc.Report? && SeenLog(w) && SeenLocal(w)
    ensures SeenLog(ReportStep(w, call)) <==> ReportFits(w, Op(call))
  {
    var name := w.worker.local.name;
    if name in w.clusters && Takes(call.outcome) {
      ReportIs(w, call);
      MergedPersists(w, call.now);
      StopSeen(Persist(w, w.clusters[name].(status := Merged(w, call.now))));
    } else {
      StopSeen(w);
    }
  }

  lemma FailedSeen(w: World, call: Call)
    requires w.worker.Busy? && SeenLocal(w)
    ensures SeenUpTo(Failed(w, call), w.worker.local.generation)
  {
    var local := w.worker.local;
    OutcomeSeen(local.status, false, ("Error", "ReconcileError"), (call.message, call.message),
                local.generation, call.now, local.generation);
  }

  lemma DegradeSeen(w: World, call: Call)
    requires Inv(w) && w.worker.Busy? && w.worker.pc.Degrade? && SeenLog(w) && SeenLocal(w)
    ensures SeenLog(DegradeStep(w, call))
  {
    var local := w.worker.local;
    if Takes(call.outcome) && Current(w, local) {
      ServerFacts(w, local.name);
      FailedSeen(w, call);
      PersistSeen(w, w.clusters[local.name].(status := Failed(w, call)));
    }
  }

  lemma QuietSeen(w: World, call: Call)
    requires w.worker.Busy? && (w.worker.pc.Write? || w.worker.pc.ListPods?) && SeenLog(w) && SeenLocal(w)
    ensures SeenLog(Step(w, call)) && SeenLocal(Step(w, call))
  {
    if w.worker.pc.Write? {
      var v := WriteStep(w, call, w.worker.pc.slot);
      assert v.versions == w.versions && (v.worker.Busy? ==> v.worker.local == w.worker.local);
    } else {
      var v := ListStep(w, call);
      assert v.versions == w.versions;
      assert v.worker.local.status == w.worker.local.status.(shards := v.worker.local.status.shards);
    }
  }

  lemma StepSeenIff(w: World, call: Call)
    requires Inv(w) && w.worker.Busy? && SeenLog(w) && SeenLocal(w)
    ensures SeenLog(Step(w, call)) <==> ReportFits(w, Op(call))
    ensures SeenLocal(Step(w, call))
  {
    match w.worker.pc
    case Defaults => DefaultsSeen(w, call);
    case Finalize => FinalizeSeen(w, call);
    case Scale => ScaleSeen(w, call);
    case Report => ReportSeenIff(w, call);
    case Degrade => DegradeSeen(w, call);
    case _ => QuietSeen(w, call);
  }

  lemma SameSeen(w: World, v: World)
    requires SeenLog(w) && SeenLocal(w) && v.versions == w.versions && v.worker == w.worker
    ensures SeenLog(v) && SeenLocal(v)
  {
  }

  /** What users and other controllers do to a cluster object is one of these. */
  lemma ObjectSeen(w: World, c: Cluster)
    requires SeenLog(w) && SeenLocal(w) && SeenUpTo(c.status, c.generation)
    ensures SeenLog(Persist(w, c)) && SeenLocal(Persist(w, c))
  {
    PersistSeen(w, c);
  }

  lemma DeleteSeen(w: World, name: string)
    requires Inv(w) && SeenLog(w) && SeenLocal(w) && name in w.clusters
    ensures var v := DeleteCluster(w, w.clusters[name]); SeenLog(v) && SeenLocal(v)
  {
    var c := w.clusters[name];
    ServerSeen(w, name);
    if |c.finalizers| == 0 {
      SameSeen(w, w.(clusters := w.clusters - {c.name}));
    } else {
      ObjectSeen(w, if c.deleting then c else c.(deleting := true, generation := c.generation + 1));
    }
  }

  lemma EditFinalizersSeen(w: World, name: string, finalizers: seq<string>)
    requires Inv(w) && SeenLog(w) && SeenLocal(w) && name in w.clusters
    ensures var v := SetFinalizers(w, w.clusters[name], finalizers); SeenLog(v) && SeenLocal(v)
  {
    var c := w.clusters[name];
    ServerSeen(w, name);
    if c.deleting && |finalizers| == 0 {
      SameSeen(w, w.(clusters := w.clusters - {c.name}));
    } else {
      ObjectSeen(w, c.(finalizers := finalizers));
    }
  }

  lemma OthersSeen(w: World, a: Action)
    requires Inv(w) && Enabled(w, a) && !a.Op? && SeenLog(w) && SeenLocal(w)
    ensures SeenLog(Apply(w, a)) && SeenLocal(Apply(w, a))
  {
    match a
    case Begin(_) =>
    case Create(name, spec) => ObjectSeen(w, Cluster(name, 1, 0, false, [], spec, EMPTY_STATUS));
    case EditSpec(name, spec) => RespecSeen(w, name, spec);
    case EditFinalizers(name, finalizers) => EditFinalizersSeen(w, name, finalizers);
    case Delete(name) => DeleteSeen(w, name);
    case SetPods(pods) => SameSeen(w, w.(pods := pods));
    case EditStore(store) => SameSeen(w, w.(store := store));
  }

  lemma PersistGrows(w: World, c: Cluster)
    ensures w.versions <= Persist(w, c).versions
  {
  }

  lemma DefaultsGrows(w: World, call: Call)
    requires w.worker.Busy?
    ensures w.versions <= DefaultsStep(w, call).versions
  {
    var name := w.worker.local.name;
    if name in w.clusters {
      var c, spec := w.clusters[name], PatchDefaults(w.worker.snapshot.spec, w.clusters[name].spec);
      PersistGrows(w, if spec == c.spec then c else c.(spec := spec, generation := c.generation + 1));
    }
  }

  lemma FinalizeGrows(w: World, call: Call)
    requires w.worker.Busy?
    ensures w.versions <= FinalizeStep(w, call).versions
  {
    var local := w.worker.local;
    PersistGrows(w, local.(finalizers := Without(local.finalizers, FINALIZER)));
    PersistGrows(w, local.(finalizers := local.finalizers + [FINALIZER]));
  }

  lemma ExitGrows(w: World, call: Call)
    requires w.worker.Busy?
    ensures w.versions <= ReportStep(w, call).versions && w.versions <= DegradeStep(w, call).versions
  {
    var name := w.worker.local.name;
    if name in w.clusters {
      PersistGrows(w, w.clusters[name].(status := Merged(w, call.now)));
      PersistGrows(w, w.clusters[name].(status := Failed(w, call)));
    }
  }

  lemma StepLogGrows(w: World, call: Call)
    requires w.worker.Busy?
    ensures w.versions <= Step(w, call).versions
  {
    match w.worker.pc
    case Defaults => DefaultsGrows(w, call);
    case Finalize => FinalizeGrows(w, call);
    case Report => ExitGrows(w, call);
    case Degrade => ExitGrows(w, call);
    case _ => MiddleSame(w, call);
  }

  lemma LogGrows(w: World, a: Action)
    requires Enabled(w, a)
    ensures w.versions <= Apply(w, a).versions
  {
    if a.Op? {
      StepLogGrows(w, a.call);
    }
  }

  lemma ApplySeenIff(w: World, a: Action)
    requires Inv(w) && Enabled(w, a) && SeenLog(w) && SeenLocal(w)
    ensures SeenLog(Apply(w, a)) <==> ReportFits(w, a)
    ensures SeenLocal(Apply(w, a))
  {
    if a.Op? {
      StepSeenIff(w, a.call);
    } else {
      OthersSeen(w, a);
    }
  }

  /** A log that is sound was sound before. */
  lemma SeenBefore(w: World, a: Action)
    requires Enabled(w, a) && SeenLog(Apply(w, a))
    ensures SeenLog(w)
  {
    var v := Apply(w, a);
    LogGrows(w, a);
    forall k | 0 <= k < |w.versions| ensures SeenUpTo(w.versions[k].status, w.versions[k].generation) {
      assert w.versions[k] == v.versions[k];
    }
  }

  // ---- runs ----

  ghost predicate AllFit(worlds: seq<World>, actions: seq<Action>, i: nat)
    requires i <= |actions| <= |worlds|
  {
    forall j :: 0 <= j < i ==> ReportFits(worlds[j], actions[j])
  }

  /**
   In every run, up to every moment: all persisted statuses observe no generation later than their
   object's exactly if every report that took effect fitted the object it was written to.
   */
  lemma {:induction false} GenerationsIff(worlds: seq<World>, actions: seq<Action>, i: nat)
    requires Run(worlds, actions) && i < |worlds|
    ensures SeenLog(worlds[i]) <==> AllFit(worlds, actions, i)
    ensures SeenLog(worlds[i]) ==> SeenLocal(worlds[i])
  {
    if i > 0 {
      var w, a := worlds[i - 1], actions[i - 1];
      GenerationsIff(worlds, actions, i - 1);
      InvAlongRun(worlds, actions, i - 1);
      if SeenLog(w) {
        ApplySeenIff(w, a);
      } else if SeenLog(worlds[i]) {
        SeenBefore(w, a);
      }
    }
  }

  // ---- names that are not used twice ----

  /** An object is at least as old as every version persisted under its name. */
  ghost predicate AgesOk(w: World) {
    forall i :: 0 <= i < |w.versions| && w.versions[i].name in w.clusters ==>
                  w.versions[i].generation <= w.clusters[w.versions[i].name].generation
  }

  ghost predicate Fresh(w: World, name: string) {
    forall i :: 0 <= i < |w.versions| ==> w.versions[i].name != name
  }

  lemma PersistAges(w: World, c: Cluster)
    requires AgesOk(w)
    requires (c.name in w.clusters && c.generation >= w.clusters[c.name].generation) || Fresh(w, c.name)
    ensures AgesOk(Persist(w, c))
  {
    var v := Persist(w, c);
    forall i | 0 <= i < |v.versions| && v.versions[i].name in v.clusters
      ensures v.versions[i].generation <= v.clusters[v.versions[i].name].generation
    {
      if i < |w.versions| {
        assert v.versions[i] == w.versions[i];
      }
    }
  }

  lemma RemoveAges(w: World, name: string)
    requires AgesOk(w)
    ensures AgesOk(w.(clusters := w.clusters - {name}))
  {
  }

  lemma SameAges(w: World, v: World)
    requires AgesOk(w) && v.clusters == w.clusters && v.versions == w.versions
    ensures AgesOk(v)
  {
  }

  lemma RespecAges(w: World, name: string, spec: Spec)
    requires AgesOk(w) && name in w.clusters && w.clusters[name].name == name
    ensures AgesOk(Respec(w, w.clusters[name], spec))
  {
    var c := w.clusters[name];
    PersistAges(w, if spec == c.spec then c else c.(spec := spec, generation := c.generation + 1));
  }

  lemma DefaultsAges(w: World, call: Call)
    requires Inv(w) && w.worker.Busy? && AgesOk(w)
    ensures AgesOk(DefaultsStep(w, call))
  {
    var name, v := w.worker.local.name, DefaultsStep(w, call);
    if name in w.clusters && Takes(call.outcome) {
      var spec := PatchDefaults(w.worker.snapshot.spec, w.clusters[name].spec);
      ServerFacts(w, name);
      RespecAges(w, name, spec);
      SameAges(Respec(w, w.clusters[name], spec), v);
    } else {
      SameAges(w, v);
    }
  }

  lemma ReleaseAges(w: World, c: Cluster, finalizers: seq<string>)
    requires AgesOk(w) && c.name in w.clusters && w.clusters[c.name] == c
    ensures AgesOk(SetFinalizers(w, c, finalizers))
  {
    RemoveAges(w, c.name);
    PersistAges(w, c.(finalizers := finalizers));
  }

  lemma FinalizeAges(w: World, call: Call)
    requires Inv(w) && w.worker.Busy? && w.worker.pc.Finalize? && AgesOk(w)
    ensures AgesOk(FinalizeStep(w, call))
  {
    var local, v := w.worker.local, FinalizeStep(w, call);
    if v.versions == w.versions && v.clusters == w.clusters {
      SameAges(w, v);
    } else {
      HeldIsCurrent(w, local);
      if local.deleting {
        ReleaseAges(w, local, Without(local.finalizers, FINALIZER));
        SameAges(SetFinalizers(w, local, Without(local.finalizers, FINALIZER)), v);
      } else {
        var c := local.(finalizers := local.finalizers + [FINALIZER]);
        PersistAges(w, c);
        SameAges(Persist(w, c), v);
      }
    }
  }

  lemma StatusAges(w: World, name: string, status: Status)
    requires Inv(w) && AgesOk(w) && name in w.clusters
    ensures AgesOk(Stop(Persist(w, w.clusters[name].(status := status))))
  {
    ServerFacts(w, name);
    var c := w.clusters[name].(status := status);
    PersistAges(w, c);
    SameAges(Persist(w, c), Stop(Persist(w, c)));
  }

  lemma ExitAges(w: World, call: Call)
    requires Inv(w) && w.worker.Busy? && AgesOk(w)
    ensures AgesOk(ReportStep(w, call)) && AgesOk(DegradeStep(w, call))
  {
    var name := w.worker.local.name;
    SameAges(w, Stop(w));
    if name in w.clusters {
      StatusAges(w, name, Merged(w, call.now));
      StatusAges(w, name, Failed(w, call));
    }
  }

  lemma StepAges(w: World, call: Call)
    requires Inv(w) && w.worker.Busy? && AgesOk(w)
    ensures AgesOk(Step(w, call))
  {
    match w.worker.pc
    case Report => ExitAges(w, call);
    case Degrade => ExitAges(w, call);
    case Defaults => DefaultsAges(w, call);
    case Finalize => FinalizeAges(w, call);
    case _ =>
      MiddleSame(w, call);
      SameAges(w, Step(w, call));
  }

  lemma DeleteAges(w: World, name: string)
    requires AgesOk(w) && name in w.clusters && w.clusters[name].name == name
    ensures AgesOk(DeleteCluster(w, w.clusters[name]))
  {
    var c := w.clusters[name];
    if |c.finalizers| == 0 {
      RemoveAges(w, name);
    } else {
      PersistAges(w, if c.deleting then c else c.(deleting := true, generation := c.generation + 1));
    }
  }

  lemma OthersAges(w: World, a: Action)
    requires Inv(w) && Enabled(w, a) && !a.Op? && AgesOk(w) && (a.Create? ==> Fresh(w, a.name))
    ensures AgesOk(Apply(w, a))
  {
    match a
    case Create(name, spec) => PersistAges(w, Cluster(name, 1, 0, false, [], spec, EMPTY_STATUS));
    case EditSpec(name, spec) =>
      ServerFacts(w, name);
      RespecAges(w, name, spec);
    case EditFinalizers(name, finalizers) =>
      ServerFacts(w, name);
      ReleaseAges(w, w.clusters[name], finalizers);
    case Delete(name) =>
      ServerFacts(w, name);
      DeleteAges(w, name);
    case Begin(k) => SameAges(w, Start(w, w.versions[k]));
    case SetPods(pods) => SameAges(w, w.(pods := pods));
    case EditStore(store) => SameAges(w, w.(store := store));
  }

  lemma AgesFit(w: World, a: Action)
    requires Inv(w) && AgesOk(w)
    ensures ReportFits(w, a)
  {
    if w.worker.Busy? && w.worker.local.name in w.clusters {
      assert w.versions[w.worker.local.version].name == w.worker.local.name;
    }
  }

  ghost predicate FreshNames(worlds: seq<World>, actions: seq<Action>)
    requires |worlds| == |actions| + 1
  {
    forall j :: 0 <= j < |actions| && actions[j].Create? ==> Fresh(worlds[j], actions[j].name)
  }

  lemma ApplyAges(w: World, a: Action)
    requires Inv(w) && Enabled(w, a) && AgesOk(w) && (a.Create? ==> Fresh(w, a.name))
    ensures AgesOk(Apply(w, a))
  {
    if a.Op? {
      StepAges(w, a.call);
    } else {
      OthersAges(w, a);
    }
  }

  lemma {:induction false} AgesAlongRun(worlds: seq<World>, actions: seq<Action>, i: nat)
    requires Run(worlds, actions) && FreshNames(worlds, actions) && i < |worlds|
    ensures AgesOk(worlds[i])
  {
    if i > 0 {
      var w, a := worlds[i - 1], actions[i - 1];
      AgesAlongRun(worlds, actions, i - 1);
      InvAlongRun(worlds, actions, i - 1);
      ApplyAges(w, a);
    }
  }

  /** Where no cluster is created under a name used before, no status is ever ahead of its object. */
  lemma FreshNamesSeen(worlds: seq<World>, actions: seq<Action>, i: nat)
    requires Run(worlds, actions) && FreshNames(worlds, actions) && i < |worlds|
    ensures SeenLog(worlds[i])
  {
    forall j | 0 <= j < i ensures ReportFits(worlds[j], actions[j]) {
      AgesAlongRun(worlds, actions, j);
      InvAlongRun(worlds, actions, j);
      AgesFit(worlds[j], actions[j]);
    }
    GenerationsIff(worlds, actions, i);
  }
}
