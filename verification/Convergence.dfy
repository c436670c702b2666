/** Whole passes of the reconciler without interference, and where fault-free ones lead. */
module Convergence {
  import opened Autoscaler
  import opened Control
  import opened ControlInv
  import opened Objects
  import opened Options
  import opened Safety
  import opened ShardMaps
  import opened StatusFields

  // ---- running a pass to its end ----

  function SlotIndex(slot: Slot): (n: nat)
    ensures 2 <= n <= 14
  {
    match slot
    case SignalsMap => 2
    case DecodeService => 4
    case PrefillService => 5
    case RouterService => 6
    case RouterAccount => 7
    case RouterRole => 8
    case RouterBinding => 9
    case DecodeDeployment => 10
    case PrefillDeployment => 11
    case RouterDeployment => 12
    case ShardMapMap => 14
  }

  /** Position of a step within a pass. */
  function Index(pc: Pc): (n: nat)
    ensures n <= 16
  {
    match pc
    case Defaults => 0
    case Finalize => 1
    case Write(slot) => SlotIndex(slot)
    case Scale => 3
    case ListPods => 13
    case Report => 15
    case Degrade => 16
  }

  lemma AfterAdvances(slot: Slot)
    ensures Index(After(slot)) > SlotIndex(slot)
  {
  }

  ghost predicate Follows(next: Pc, pc: Pc) {
    match pc
    case Defaults => next.Finalize?
    case Finalize => next == Write(SignalsMap) || next == Write(DecodeService)
    case Write(slot) => next.Degrade? || next == After(slot)
    case Scale => next.Degrade? || next == Write(DecodeService)
    case ListPods => next.Degrade? || next == Write(ShardMapMap)
    case Report => false
    case Degrade => false
  }

  lemma NextPc(w: World, call: Call)
    requires w.worker.Busy?
    ensures Step(w, call).worker.Idle? || Follows(Step(w, call).worker.pc, w.worker.pc)
  {
  }

  lemma FollowsLater(next: Pc, pc: Pc)
    requires Follows(next, pc)
    ensures Index(next) > Index(pc)
  {
    if pc.Write? {
      AfterAdvances(pc.slot);
    }
  }

  lemma StepAdvances(w: World, call: Call)
    requires w.worker.Busy?
    ensures var v := Step(w, call); v.worker.Idle? || Index(v.worker.pc) > Index(w.worker.pc)
  {
    NextPc(w, call);
    if Step(w, call).worker.Busy? {
      FollowsLater(Step(w, call).worker.pc, w.worker.pc);
    }
  }

  /** Runs the pass in progress to its end, each call going as the script says. */
  function Drive(w: World, script: Pc -> Call): World
    decreases if w.worker.Idle? then 0 else 20 - Index(w.worker.pc)
  {
    if w.worker.Idle? then w
    else
      var call := script(w.worker.pc);
      StepAdvances(w, call);
      Drive(Step(w, call), script)
  }

  /** Whether the pass in progress reports success: it reaches its last call and that goes through. */
  predicate Succeeds(w: World, script: Pc -> Call)
    decreases if w.worker.Idle? then 0 else 20 - Index(w.worker.pc)
  {
    if w.worker.Idle? then false
    else
      var call := script(w.worker.pc);
      StepAdvances(w, call);
      if w.worker.pc.Report? then call.outcome.Done? && w.worker.local.name in w.clusters
      else Succeeds(Step(w, call), script)
  }

  ghost predicate Faultless(script: Pc -> Call) {
    forall pc :: script(pc).outcome.Done?
  }

  // ---- what the children converge to ----

  function Depth(w: World, data: map<string, string>): Float {
    ReadSignals(SeedSignals(data), w.strconv).queueDepth
  }

  function ScaleGoal(w: World, name: string, spec: Spec): Option<int> {
    if Scales(spec) then Some(DecodeReplicas(BoundsOf(spec), Depth(w, SignalData(w.store, name)))) else None
  }

  /**
   The desired children of a pass that starts from a snapshot: a function of signals, pods and the
   spec the server holds once the defaults the snapshot lacked are filled in.
   */
  function Goal(w: World, snapshot: Cluster): Inputs
    requires snapshot.name in w.clusters
  {
    var name := snapshot.name;
    var spec := PatchDefaults(snapshot.spec, w.clusters[name].spec);
    Inputs(name, w.namespace, spec, ScaleGoal(w, name, spec), Publish(MapOf(DecodePods(w, name), ShardCount(spec))))
  }

  predicate Applies(slot: Slot, spec: Spec) {
    slot.SignalsMap? ==> Scales(spec)
  }

  ghost predicate At(store: Store, slot: Slot, i: Inputs) {
    var key := KeyOf(i.cluster, slot);
    key in store && Desired(slot, store[key], i)
  }

  ghost predicate Converged(store: Store, i: Inputs) {
    forall slot :: Applies(slot, i.spec) ==> At(store, slot, i)
  }

  /** No other controller owns an object under this child's name. */
  predicate Ours(store: Store, cluster: string, slot: Slot) {
    var owner := Existing(store, KeyOf(cluster, slot)).meta.owner;
    owner.None? || owner.value == cluster
  }

  ghost predicate Adoptable(store: Store, i: Inputs) {
    forall slot :: Applies(slot, i.spec) ==> Ours(store, i.cluster, slot)
  }

  /** A child that is written before the decision or the listing does not depend on their result. */
  lemma DesiredLater(slot: Slot, o: Object, i: Inputs, j: Inputs)
    requires j == i.(scaledTo := j.scaledTo, mapText := j.mapText)
    requires slot == DecodeDeployment ==> j.scaledTo == i.scaledTo
    requires slot == ShardMapMap ==> j.mapText == i.mapText
    ensures Desired(slot, o, i) <==> Desired(slot, o, j)
  {
    assert "prefill" != "decode" by {
      SuffixesDiffer();
    }
  }

  lemma EnsureOurs(store: Store, slot: Slot, i: Inputs)
    requires Ensure(store, slot, i).Some?
    ensures Ours(store, i.cluster, slot)
  {
  }

  lemma EnsureReaches(store: Store, slot: Slot, i: Inputs)
    requires Ours(store, i.cluster, slot)
    ensures Ensure(store, slot, i).Some? && At(Ensure(store, slot, i).value, slot, i)
  {
    MutateReaches(slot, Existing(store, KeyOf(i.cluster, slot)), i);
  }

  lemma EnsureIdle(store: Store, slot: Slot, i: Inputs)
    requires At(store, slot, i)
    ensures Ensure(store, slot, i) == Some(store)
  {
    var key := KeyOf(i.cluster, slot);
    MutateIdle(slot, store[key], i);
    assert store[key := store[key]] == store;
  }

  lemma EnsureKeepsOthers(store: Store, slot: Slot, i: Inputs, other: Slot, goal: Inputs)
    requires Ensure(store, slot, i).Some? && other != slot && goal.cluster == i.cluster
    ensures At(Ensure(store, slot, i).value, other, goal) <==> At(store, other, goal)
    ensures Ours(Ensure(store, slot, i).value, i.cluster, other) <==> Ours(store, i.cluster, other)
  {
    EnsureFrame(store, slot, i, i.cluster, other);
    if KeyOf(i.cluster, other) == KeyOf(i.cluster, slot) {
      KeysApart(i.cluster, other, i.cluster, slot);
    }
  }

  // ---- the invariant of a pass that has not failed so far ----

  /** The parts of the worker's state that decide what it writes. */
  ghost predicate Heading(w: World, i: Inputs, listed: seq<Pod>) {
    && w.worker.Busy? && Writing(w.worker.pc) && !w.worker.pc.Degrade?
    && w.worker.local.name == i.cluster && w.worker.local.spec == i.spec && w.namespace == i.namespace
    && (w.worker.pc.Write? ==> Applies(w.worker.pc.slot, i.spec))
    && (w.worker.pc.Scale? ==> Scales(i.spec) && At(w.store, SignalsMap, i))
    && (PastScale(w.worker.pc) ==> w.worker.scaledTo == i.scaledTo)
    && (Publishing(w.worker.pc) ==> w.worker.mapText == i.mapText)
    && i.scaledTo == ScaleGoal(w, i.cluster, i.spec)
    && i.mapText == Publish(MapOf(listed, ShardCount(i.spec)))
  }

  /** Every slot the pass is past is as desired. */
  ghost predicate Written(w: World, i: Inputs)
    requires w.worker.Busy?
  {
    forall slot :: Applies(slot, i.spec) && SlotIndex(slot) < Index(w.worker.pc) ==> At(w.store, slot, i)
  }

  predicate Failing(w: World) {
    w.worker.Idle? || w.worker.pc.Degrade?
  }

  lemma SeedTwice(data: map<string, string>)
    ensures SeedSignals(SeedSignals(data)) == SeedSignals(data)
  {
    SeedHasKeys(data);
  }

  lemma SeededIsSeed(data: map<string, string>)
    requires "queueDepth" in data && "tokensPerSecond" in data && "memPressure" in data
    ensures SeedSignals(data) == data
  {
  }

  /** The signals a write step leaves behind: seeded by its own slot, unchanged by the others. */
  lemma SignalsAfter(store: Store, slot: Slot, i: Inputs)
    requires Ensure(store, slot, i).Some?
    ensures SignalData(Ensure(store, slot, i).value, i.cluster)
            == if slot.SignalsMap? then SeedSignals(SignalData(store, i.cluster)) else SignalData(store, i.cluster)
  {
    if !slot.SignalsMap? {
      EnsureFrame(store, slot, i, i.cluster, SignalsMap);
    }
  }

  lemma WriteResult(w: World, i: Inputs, listed: seq<Pod>, call: Call) returns (store: Store)
    requires Heading(w, i, listed) && w.worker.pc.Write? && !Failing(Step(w, call))
    ensures var slot := w.worker.pc.slot;
            && Ensure(w.store, slot, InputsOf(w)) == Some(store)
            && Step(w, call) == Goto(Wrote(w, slot, store), After(slot))
            && At(store, slot, i)
  {
    var slot := w.worker.pc.slot;
    EnsureOurs(w.store, slot, InputsOf(w));
    EnsureReaches(w.store, slot, InputsOf(w));
    store := Ensure(w.store, slot, InputsOf(w)).value;
    DesiredLater(slot, store[KeyOf(i.cluster, slot)], InputsOf(w), i);
  }

  lemma AfterFacts(slot: Slot)
    ensures var pc := After(slot);
            && Writing(pc) && !pc.Degrade?
            && (pc.Scale? <==> slot.SignalsMap?)
            && (PastScale(pc) <==> !slot.SignalsMap?)
            && (Publishing(pc) <==> slot.ShardMapMap?)
            && (pc.Write? ==> !pc.slot.SignalsMap?)
  {
  }

  lemma HeadingAfter(w: World, i: Inputs, listed: seq<Pod>, slot: Slot, store: Store)
    requires Heading(w, i, listed) && w.worker.pc == Write(slot)
    requires SignalData(store, i.cluster)
             == if slot.SignalsMap? then SeedSignals(SignalData(w.store, i.cluster)) else SignalData(w.store, i.cluster)
    requires At(store, slot, i)
    ensures Heading(Goto(Wrote(w, slot, store), After(slot)), i, listed)
  {
    AfterFacts(slot);
    SeedTwice(SignalData(w.store, i.cluster));
    var v := Goto(Wrote(w, slot, store), After(slot));
    assert v.worker == w.worker.(pc := After(slot)) && v.store == store;
    assert v.namespace == w.namespace && v.strconv == w.strconv;
    assert Depth(v, SignalData(store, i.cluster)) == Depth(w, SignalData(w.store, i.cluster));
  }

  lemma SlotsInOrder(slot: Slot, t: Slot)
    requires t != slot && SlotIndex(t) < Index(After(slot))
    ensures SlotIndex(t) < SlotIndex(slot)
  {
  }

  lemma WrittenAfter(w: World, i: Inputs, slot: Slot, store: Store)
    requires w.worker.Busy? && w.worker.pc == Write(slot) && w.worker.local.name == i.cluster
    requires Written(w, i)
    requires Ensure(w.store, slot, InputsOf(w)) == Some(store) && At(store, slot, i)
    ensures Written(Goto(Wrote(w, slot, store), After(slot)), i)
  {
    forall t | Applies(t, i.spec) && SlotIndex(t) < Index(After(slot)) ensures At(store, t, i) {
      if t != slot {
        EnsureKeepsOthers(w.store, slot, InputsOf(w), t, i);
        SlotsInOrder(slot, t);
      }
    }
  }

  lemma WriteProgress(w: World, i: Inputs, listed: seq<Pod>, call: Call)
    requires Heading(w, i, listed) && Written(w, i) && w.worker.pc.Write? && !Failing(Step(w, call))
    ensures Heading(Step(w, call), i, listed) && Written(Step(w, call), i)
  {
    var slot := w.worker.pc.slot;
    var store := WriteResult(w, i, listed, call);
    SignalsAfter(w.store, slot, InputsOf(w));
    HeadingAfter(w, i, listed, slot, store);
    WrittenAfter(w, i, slot, store);
  }

  /** The two steps that write nothing leave every claim about written slots as it was. */
  lemma WrittenStays(w: World, v: World, i: Inputs)
    requires w.worker.Busy? && v.worker.Busy? && Written(w, i) && v.store == w.store
    requires if w.worker.pc.Scale? then v.worker.pc == Write(DecodeService)
             else w.worker.pc.ListPods? && v.worker.pc == Write(ShardMapMap)
    ensures Written(v, i)
  {
  }

  lemma ScaleHeading(w: World, i: Inputs, listed: seq<Pod>, call: Call)
    requires Heading(w, i, listed) && w.worker.pc.Scale? && !Failing(Step(w, call))
    ensures Heading(Step(w, call), i, listed) && Step(w, call).worker.pc == Write(DecodeService)
  {
    SeededIsSeed(SignalData(w.store, i.cluster));
    assert Step(w, call).worker.scaledTo == i.scaledTo;
  }

  lemma ListHeading(w: World, i: Inputs, call: Call)
    requires Heading(w, i, call.listed) && w.worker.pc.ListPods? && !Failing(Step(w, call))
    ensures Heading(Step(w, call), i, call.listed) && Step(w, call).worker.pc == Write(ShardMapMap)
  {
  }

  /** Each step short of the last either fails the pass or keeps it heading for its goal. */
  lemma StepProgress(w: World, i: Inputs, listed: seq<Pod>, call: Call)
    requires Heading(w, i, listed) && Written(w, i) && !w.worker.pc.Report? && !Failing(Step(w, call))
    requires w.worker.pc.ListPods? ==> call.listed == listed
    ensures Heading(Step(w, call), i, listed) && Written(Step(w, call), i)
  {
    match w.worker.pc
    case Write(_) => WriteProgress(w, i, listed, call);
    case Scale =>
      ScaleHeading(w, i, listed, call);
      OnlyWritesTouchStore(w, call);
      WrittenStays(w, Step(w, call), i);
    case ListPods =>
      ListHeading(w, i, call);
      OnlyWritesTouchStore(w, call);
      WrittenStays(w, Step(w, call), i);
  }

  lemma DriveStep(w: World, script: Pc -> Call)
    requires w.worker.Busy?
    ensures Drive(w, script) == Drive(Step(w, script(w.worker.pc)), script)
    ensures !w.worker.pc.Report? ==> Succeeds(w, script) == Succeeds(Step(w, script(w.worker.pc)), script)
  {
  }

  lemma DriveReport(w: World, script: Pc -> Call)
    requires w.worker.Busy? && w.worker.pc.Report?
    ensures Drive(w, script) == Step(w, script(Report)) && Drive(w, script).store == w.store
  {
    DriveStep(w, script);
    OnlyWritesTouchStore(w, script(Report));
  }

  lemma DriveDegrade(w: World, script: Pc -> Call)
    requires w.worker.Busy? && w.worker.pc.Degrade?
    ensures Drive(w, script) == Step(w, script(Degrade)) && Drive(w, script).store == w.store && !Succeeds(w, script)
  {
    DriveStep(w, script);
    OnlyWritesTouchStore(w, script(Degrade));
  }

  lemma FailingFails(w: World, script: Pc -> Call)
    requires Failing(w)
    ensures Drive(w, script).store == w.store && !Succeeds(w, script)
  {
    if w.worker.Busy? {
      DriveDegrade(w, script);
    }
  }

  /** The gate makes no call for an object that is live and already carries the finalizer. */
  predicate NoCall(w: World)
    requires w.worker.Busy?
  {
    w.worker.pc.Finalize? && !w.worker.local.deleting && FINALIZER in w.worker.local.finalizers
  }

  /** No error is ignored: a call that reports one ends the pass or turns it to reporting the failure. */
  lemma ErrorsCount(w: World, call: Call)
    requires w.worker.Busy? && !call.outcome.Done? && !NoCall(w)
    ensures Failing(Step(w, call))
  {
    match w.worker.pc
    case Write(slot) => assert Step(w, call) == WriteStep(w, call, slot);
    case Scale => assert Step(w, call) == ScaleStep(w, call);
    case ListPods => assert Step(w, call) == ListStep(w, call);
    case _ =>
  }

  /** One step of a pass that has not failed so far, seen from outside. */
  lemma Advance(w: World, i: Inputs, script: Pc -> Call) returns (v: World)
    requires Heading(w, i, script(ListPods).listed) && Written(w, i) && !w.worker.pc.Report?
    ensures v == Step(w, script(w.worker.pc))
    ensures Drive(w, script) == Drive(v, script) && Succeeds(w, script) == Succeeds(v, script)
    ensures || Failing(v)
            || (Heading(v, i, script(ListPods).listed) && Written(v, i) && Index(v.worker.pc) > Index(w.worker.pc))
    ensures Failing(v) ==> Drive(v, script).store == v.store && !Succeeds(v, script)
  {
    var call := script(w.worker.pc);
    v := Step(w, call);
    DriveStep(w, script);
    StepAdvances(w, call);
    if Failing(v) {
      FailingFails(v, script);
    } else {
      StepProgress(w, i, script(ListPods).listed, call);
    }
  }

  lemma AllWritten(w: World, i: Inputs)
    requires w.worker.Busy? && w.worker.pc.Report? && Written(w, i)
    ensures Converged(w.store, i)
  {
    forall slot | Applies(slot, i.spec) ensures At(w.store, slot, i) {
      assert SlotIndex(slot) < 15;
    }
  }

  lemma {:induction false} SuccessConverges(w: World, i: Inputs, script: Pc -> Call)
    requires Heading(w, i, script(ListPods).listed) && Written(w, i) && Succeeds(w, script)
    ensures Converged(Drive(w, script).store, i)
    decreases 20 - Index(w.worker.pc)
  {
    if w.worker.pc.Report? {
      DriveReport(w, script);
      AllWritten(w, i);
    } else {
      var v := Advance(w, i, script);
      SuccessConverges(v, i, script);
    }
  }

  lemma WriteIdles(w: World, i: Inputs, listed: seq<Pod>, call: Call)
    requires Heading(w, i, listed) && Converged(w.store, i)
    ensures Step(w, call).store == w.store
  {
    if w.worker.pc.Write? {
      var slot := w.worker.pc.slot;
      assert At(w.store, slot, i);
      DesiredLater(slot, w.store[KeyOf(i.cluster, slot)], i, InputsOf(w));
      EnsureIdle(w.store, slot, InputsOf(w));
      StepStore(w, call);
    } else {
      OnlyWritesTouchStore(w, call);
    }
  }

  /** Whatever fails on the way, no child of a converged store changes. */
  lemma {:induction false} DriveIdles(w: World, i: Inputs, script: Pc -> Call)
    requires Heading(w, i, script(ListPods).listed) && Converged(w.store, i)
    ensures Drive(w, script).store == w.store
    decreases 20 - Index(w.worker.pc)
  {
    WriteIdles(w, i, script(ListPods).listed, script(w.worker.pc));
    if w.worker.pc.Report? {
      DriveReport(w, script);
    } else {
      ConvergedIsWritten(w, i);
      var v := Advance(w, i, script);
      if !Failing(v) {
        DriveIdles(v, i, script);
      }
    }
  }

  lemma ConvergedIsWritten(w: World, i: Inputs)
    requires w.worker.Busy? && Converged(w.store, i)
    ensures Written(w, i)
  {
  }

  // ---- when a pass succeeds ----

  ghost predicate LacksPort(spec: Spec) {
    spec.decode.servicePort.None? || spec.prefill.servicePort.None?
  }

  /** Nothing in the way: every child name is free or ours, both ports are set, and the signals can be read. */
  ghost predicate Clear(store: Store, i: Inputs) {
    && Adoptable(store, i)
    && !LacksPort(i.spec)
    && (Scales(i.spec) ==> i.spec.autoscaling.source != "prometheus")
  }

  lemma WriteClears(w: World, i: Inputs, listed: seq<Pod>, call: Call)
    requires Heading(w, i, listed) && w.worker.pc.Write? && Clear(w.store, i) && call.outcome.Done?
    ensures !Failing(Step(w, call)) && Clear(Step(w, call).store, i)
  {
    var slot := w.worker.pc.slot;
    assert Ours(w.store, i.cluster, slot);
    EnsureReaches(w.store, slot, InputsOf(w));
    AfterFacts(slot);
    var store := WriteResult(w, i, listed, call);
    forall t | Applies(t, i.spec) ensures Ours(store, i.cluster, t) {
      if t != slot {
        EnsureKeepsOthers(w.store, slot, InputsOf(w), t, i);
      }
    }
  }

  lemma StepClears(w: World, i: Inputs, listed: seq<Pod>, call: Call)
    requires Heading(w, i, listed) && !w.worker.pc.Report? && Clear(w.store, i) && call.outcome.Done?
    ensures !Failing(Step(w, call)) && Clear(Step(w, call).store, i)
  {
    if w.worker.pc.Write? {
      WriteClears(w, i, listed, call);
    } else {
      OnlyWritesTouchStore(w, call);
    }
  }

  lemma {:induction false} ClearSucceeds(w: World, i: Inputs, script: Pc -> Call)
    requires Heading(w, i, script(ListPods).listed) && Written(w, i) && Clear(w.store, i) && Faultless(script)
    requires i.cluster in w.clusters && w.clusters[i.cluster].name == i.cluster
    ensures Succeeds(w, script)
    decreases 20 - Index(w.worker.pc)
  {
    if !w.worker.pc.Report? {
      StepClears(w, i, script(ListPods).listed, script(w.worker.pc));
      StepKeepsCluster(w, i.cluster, script(w.worker.pc));
      var v := Advance(w, i, script);
      ClearSucceeds(v, i, script);
    }
  }

  // ---- the first two steps ----

  /** A whole pass from a snapshot of any age, without interference. */
  function Pass(w: World, snapshot: Cluster, script: Pc -> Call): World {
    Drive(Start(w, snapshot), script)
  }

  predicate PassSucceeds(w: World, snapshot: Cluster, script: Pc -> Call) {
    Succeeds(Start(w, snapshot), script)
  }

  ghost predicate Ready(w: World, snapshot: Cluster, script: Pc -> Call) {
    var name := snapshot.name;
    && w.worker.Idle? && name in w.clusters && w.clusters[name].name == name
    && multiset(script(ListPods).listed) == multiset(DecodePods(w, name))
  }

  /** Where the defaulting and finalizer steps lead when the pass goes on. */
  ghost predicate Admits(w: World, v: World, snapshot: Cluster)
    requires snapshot.name in w.clusters
  {
    var name := snapshot.name;
    && name in v.clusters && v.clusters[name].name == name && !w.clusters[name].deleting
    && v.clusters[name].spec == PatchDefaults(snapshot.spec, w.clusters[name].spec)
    && v.worker.Busy? && v.worker.pc == First(v.clusters[name].spec) && v.worker.local == v.clusters[name]
    && v.worker.scaledTo == None
  }

  ghost predicate SameChildren(w: World, v: World) {
    v == w.(clusters := v.clusters, versions := v.versions, worker := v.worker)
  }

  lemma AfterDefaulting(w: World, snapshot: Cluster, call: Call) returns (v: World)
    requires snapshot.name in w.clusters && w.clusters[snapshot.name].name == snapshot.name
    ensures v == Step(Start(w, snapshot), call) && SameChildren(w, v)
    ensures call.outcome.Done? ==> v.worker.Busy?
    ensures var name := snapshot.name;
            v.worker.Busy? ==>
              && name in v.clusters && v.clusters[name].name == name
              && v.clusters[name].deleting == w.clusters[name].deleting
              && v.clusters[name].spec == PatchDefaults(snapshot.spec, w.clusters[name].spec)
              && v.worker.pc.Finalize? && v.worker.local == v.clusters[name] && v.worker.scaledTo == None
  {
    v := DefaultsStep(Start(w, snapshot), call);
  }

  lemma AfterGate(w: World, name: string, call: Call) returns (v: World)
    requires w.worker.Busy? && w.worker.pc.Finalize?
    requires name in w.clusters && w.worker.local == w.clusters[name] && w.clusters[name].name == name
    ensures v == Step(w, call) && SameChildren(w, v)
    ensures !w.clusters[name].deleting && call.outcome.Done? ==> v.worker.Busy?
    ensures v.worker.Busy? ==>
              && name in v.clusters && v.clusters[name].name == name && !w.clusters[name].deleting
              && v.clusters[name].spec == w.clusters[name].spec
              && v.worker.pc == First(w.clusters[name].spec) && v.worker.local == v.clusters[name]
              && v.worker.scaledTo == w.worker.scaledTo
  {
    v := FinalizeStep(w, call);
  }

  lemma Prologue(w: World, snapshot: Cluster, script: Pc -> Call) returns (v: World)
    requires snapshot.name in w.clusters && w.clusters[snapshot.name].name == snapshot.name
    ensures Pass(w, snapshot, script) == Drive(v, script) && PassSucceeds(w, snapshot, script) == Succeeds(v, script)
    ensures SameChildren(w, v) && (v.worker.Busy? ==> Admits(w, v, snapshot))
    ensures Faultless(script) && !w.clusters[snapshot.name].deleting ==> v.worker.Busy?
  {
    var s := Start(w, snapshot);
    DriveStep(s, script);
    v := AfterDefaulting(w, snapshot, script(Defaults));
    if v.worker.Busy? {
      var u := v;
      DriveStep(u, script);
      v := AfterGate(u, snapshot.name, script(Finalize));
    }
  }

  lemma DefaultsFill(spec: Spec)
    ensures var d := PatchDefaults(spec, spec);
            && d.decode.servicePort.Some? && d.prefill.servicePort.Some?
            && d.autoscaling == spec.autoscaling && PatchDefaults(d, d) == d
  {
    assert |"sessionAffinity"| > 0 && |"sharded"| > 0 && |"lru"| > 0 && |"none"| > 0;
  }

  lemma Launched(w: World, v: World, snapshot: Cluster, script: Pc -> Call)
    requires Ready(w, snapshot, script) && SameChildren(w, v) && Admits(w, v, snapshot)
    ensures Heading(v, Goal(w, snapshot), script(ListPods).listed) && Written(v, Goal(w, snapshot))
  {
    var i := Goal(w, snapshot);
    ListingOrderFree(script(ListPods).listed, DecodePods(w, snapshot.name), ShardCount(i.spec), 0);
    assert ScaleGoal(v, snapshot.name, i.spec) == ScaleGoal(w, snapshot.name, i.spec);
  }

  // ---- where a pass ends ----

  /** After the gate a pass changes no cluster object except in its status. */
  ghost predicate SameButStatus(w: World, v: World, name: string) {
    && v.pods == w.pods && v.namespace == w.namespace && v.strconv == w.strconv
    && name in w.clusters && name in v.clusters
    && v.clusters[name] == w.clusters[name].(status := v.clusters[name].status, version := v.clusters[name].version)
  }

  lemma PersistStatus(w: World, name: string, status: Status)
    requires name in w.clusters && w.clusters[name].name == name
    ensures SameButStatus(w, Stop(Persist(w, w.clusters[name].(status := status))), name)
  {
  }

  lemma StepKeepsCluster(w: World, name: string, call: Call)
    requires w.worker.Busy? && Writing(w.worker.pc) && w.worker.local.name == name
    requires name in w.clusters && w.clusters[name].name == name
    ensures SameButStatus(w, Step(w, call), name)
  {
    match w.worker.pc
    case Write(_) =>
    case Scale =>
    case ListPods =>
    case Report =>
      PersistStatus(w, name, PatchStatus(w.worker.snapshot.status, Reported(w, call.now), w.clusters[name].status));
    case Degrade =>
      PersistStatus(w, name, Failed(w, call));
  }

  lemma {:induction false} DriveEnds(w: World, i: Inputs, script: Pc -> Call)
    requires Heading(w, i, script(ListPods).listed) && Written(w, i) && Succeeds(w, script)
    requires i.cluster in w.clusters && w.clusters[i.cluster].name == i.cluster
    ensures var u := Drive(w, script);
            && u.worker.Idle? && SameButStatus(w, u, i.cluster)
            && i.scaledTo == ScaleGoal(u, i.cluster, i.spec)
    decreases 20 - Index(w.worker.pc)
  {
    StepKeepsCluster(w, i.cluster, script(w.worker.pc));
    if w.worker.pc.Report? {
      DriveReport(w, script);
    } else {
      var v := Advance(w, i, script);
      DriveEnds(v, i, script);
    }
  }

  // ---- main results ----

  /**
   Convergence from any history: whatever snapshot the pass started from, and whatever state the
   children were left in by earlier passes, users or failures, a pass that reports success has put
   every managed field of every child at the goal.
   */
  lemma SuccessfulPassConverges(w: World, snapshot: Cluster, script: Pc -> Call)
    requires Ready(w, snapshot, script) && PassSucceeds(w, snapshot, script)
    ensures Converged(Pass(w, snapshot, script).store, Goal(w, snapshot))
  {
    var v := Prologue(w, snapshot, script);
    Launched(w, v, snapshot, script);
    SuccessConverges(v, Goal(w, snapshot), script);
  }

  /**
   After a successful pass the template of a worker deployment carries the pod labels the spec asks for
   exactly when these are among the labels the operator sets itself.
   */
  lemma TemplateLabelsIff(w: World, snapshot: Cluster, script: Pc -> Call, slot: Slot)
    requires Ready(w, snapshot, script) && PassSucceeds(w, snapshot, script)
    requires slot.DecodeDeployment? || slot.PrefillDeployment?
    ensures var u, key := Pass(w, snapshot, script), KeyOf(snapshot.name, slot);
            var wanted := RoleOf(Goal(w, snapshot).spec, slot).podLabels;
            && key in u.store && u.store[key].Deployment?
            && (Matches(wanted, u.store[key].podLabels) <==> OnlyOperatorLabels(wanted, snapshot.name, Suffix(slot)))
  {
    SuccessfulPassConverges(w, snapshot, script);
    var store := Pass(w, snapshot, script).store;
    assert At(store, slot, Goal(w, snapshot));
    PodLabelsIff(slot, store[KeyOf(snapshot.name, slot)], Goal(w, snapshot));
  }

  /** What a successful pass leaves of its own inputs. */
  lemma PassKeepsInputs(w: World, snapshot: Cluster, script: Pc -> Call)
    requires Ready(w, snapshot, script) && PassSucceeds(w, snapshot, script)
    ensures var u, name, i := Pass(w, snapshot, script), snapshot.name, Goal(w, snapshot);
            && u.worker.Idle? && name in u.clusters && u.clusters[name].name == name
            && u.clusters[name].spec == i.spec && u.pods == w.pods && u.namespace == w.namespace
            && ScaleGoal(u, name, i.spec) == i.scaledTo
  {
    var v := Prologue(w, snapshot, script);
    Launched(w, v, snapshot, script);
    DriveEnds(v, Goal(w, snapshot), script);
  }

  /**
   After a successful pass no further pass on unchanged inputs changes any child, whichever snapshot
   it starts from and whichever of its calls fail. Unchanged means that the later snapshot's defaults
   leave the spec as it is.
   */
  lemma FurtherPassChangesNothing(w: World, snapshot: Cluster, first: Pc -> Call, later: Cluster, second: Pc -> Call)
    requires Ready(w, snapshot, first) && PassSucceeds(w, snapshot, first)
    requires later.name == snapshot.name && multiset(second(ListPods).listed) == multiset(DecodePods(w, later.name))
    requires PatchDefaults(later.spec, Goal(w, snapshot).spec) == Goal(w, snapshot).spec
    ensures var u := Pass(w, snapshot, first);
            && later.name in u.clusters && Goal(u, later) == Goal(w, snapshot)
            && Pass(u, later, second).store == u.store
  {
    var u := Pass(w, snapshot, first);
    SuccessfulPassConverges(w, snapshot, first);
    PassKeepsInputs(w, snapshot, first);
    var x := Prologue(u, later, second);
    if x.worker.Busy? {
      Launched(u, x, later, second);
      DriveIdles(x, Goal(u, later), second);
    }
  }

  /** In particular after two passes from the versions the server held. */
  lemma CurrentPassIsIdle(w: World, name: string, first: Pc -> Call, second: Pc -> Call)
    requires name in w.clusters && Ready(w, w.clusters[name], first) && PassSucceeds(w, w.clusters[name], first)
    requires w.clusters[name].name == name && multiset(second(ListPods).listed) == multiset(DecodePods(w, name))
    ensures var u := Pass(w, w.clusters[name], first);
            name in u.clusters && Pass(u, u.clusters[name], second).store == u.store
  {
    PassKeepsInputs(w, w.clusters[name], first);
    DefaultsFill(w.clusters[name].spec);
    var u := Pass(w, w.clusters[name], first);
    FurtherPassChangesNothing(w, w.clusters[name], first, u.clusters[name], second);
  }

  /** Equal specs, signals and pods mean equal goals, in whatever order pods are listed. */
  lemma GoalDependsOnInputsOnly(w: World, a: Cluster, v: World, b: Cluster)
    requires a.name == b.name && a.name in w.clusters && b.name in v.clusters
    requires PatchDefaults(a.spec, w.clusters[a.name].spec) == PatchDefaults(b.spec, v.clusters[b.name].spec)
    requires SignalData(w.store, a.name) == SignalData(v.store, b.name) && w.strconv == v.strconv
    requires multiset(DecodePods(w, a.name)) == multiset(DecodePods(v, b.name)) && w.namespace == v.namespace
    ensures Goal(w, a) == Goal(v, b)
  {
    var n := ShardCount(PatchDefaults(a.spec, w.clusters[a.name].spec));
    ListingOrderFree(DecodePods(w, a.name), DecodePods(v, b.name), n, 0);
  }

  ghost predicate NamesOk(w: World) {
    forall n :: n in w.clusters ==> w.clusters[n].name == n
  }

  lemma PersistNames(w: World, c: Cluster)
    requires NamesOk(w)
    ensures NamesOk(Persist(w, c)) && c.name in Persist(w, c).clusters
  {
  }

  lemma DefaultsKeepsName(w: World, call: Call)
    requires w.worker.Busy? && NamesOk(w)
    ensures NamesOk(DefaultsStep(w, call))
    ensures DefaultsStep(w, call).worker.Busy? ==> DefaultsStep(w, call).worker.local.name == w.worker.local.name
  {
    var name := w.worker.local.name;
    if name in w.clusters {
      var c, spec := w.clusters[name], PatchDefaults(w.worker.snapshot.spec, w.clusters[name].spec);
      PersistNames(w, if spec == c.spec then c else c.(spec := spec, generation := c.generation + 1));
    }
  }

  lemma FinalizeKeepsName(w: World, call: Call)
    requires w.worker.Busy? && NamesOk(w)
    ensures NamesOk(FinalizeStep(w, call))
    ensures FinalizeStep(w, call).worker.Busy? ==> FinalizeStep(w, call).worker.local.name == w.worker.local.name
  {
    var local := w.worker.local;
    PersistNames(w, local.(finalizers := Without(local.finalizers, FINALIZER)));
    PersistNames(w, local.(finalizers := local.finalizers + [FINALIZER]));
  }

  lemma ReportKeepsName(w: World, call: Call)
    requires w.worker.Busy? && NamesOk(w)
    ensures NamesOk(ReportStep(w, call)) && NamesOk(DegradeStep(w, call))
  {
    var local := w.worker.local;
    if local.name in w.clusters {
      var server := w.clusters[local.name];
      PersistNames(w, server.(status := PatchStatus(w.worker.snapshot.status, Reported(w, call.now), server.status)));
      PersistNames(w, server.(status := Failed(w, call)));
    }
  }

  lemma StepKeepsName(w: World, call: Call)
    requires w.worker.Busy? && NamesOk(w)
    ensures NamesOk(Step(w, call))
    ensures Step(w, call).worker.Busy? ==> Step(w, call).worker.local.name == w.worker.local.name
  {
    match w.worker.pc
    case Defaults => DefaultsKeepsName(w, call);
    case Finalize => FinalizeKeepsName(w, call);
    case Report => ReportKeepsName(w, call);
    case Degrade => ReportKeepsName(w, call);
    case _ => MiddleSame(w, call);
  }

  lemma {:induction false} DriveLeavesForeign(w: World, script: Pc -> Call, cluster: string, key: Key)
    requires NamesOk(w) && (w.worker.Busy? ==> w.worker.local.name == cluster)
    requires key in w.store && KindOf(w.store[key]) == key.kind
    requires w.store[key].meta.owner.Some? && w.store[key].meta.owner.value != cluster
    ensures var u := Drive(w, script); key in u.store && u.store[key] == w.store[key]
    decreases if w.worker.Idle? then 0 else 20 - Index(w.worker.pc)
  {
    if w.worker.Busy? {
      var call := script(w.worker.pc);
      ForeignUntouched(w, call, key);
      StepAdvances(w, call);
      StepKeepsName(w, call);
      DriveLeavesForeign(Step(w, call), script, cluster, key);
    }
  }

  /** However a pass goes, it leaves every child of every other cluster as it was. */
  lemma {:induction false} DriveLeavesOthers(w: World, script: Pc -> Call, cluster: string, other: string, slot: Slot)
    requires NamesOk(w) && (w.worker.Busy? ==> w.worker.local.name == cluster) && other != cluster
    ensures var key, u := KeyOf(other, slot), Drive(w, script);
            (key in u.store <==> key in w.store) && (key in w.store ==> u.store[key] == w.store[key])
    decreases if w.worker.Idle? then 0 else 20 - Index(w.worker.pc)
  {
    if w.worker.Busy? {
      var call := script(w.worker.pc);
      ClustersApart(w, call, other, slot);
      StepAdvances(w, call);
      StepKeepsName(w, call);
      DriveLeavesOthers(Step(w, call), script, cluster, other, slot);
    }
  }

  /** However a pass goes, a signal that is set keeps its value. */
  lemma {:induction false} DriveKeepsSignals(w: World, script: Pc -> Call, cluster: string, k: string)
    requires k in SignalData(w.store, cluster)
    ensures k in SignalData(Drive(w, script).store, cluster)
    ensures SignalData(Drive(w, script).store, cluster)[k] == SignalData(w.store, cluster)[k]
    decreases if w.worker.Idle? then 0 else 20 - Index(w.worker.pc)
  {
    if w.worker.Busy? {
      var call := script(w.worker.pc);
      SignalsSurvive(w, call, cluster, k);
      StepAdvances(w, call);
      DriveKeepsSignals(Step(w, call), script, cluster, k);
    }
  }

  lemma PrometheusFails(w: World, script: Pc -> Call)
    requires w.worker.Busy? && w.worker.pc.Scale? && w.worker.local.spec.autoscaling.source == "prometheus"
    ensures !Succeeds(w, script)
  {
    DriveStep(w, script);
    assert Step(w, script(Scale)) == Goto(w, Degrade);
    FailingFails(Goto(w, Degrade), script);
  }

  lemma SignalsThenScale(w: World, call: Call)
    requires w.worker.Busy? && w.worker.pc == Write(SignalsMap) && !Failing(Step(w, call))
    ensures Step(w, call).worker == w.worker.(pc := Scale)
  {
  }

  lemma PrometheusBlocks(w: World, script: Pc -> Call)
    requires w.worker.Busy? && w.worker.pc == Write(SignalsMap)
    requires w.worker.local.spec.autoscaling.source == "prometheus"
    ensures !Succeeds(w, script)
  {
    var call := script(Write(SignalsMap));
    DriveStep(w, script);
    if Failing(Step(w, call)) {
      FailingFails(Step(w, call), script);
    } else {
      SignalsThenScale(w, call);
      PrometheusFails(Step(w, call), script);
    }
  }

  lemma Unreported(w: World, script: Pc -> Call)
    requires w.worker.Busy? && !w.worker.pc.Report? && Failing(Step(w, script(w.worker.pc)))
    ensures !Succeeds(w, script)
  {
    DriveStep(w, script);
    FailingFails(Step(w, script(w.worker.pc)), script);
  }

  lemma PortStops(w: World, script: Pc -> Call)
    requires w.worker.Busy? && w.worker.pc.Write? && PortMissing(w.worker.pc.slot, w.worker.local.spec)
    ensures !Succeeds(w, script)
  {
    assert Step(w, script(w.worker.pc)) == Stop(w);
    Unreported(w, script);
  }

  lemma BeforePrefill(w: World, call: Call)
    requires w.worker.Busy? && (w.worker.pc == Write(DecodeService) || w.worker.pc.Scale?) && !Failing(Step(w, call))
    ensures var v := Step(w, call);
            && v.worker.local.spec == w.worker.local.spec
            && v.worker.pc == Write(if w.worker.pc.Scale? then DecodeService else PrefillService)
  {
    if w.worker.pc.Write? {
      assert Step(w, call) == WriteStep(w, call, DecodeService);
    } else {
      assert Step(w, call) == ScaleStep(w, call);
    }
  }

  lemma ServicesBlock(w: World, script: Pc -> Call)
    requires w.worker.Busy? && w.worker.pc == Write(DecodeService) && LacksPort(w.worker.local.spec)
    ensures !Succeeds(w, script)
  {
    var call := script(Write(DecodeService));
    if w.worker.local.spec.decode.servicePort.None? {
      PortStops(w, script);
    } else if Failing(Step(w, call)) {
      Unreported(w, script);
    } else {
      BeforePrefill(w, call);
      DriveStep(w, script);
      PortStops(Step(w, call), script);
    }
  }

  lemma ScalingBlocks(w: World, script: Pc -> Call)
    requires w.worker.Busy? && w.worker.pc.Scale? && LacksPort(w.worker.local.spec)
    ensures !Succeeds(w, script)
  {
    if Failing(Step(w, script(Scale))) {
      Unreported(w, script);
    } else {
      BeforePrefill(w, script(Scale));
      DriveStep(w, script);
      ServicesBlock(Step(w, script(Scale)), script);
    }
  }

  /** A port that is missing when the pass gets to the services ends it. */
  lemma PortBlocks(w: World, script: Pc -> Call)
    requires w.worker.Busy? && w.worker.pc == First(w.worker.local.spec) && LacksPort(w.worker.local.spec)
    ensures !Succeeds(w, script)
  {
    if w.worker.pc == Write(DecodeService) {
      ServicesBlock(w, script);
    } else if Failing(Step(w, script(Write(SignalsMap)))) {
      Unreported(w, script);
    } else {
      SignalsThenScale(w, script(Write(SignalsMap)));
      DriveStep(w, script);
      ScalingBlocks(Step(w, script(Write(SignalsMap))), script);
    }
  }

  /**
   A pass without failing calls, from a snapshot of any age, succeeds exactly when the cluster is not
   being deleted and nothing is in the way: no other controller owns one of the child names, the
   patched spec has both ports, and scaling does not rely on the unimplemented source.
   */
  lemma SucceedsIff(w: World, snapshot: Cluster, script: Pc -> Call)
    requires Ready(w, snapshot, script) && NamesOk(w) && Faultless(script)
    ensures PassSucceeds(w, snapshot, script)
            <==> !w.clusters[snapshot.name].deleting && Clear(w.store, Goal(w, snapshot))
  {
    var i := Goal(w, snapshot);
    var v := Prologue(w, snapshot, script);
    if v.worker.Busy? {
      Launched(w, v, snapshot, script);
      if Clear(w.store, i) {
        ClearSucceeds(v, i, script);
      } else if !Adoptable(w.store, i) {
        ForeignBlocks(w, snapshot, script);
      } else if LacksPort(i.spec) {
        PortBlocks(v, script);
      } else {
        PrometheusBlocks(v, script);
      }
    }
  }

  lemma ForeignStays(w: World, snapshot: Cluster, script: Pc -> Call, slot: Slot)
    requires NamesOk(w) && !Ours(w.store, snapshot.name, slot)
    ensures !Ours(Pass(w, snapshot, script).store, snapshot.name, slot)
  {
    DriveLeavesForeign(Start(w, snapshot), script, snapshot.name, KeyOf(snapshot.name, slot));
  }

  lemma AtIsOurs(store: Store, slot: Slot, i: Inputs)
    requires At(store, slot, i)
    ensures Ours(store, i.cluster, slot)
  {
  }

  lemma ForeignBlocks(w: World, snapshot: Cluster, script: Pc -> Call)
    requires Ready(w, snapshot, script) && NamesOk(w) && !Adoptable(w.store, Goal(w, snapshot))
    ensures !PassSucceeds(w, snapshot, script)
  {
    var i := Goal(w, snapshot);
    var slot :| Applies(slot, i.spec) && !Ours(w.store, snapshot.name, slot);
    if PassSucceeds(w, snapshot, script) {
      SuccessfulPassConverges(w, snapshot, script);
      AtIsOurs(Pass(w, snapshot, script).store, slot, i);
      ForeignStays(w, snapshot, script, slot);
    }
  }
}
