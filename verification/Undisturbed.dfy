/** Convergence inside arbitrary runs, of a pass whose own inputs and children nobody else touches. */
module Undisturbed {
  import opened Control
  import opened ControlInv
  import opened Convergence
  import opened Objects
  import opened Options
  import opened Safety
  import opened ShardMaps

  /**
   What others do from w to v does not concern this cluster: its spec, its decode pods and its children,
   signals included, stay. Its status, finalizers and deletion mark may change, and so may anything that
   belongs to other clusters.
   */
  ghost predicate Spares(w: World, v: World, name: string) {
    && (name in v.clusters <==> name in w.clusters)
    && (name in w.clusters ==> v.clusters[name].spec == w.clusters[name].spec)
    && multiset(DecodePods(v, name)) == multiset(DecodePods(w, name))
    && forall slot :: SameChild(w.store, v.store, KeyOf(name, slot))
  }

  ghost predicate SameChild(before: Store, after: Store, key: Key) {
    && (key in after <==> key in before)
    && (key in before ==> after[key] == before[key])
  }

  /**
   A pass that starts with action i has come as far as its report at moment j, and everything others did
   in between spares its cluster.
   */
  ghost predicate PassWithin(worlds: seq<World>, actions: seq<Action>, i: nat, j: nat) {
    && Run(worlds, actions) && i < j < |actions| && actions[i].Begin?
    && (forall m :: i < m <= j ==> worlds[m].worker.Busy?)
    && worlds[j].worker.pc.Report? && actions[j].Op?
    && var name := SnapshotOf(worlds, actions, i).name;
    && (forall m :: i < m < j && !actions[m].Op? ==> Spares(worlds[m], worlds[m + 1], name))
  }

  function SnapshotOf(worlds: seq<World>, actions: seq<Action>, i: nat): Cluster
    requires i < |actions| && i < |worlds| && actions[i].Begin? && actions[i].k < |worlds[i].versions|
  {
    worlds[i].versions[actions[i].k]
  }

  // ---- what the pass keeps while others act ----

  /** The goal is still what signals and pods call for. */
  ghost predicate Aims(w: World, g: Inputs) {
    && g.namespace == w.namespace
    && g.scaledTo == ScaleGoal(w, g.cluster, g.spec)
    && g.mapText == Publish(MapOf(DecodePods(w, g.cluster), ShardCount(g.spec)))
  }

  /** On course for the goal g: before the patch, at the gate, or among the writes. */
  ghost predicate OnCourse(w: World, g: Inputs, snapshot: Cluster) {
    && w.worker.Busy? && !w.worker.pc.Degrade? && Aims(w, g)
    && match w.worker.pc
       case Defaults =>
         && w.worker.snapshot == snapshot && w.worker.local.name == g.cluster && w.worker.scaledTo.None?
         && g.cluster in w.clusters && PatchDefaults(snapshot.spec, w.clusters[g.cluster].spec) == g.spec
       case Finalize =>
         w.worker.local.name == g.cluster && w.worker.local.spec == g.spec && w.worker.scaledTo.None?
       case _ => Heading(w, g, DecodePods(w, g.cluster)) && Written(w, g)
  }

  lemma SparesAim(w: World, v: World, g: Inputs)
    requires Aims(w, g) && Spares(w, v, g.cluster) && v.namespace == w.namespace && v.strconv == w.strconv
    ensures Aims(v, g)
  {
    assert SameChild(w.store, v.store, KeyOf(g.cluster, SignalsMap));
    assert SignalData(v.store, g.cluster) == SignalData(w.store, g.cluster);
    ListingOrderFree(DecodePods(w, g.cluster), DecodePods(v, g.cluster), ShardCount(g.spec), 0);
  }

  lemma SparesChildren(w: World, v: World, g: Inputs, slot: Slot)
    requires Spares(w, v, g.cluster)
    ensures At(v.store, slot, g) <==> At(w.store, slot, g)
  {
    assert SameChild(w.store, v.store, KeyOf(g.cluster, slot));
  }

  lemma SparesWritten(w: World, v: World, g: Inputs)
    requires w.worker.Busy? && v.worker == w.worker && Written(w, g) && Spares(w, v, g.cluster)
    ensures Written(v, g)
  {
    forall slot | Applies(slot, g.spec) && SlotIndex(slot) < Index(v.worker.pc) ensures At(v.store, slot, g) {
      SparesChildren(w, v, g, slot);
    }
  }

  lemma SparesHeading(w: World, v: World, g: Inputs)
    requires Heading(w, g, DecodePods(w, g.cluster)) && Aims(v, g) && v.worker == w.worker
    requires Spares(w, v, g.cluster)
    ensures Heading(v, g, DecodePods(v, g.cluster))
  {
    SparesChildren(w, v, g, SignalsMap);
  }

  lemma OthersKeepCourse(w: World, v: World, g: Inputs, snapshot: Cluster)
    requires OnCourse(w, g, snapshot) && Spares(w, v, g.cluster)
    requires v.worker == w.worker && v.namespace == w.namespace && v.strconv == w.strconv
    ensures OnCourse(v, g, snapshot)
  {
    SparesAim(w, v, g);
    if Writing(w.worker.pc) {
      SparesHeading(w, v, g);
      SparesWritten(w, v, g);
    }
  }

  /** Everyone but the operator leaves the worker alone. */
  lemma OthersLeaveWorker(w: World, a: Action)
    requires Enabled(w, a) && w.worker.Busy? && !a.Op?
    ensures var v := Apply(w, a); v.worker == w.worker && v.namespace == w.namespace && v.strconv == w.strconv
  {
  }

  // ---- the operator's own steps ----

  lemma AimsBeside(w: World, v: World, g: Inputs)
    requires Aims(w, g) && v.namespace == w.namespace && v.strconv == w.strconv
    requires v.pods == w.pods && v.store == w.store
    ensures Aims(v, g)
  {
    assert DecodePods(v, g.cluster) == DecodePods(w, g.cluster);
  }

  lemma PatchOpens(w: World, name: string, call: Call)
    requires w.worker.Busy? && w.worker.local.name == name && name in w.clusters && w.clusters[name].name == name
    requires DefaultsStep(w, call).worker.Busy?
    ensures var v := DefaultsStep(w, call);
            && v.worker.pc.Finalize? && v.worker.local.name == name && v.worker.scaledTo == w.worker.scaledTo
            && v.worker.local.spec == PatchDefaults(w.worker.snapshot.spec, w.clusters[name].spec)
  {
  }

  lemma DefaultsKeepCourse(w: World, g: Inputs, snapshot: Cluster, call: Call)
    requires Inv(w) && OnCourse(w, g, snapshot) && w.worker.pc.Defaults? && DefaultsStep(w, call).worker.Busy?
    ensures OnCourse(DefaultsStep(w, call), g, snapshot)
  {
    ServerFacts(w, g.cluster);
    PatchOpens(w, g.cluster, call);
    AimsBeside(w, DefaultsStep(w, call), g);
  }

  lemma GateOpens(w: World, g: Inputs, call: Call)
    requires w.worker.Busy? && w.worker.local.name == g.cluster && w.worker.local.spec == g.spec
    requires FinalizeStep(w, call).worker.Busy? && NamesOk(w)
    ensures var v := FinalizeStep(w, call);
            && v.worker.pc == First(g.spec) && v.worker.local.name == g.cluster && v.worker.local.spec == g.spec
            && v.worker.scaledTo == w.worker.scaledTo
  {
  }

  lemma FirstIsHeading(v: World, g: Inputs)
    requires v.worker.Busy? && v.worker.pc == First(g.spec) && Aims(v, g) && v.worker.scaledTo.None?
    requires v.worker.local.name == g.cluster && v.worker.local.spec == g.spec
    ensures Heading(v, g, DecodePods(v, g.cluster)) && Written(v, g)
  {
  }

  lemma GateKeepsCourse(w: World, g: Inputs, snapshot: Cluster, call: Call)
    requires Inv(w) && OnCourse(w, g, snapshot) && w.worker.pc.Finalize? && FinalizeStep(w, call).worker.Busy?
    ensures OnCourse(FinalizeStep(w, call), g, snapshot)
  {
    var v := FinalizeStep(w, call);
    GateOpens(w, g, call);
    AimsBeside(w, v, g);
    FirstIsHeading(v, g);
  }

  lemma StepLeavesPods(w: World, call: Call)
    requires w.worker.Busy?
    ensures var v := Step(w, call); v.pods == w.pods && v.namespace == w.namespace && v.strconv == w.strconv
  {
  }

  lemma HeadingAims(v: World, g: Inputs, listed: seq<Pod>)
    requires Heading(v, g, listed) && multiset(listed) == multiset(DecodePods(v, g.cluster))
    ensures Heading(v, g, DecodePods(v, g.cluster)) && Aims(v, g)
  {
    ListingOrderFree(listed, DecodePods(v, g.cluster), ShardCount(g.spec), 0);
  }

  lemma HeadingListed(w: World, g: Inputs, listed: seq<Pod>)
    requires Heading(w, g, DecodePods(w, g.cluster)) && multiset(listed) == multiset(DecodePods(w, g.cluster))
    ensures Heading(w, g, listed)
  {
    ListingOrderFree(listed, DecodePods(w, g.cluster), ShardCount(g.spec), 0);
  }

  lemma WritesKeepCourse(w: World, g: Inputs, call: Call)
    requires Heading(w, g, DecodePods(w, g.cluster)) && Written(w, g) && !w.worker.pc.Report?
    requires w.worker.pc.ListPods? ==> multiset(call.listed) == multiset(DecodePods(w, g.cluster))
    requires !Failing(Step(w, call))
    ensures var v := Step(w, call); Aims(v, g) && Heading(v, g, DecodePods(v, g.cluster)) && Written(v, g)
  {
    var listed := if w.worker.pc.ListPods? then call.listed else DecodePods(w, g.cluster);
    HeadingListed(w, g, listed);
    StepProgress(w, g, listed, call);
    StepLeavesPods(w, call);
    assert DecodePods(Step(w, call), g.cluster) == DecodePods(w, g.cluster);
    HeadingAims(Step(w, call), g, listed);
  }

  lemma StepKeepsCourse(w: World, g: Inputs, snapshot: Cluster, call: Call)
    requires Inv(w) && OnCourse(w, g, snapshot) && !Failing(Step(w, call))
    requires w.worker.pc.ListPods? ==> multiset(call.listed) == multiset(DecodePods(w, g.cluster))
    ensures OnCourse(Step(w, call), g, snapshot)
  {
    match w.worker.pc
    case Defaults => DefaultsKeepCourse(w, g, snapshot, call);
    case Finalize => GateKeepsCourse(w, g, snapshot, call);
    case _ =>
      NextPc(w, call);
      WritesKeepCourse(w, g, call);
  }

  // ---- runs ----

  /** A pass that has failed stays at its last call until that ends it. */
  lemma FailedStays(w: World, a: Action)
    requires Enabled(w, a) && w.worker.Busy? && w.worker.pc.Degrade?
    ensures Failing(Apply(w, a))
  {
    if !a.Op? {
      OthersLeaveWorker(w, a);
    }
  }

  lemma {:induction false} NeverFailed(worlds: seq<World>, actions: seq<Action>, i: nat, j: nat, m: nat)
    requires PassWithin(worlds, actions, i, j) && i < m <= j
    ensures !worlds[m].worker.pc.Degrade?
    decreases j - m
  {
    if m < j {
      NeverFailed(worlds, actions, i, j, m + 1);
      if worlds[m].worker.pc.Degrade? {
        FailedStays(worlds[m], actions[m]);
      }
    }
  }

  /** One move within the pass: the operator's own, or somebody else's that spares the cluster. */
  ghost predicate Move(w: World, v: World, a: Action, name: string) {
    && Inv(w) && w.worker.Busy? && !Failing(v) && Enabled(w, a) && v == Apply(w, a)
    && (!a.Op? ==> Spares(w, v, name))
  }

  ghost predicate Moved(w: World, v: World, name: string) {
    exists a :: Move(w, v, a, name)
  }

  ghost predicate MovedAt(worlds: seq<World>, m: nat, name: string) {
    m + 1 < |worlds| && Moved(worlds[m], worlds[m + 1], name)
  }

  ghost predicate AllMoved(worlds: seq<World>, i: nat, j: nat, name: string) {
    forall m :: i < m < j ==> MovedAt(worlds, m, name)
  }

  lemma PassMoves(worlds: seq<World>, actions: seq<Action>, i: nat, j: nat)
    requires PassWithin(worlds, actions, i, j)
    ensures AllMoved(worlds, i, j, SnapshotOf(worlds, actions, i).name)
  {
    var name := SnapshotOf(worlds, actions, i).name;
    forall m | i < m < j ensures MovedAt(worlds, m, name) {
      InvAlongRun(worlds, actions, m);
      NeverFailed(worlds, actions, i, j, m + 1);
      assert Move(worlds[m], worlds[m + 1], actions[m], name);
    }
  }

  lemma Begins(worlds: seq<World>, actions: seq<Action>, i: nat, j: nat) returns (w: World)
    requires PassWithin(worlds, actions, i, j)
    ensures w == worlds[i] && Inv(w) && worlds[i + 1] == Start(w, SnapshotOf(worlds, actions, i))
  {
    w := worlds[i];
    InvAlongRun(worlds, actions, i);
    assert Enabled(w, actions[i]) && worlds[i + 1] == Apply(w, actions[i]);
  }

  lemma Launches(w: World, snapshot: Cluster)
    requires Inv(w) && snapshot.name in w.clusters
    ensures OnCourse(Start(w, snapshot), Goal(w, snapshot), snapshot)
  {
    var v := Start(w, snapshot);
    assert DecodePods(v, snapshot.name) == DecodePods(w, snapshot.name);
    assert ScaleGoal(v, snapshot.name, Goal(w, snapshot).spec) == Goal(w, snapshot).scaledTo;
  }

  lemma CourseHasName(w: World, g: Inputs, snapshot: Cluster)
    requires OnCourse(w, g, snapshot)
    ensures w.worker.local.name == g.cluster
  {
  }

  lemma MoveKeepsCourse(w: World, v: World, a: Action, g: Inputs, snapshot: Cluster)
    requires Move(w, v, a, g.cluster) && OnCourse(w, g, snapshot)
    ensures OnCourse(v, g, snapshot)
  {
    CourseHasName(w, g, snapshot);
    if a.Op? {
      StepKeepsCourse(w, g, snapshot, a.call);
    } else {
      OthersLeaveWorker(w, a);
      OthersKeepCourse(w, v, g, snapshot);
    }
  }

  lemma MovedKeepsCourse(w: World, v: World, g: Inputs, snapshot: Cluster)
    requires Moved(w, v, g.cluster) && OnCourse(w, g, snapshot)
    ensures OnCourse(v, g, snapshot)
  {
    var a :| Move(w, v, a, g.cluster);
    MoveKeepsCourse(w, v, a, g, snapshot);
  }

  ghost predicate KeptBy(p: World -> bool, w: World, v: World, name: string) {
    Moved(w, v, name) && p(w) ==> p(v)
  }

  ghost predicate Stable(p: World -> bool, name: string) {
    forall w, v :: KeptBy(p, w, v, name)
  }

  /** What every move keeps holds at every moment of the pass. */
  lemma {:induction false} Along(worlds: seq<World>, i: nat, j: nat, m: nat, name: string, p: World -> bool)
    requires i < m <= j < |worlds| && AllMoved(worlds, i, j, name) && p(worlds[i + 1]) && Stable(p, name)
    ensures p(worlds[m])
  {
    if m > i + 1 {
      Along(worlds, i, j, m - 1, name, p);
      assert MovedAt(worlds, m - 1, name);
      assert KeptBy(p, worlds[m - 1], worlds[m], name);
    }
  }

  // ---- a pass for an object that is not there ----

  /** Waiting at its first call for an object the server does not have. */
  ghost predicate Astray(w: World, name: string) {
    w.worker.Busy? && w.worker.pc.Defaults? && w.worker.local.name == name && name !in w.clusters
  }

  lemma AstrayStays(w: World, v: World, a: Action, name: string)
    requires Move(w, v, a, name) && Astray(w, name)
    ensures Astray(v, name)
  {
    if !a.Op? {
      OthersLeaveWorker(w, a);
    }
  }

  lemma AstrayMoved(w: World, v: World, name: string)
    requires Moved(w, v, name) && Astray(w, name)
    ensures Astray(v, name)
  {
    var a :| Move(w, v, a, name);
    AstrayStays(w, v, a, name);
  }

  lemma StaysAstray(worlds: seq<World>, i: nat, j: nat, name: string)
    requires i < j < |worlds| && AllMoved(worlds, i, j, name) && Astray(worlds[i + 1], name)
    ensures Astray(worlds[j], name)
  {
    ghost var p := (w: World) => Astray(w, name);
    forall w, v ensures KeptBy(p, w, v, name) {
      if Moved(w, v, name) && p(w) {
        AstrayMoved(w, v, name);
      }
    }
    Along(worlds, i, j, j, name, p);
  }

  lemma StaysOnCourse(worlds: seq<World>, i: nat, j: nat, g: Inputs, snapshot: Cluster)
    requires i < j < |worlds| && AllMoved(worlds, i, j, g.cluster) && OnCourse(worlds[i + 1], g, snapshot)
    ensures OnCourse(worlds[j], g, snapshot)
  {
    ghost var p := (w: World) => OnCourse(w, g, snapshot);
    forall w, v ensures KeptBy(p, w, v, g.cluster) {
      if Moved(w, v, g.cluster) && p(w) {
        MovedKeepsCourse(w, v, g, snapshot);
      }
    }
    Along(worlds, i, j, j, g.cluster, p);
  }

  // ---- main result ----

  /**
   In every run: a pass that begins with action i and takes its report with action j, while whatever
   others do in between spares its cluster, has found its object and leaves every managed field of
   every child at the goal that the state at i calls for, whatever happens to other clusters meanwhile,
   whichever version it started from, and whether or not the report itself goes through.
   */
  lemma PassConvergesInRun(worlds: seq<World>, actions: seq<Action>, i: nat, j: nat)
    requires PassWithin(worlds, actions, i, j)
    ensures var snapshot := SnapshotOf(worlds, actions, i);
            snapshot.name in worlds[i].clusters && Converged(worlds[j + 1].store, Goal(worlds[i], snapshot))
  {
    var snapshot := SnapshotOf(worlds, actions, i);
    var w := Begins(worlds, actions, i, j);
    PassMoves(worlds, actions, i, j);
    if snapshot.name !in w.clusters {
      StaysAstray(worlds, i, j, snapshot.name);
    }
    Launches(w, snapshot);
    StaysOnCourse(worlds, i, j, Goal(w, snapshot), snapshot);
    AllWritten(worlds[j], Goal(w, snapshot));
    OnlyWritesTouchStore(worlds[j], actions[j].call);
  }
}
