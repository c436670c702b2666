/** What every step of the control plane keeps. */
module ControlInv {
  import opened Autoscaler
  import opened Control
  import opened Ints
  import opened Json
  import opened Objects
  import opened Options
  import opened ShardMaps
  import opened StatusFields

  // ---- the invariant ----

  ghost predicate GoodVersion(v: Cluster, i: nat) {
    v.version == i && ValidSpec(v.spec) && Once(v.finalizers) && Sound(v.status)
  }

  ghost predicate LogOk(w: World) {
    forall i :: 0 <= i < |w.versions| ==> GoodVersion(w.versions[i], i)
  }

  /** c is, as a whole, a version that was persisted. */
  ghost predicate Held(versions: seq<Cluster>, c: Cluster) {
    c.version < |versions| && versions[c.version] == c
  }

  ghost predicate ServerOk(w: World) {
    forall n :: n in w.clusters ==> w.clusters[n].name == n && Held(w.versions, w.clusters[n])
  }

  /** Past the finalizer gate. */
  predicate Writing(pc: Pc) {
    !pc.Defaults? && !pc.Finalize?
  }

  /** Between listing the pods and the end of the pass. */
  predicate Publishing(pc: Pc) {
    pc == Write(ShardMapMap) || pc.Report?
  }

  ghost predicate ScaledBy(n: int, spec: Spec) {
    exists depth :: n == DecodeReplicas(BoundsOf(spec), depth)
  }

  ghost predicate ShowsShards(s: Status, pods: seq<Pod>, n: nat) {
    exists now :: s.shards == StatusOf(pods, n, now)
  }

  /** Past the autoscaling decision, if there was one to make. */
  predicate PastScale(pc: Pc) {
    (pc.Write? && !pc.slot.SignalsMap?) || pc.ListPods? || pc.Report?
  }

  ghost predicate ScalingOk(b: Worker)
    requires b.Busy?
  {
    && (!Writing(b.pc) ==> b.scaledTo.None?)
    && (b.pc.Scale? || b.pc == Write(SignalsMap) ==> Scales(b.local.spec))
    && (PastScale(b.pc) && Scales(b.local.spec) ==> b.scaledTo.Some?)
    && (b.scaledTo.Some? ==> Scales(b.local.spec) && ScaledBy(b.scaledTo.value, b.local.spec))
  }

  /** The pass has listed the pods and computed its map. */
  predicate Listed(b: Worker)
    requires b.Busy?
  {
    |b.mapText| > 0
  }

  /** Listed pods show in map text and status; before that the status shards are those that were persisted. */
  ghost predicate ListingOk(b: Worker, versions: seq<Cluster>)
    requires b.Busy? && b.local.version < |versions|
  {
    && (Publishing(b.pc) ==> Listed(b))
    && (Listed(b) ==>
          && (Publishing(b.pc) || b.pc.Degrade?)
          && ValidPods(b.listed) && b.mapText == Publish(MapOf(b.listed, ShardCount(b.local.spec)))
          && ShowsShards(b.local.status, b.listed, ShardCount(b.local.spec)))
    && (!Listed(b) ==> b.local.status.shards == versions[b.local.version].status.shards)
  }

  ghost predicate BusyOk(b: Worker, versions: seq<Cluster>, history: seq<Publication>)
    requires b.Busy?
  {
    && Held(versions, b.snapshot) && b.snapshot.name == b.local.name
    && b.local.version < |versions|
    && b.local.(status := versions[b.local.version].status) == versions[b.local.version]
    && Sound(b.local.status)
    && (!Writing(b.pc) ==> Held(versions, b.local))
    && (Writing(b.pc) ==> !b.local.deleting && FINALIZER in b.local.finalizers)
    && ScalingOk(b)
    && ListingOk(b, versions)
    && (b.pc.Report? ==>
          |history| > 0 && history[|history| - 1] == PublicationOf(b))
  }

  ghost predicate WorkerOk(w: World) {
    w.worker.Busy? ==> BusyOk(w.worker, w.versions, History(w, w.worker.local.name))
  }

  /** A version the operator may act on: it carries the finalizer and is not being deleted. */
  predicate Admissible(v: Cluster) {
    FINALIZER in v.finalizers && !v.deleting
  }

  /** Some version of the cluster the operator may act on asks for n shards, 8 standing for an unset count. */
  ghost predicate CountFrom(versions: seq<Cluster>, cluster: string, n: nat) {
    exists i :: 0 <= i < |versions| && versions[i].name == cluster && Admissible(versions[i])
                && versions[i].spec.numShards.GetOr(8) == n
  }

  /** A publication is a map of valid pods, for a shard count some version of the cluster asked for. */
  ghost predicate GoodPublication(p: Publication, versions: seq<Cluster>, cluster: string) {
    && 1 <= p.numShards <= MAX32 && ValidPods(p.pods) && p.text == Publish(MapOf(p.pods, p.numShards))
    && CountFrom(versions, cluster, p.numShards)
  }

  ghost predicate HistoryOk(w: World) {
    forall c, k :: 0 <= k < |History(w, c)| ==> GoodPublication(History(w, c)[k], w.versions, c)
  }

  function Latest(history: seq<Publication>): Option<string> {
    if |history| == 0 then None else Some(history[|history| - 1].text)
  }

  /** A stored shard map is the latest one the operator published for that cluster. */
  ghost predicate MapsOk(w: World) {
    forall c :: MapData(w.store, c) == None || MapData(w.store, c) == Latest(History(w, c))
  }

  ghost predicate Inv(w: World) {
    LogOk(w) && ServerOk(w) && WorkerOk(w) && HistoryOk(w) && MapsOk(w) && ValidPods(w.pods)
  }

  // ---- persisting ----

  /** Everything but the cluster objects and their log. */
  ghost predicate SameElse(w: World, v: World) {
    && v.namespace == w.namespace && v.store == w.store && v.pods == w.pods && v.published == w.published
    && v.worker == w.worker && v.strconv == w.strconv
  }

  lemma PersistLog(w: World, c: Cluster)
    requires LogOk(w) && ValidSpec(c.spec) && Once(c.finalizers) && Sound(c.status)
    ensures LogOk(Persist(w, c))
  {
    var v := Persist(w, c);
    forall i | 0 <= i < |v.versions| ensures GoodVersion(v.versions[i], i) {
      if i < |w.versions| {
        assert GoodVersion(w.versions[i], i);
      }
    }
  }

  lemma PersistServer(w: World, c: Cluster)
    requires ServerOk(w)
    ensures var v := Persist(w, c);
            && ServerOk(v) && w.versions <= v.versions && SameElse(w, v)
            && c.name in v.clusters && v.clusters[c.name] == c.(version := v.clusters[c.name].version)
  {
    var v := Persist(w, c);
    forall n | n in v.clusters ensures v.clusters[n].name == n && Held(v.versions, v.clusters[n]) {
      if n in w.clusters {
        assert w.clusters[n].name == n && Held(w.versions, w.clusters[n]);
      }
    }
  }

  lemma PersistKeeps(w: World, c: Cluster)
    requires LogOk(w) && ServerOk(w)
    requires ValidSpec(c.spec) && Once(c.finalizers) && Sound(c.status)
    ensures var v := Persist(w, c);
            && LogOk(v) && ServerOk(v) && w.versions <= v.versions && SameElse(w, v)
            && c.name in v.clusters && v.clusters[c.name] == c.(version := v.clusters[c.name].version)
  {
    PersistLog(w, c);
    PersistServer(w, c);
  }

  lemma BusyStable(b: Worker, versions: seq<Cluster>, more: seq<Cluster>, history: seq<Publication>)
    requires b.Busy? && BusyOk(b, versions, history) && versions <= more
    ensures BusyOk(b, more, history)
  {
  }

  lemma CountStable(versions: seq<Cluster>, more: seq<Cluster>, c: string, n: nat)
    requires CountFrom(versions, c, n) && versions <= more
    ensures CountFrom(more, c, n)
  {
    var i :| 0 <= i < |versions| && versions[i].name == c && Admissible(versions[i])
             && versions[i].spec.numShards.GetOr(8) == n;
    assert more[i] == versions[i];
  }

  lemma CoreStable(w: World, v: World)
    requires LogOk(w) && ServerOk(w) && v.versions == w.versions && v.clusters == w.clusters
    ensures LogOk(v) && ServerOk(v)
  {
  }

  lemma HistoryStable(w: World, v: World)
    requires HistoryOk(w) && w.versions <= v.versions && v.published == w.published
    ensures HistoryOk(v)
  {
    forall c, k | 0 <= k < |History(v, c)| ensures GoodPublication(History(v, c)[k], v.versions, c) {
      assert History(v, c) == History(w, c);
      assert GoodPublication(History(w, c)[k], w.versions, c);
      CountStable(w.versions, v.versions, c, History(w, c)[k].numShards);
    }
  }

  lemma MapsStable(w: World, v: World)
    requires MapsOk(w) && v.store == w.store && v.published == w.published
    ensures MapsOk(v)
  {
    forall c ensures MapData(v.store, c) == None || MapData(v.store, c) == Latest(History(v, c)) {
      assert MapData(w.store, c) == None || MapData(w.store, c) == Latest(History(w, c));
    }
  }

  /** A new cluster version keeps the whole invariant while the worker stays where it is. */
  lemma PersistInv(w: World, c: Cluster)
    requires Inv(w)
    requires ValidSpec(c.spec) && Once(c.finalizers) && Sound(c.status)
    ensures Inv(Persist(w, c)) && Inv(Stop(Persist(w, c)))
  {
    var v := Persist(w, c);
    PersistKeeps(w, c);
    if w.worker.Busy? {
      BusyStable(w.worker, w.versions, v.versions, History(w, w.worker.local.name));
    }
    HistoryStable(w, v);
    MapsStable(w, v);
    StopInv(v);
  }

  lemma StopInv(w: World)
    requires Inv(w)
    ensures Inv(Stop(w))
  {
    HistoryStable(w, Stop(w));
    MapsStable(w, Stop(w));
  }

  lemma RemoveInv(w: World, name: string)
    requires Inv(w)
    ensures Inv(w.(clusters := w.clusters - {name}))
  {
    var v := w.(clusters := w.clusters - {name});
    HistoryStable(w, v);
    MapsStable(w, v);
  }

  /** Only the worker's own state changes. */
  lemma WorkerInv(w: World, b: Worker)
    requires Inv(w) && b.Busy? && BusyOk(b, w.versions, History(w, b.local.name))
    ensures Inv(w.(worker := b))
  {
    var v := w.(worker := b);
    HistoryStable(w, v);
    MapsStable(w, v);
  }

  // ---- the worker's steps ----

  lemma ServerFacts(w: World, name: string)
    requires Inv(w) && name in w.clusters
    ensures var c := w.clusters[name];
            c.name == name && Held(w.versions, c) && GoodVersion(c, c.version)
  {
  }

  lemma DefaultsValid(snapshot: Spec, server: Spec)
    requires ValidSpec(server)
    ensures ValidSpec(PatchDefaults(snapshot, server))
  {
  }

  lemma RespecInv(w: World, name: string, spec: Spec)
    requires Inv(w) && name in w.clusters && ValidSpec(spec)
    ensures var v := Respec(w, w.clusters[name], spec);
            && Inv(v) && Inv(Stop(v)) && w.versions <= v.versions && SameElse(w, v)
            && name in v.clusters && v.clusters[name].name == name && v.clusters[name].spec == spec
  {
    ServerFacts(w, name);
    var c := w.clusters[name];
    var c' := if spec == c.spec then c else c.(spec := spec, generation := c.generation + 1);
    assert Respec(w, c, spec) == Persist(w, c');
    PersistInv(w, c');
    PersistServer(w, c');
  }

  lemma RefreshedOk(b: Worker, pc: Pc, c: Cluster, versions: seq<Cluster>, history: seq<Publication>)
    requires b.Busy? && BusyOk(b, versions, history) && !Writing(b.pc)
    requires Held(versions, c) && c.name == b.local.name && Sound(c.status)
    requires pc.Finalize? || (pc == First(c.spec) && !c.deleting && FINALIZER in c.finalizers)
    ensures BusyOk(b.(pc := pc, local := c), versions, history)
  {
  }

  lemma RefreshInv(w: World, pc: Pc)
    requires Inv(w) && w.worker.Busy? && !Writing(w.worker.pc)
    requires w.worker.local.name in w.clusters
    requires var c := w.clusters[w.worker.local.name];
             pc.Finalize? || (pc == First(c.spec) && !c.deleting && FINALIZER in c.finalizers)
    ensures Inv(w.(worker := w.worker.(pc := pc, local := w.clusters[w.worker.local.name])))
  {
    var name := w.worker.local.name;
    ServerFacts(w, name);
    RefreshedOk(w.worker, pc, w.clusters[name], w.versions, History(w, name));
    WorkerInv(w, w.worker.(pc := pc, local := w.clusters[name]));
  }

  lemma DefaultsInv(w: World, call: Call)
    requires Inv(w) && w.worker.Busy? && w.worker.pc.Defaults?
    ensures Inv(DefaultsStep(w, call))
  {
    var b := w.worker;
    var name := b.local.name;
    if name !in w.clusters || !Takes(call.outcome) {
      StopInv(w);
    } else {
      ServerFacts(w, name);
      var spec := PatchDefaults(b.snapshot.spec, w.clusters[name].spec);
      DefaultsValid(b.snapshot.spec, w.clusters[name].spec);
      RespecInv(w, name, spec);
      var v := Respec(w, w.clusters[name], spec);
      if call.outcome.Lost? {
        assert DefaultsStep(w, call) == Stop(v);
      } else {
        assert DefaultsStep(w, call) == v.(worker := b.(pc := Finalize, local := v.clusters[name]));
        RefreshInv(v, Finalize);
      }
    }
  }

  lemma {:induction false} WithoutGone(fs: seq<string>, f: string)
    ensures f !in Without(fs, f)
    ensures forall g :: g != f ==> (g in Without(fs, f) <==> g in fs)
  {
    if |fs| > 0 {
      WithoutGone(fs[1..], f);
      assert fs == [fs[0]] + fs[1..];
    }
  }

  lemma OnceWhenAbsent(fs: seq<string>)
    requires FINALIZER !in fs
    ensures Once(fs) && Once(fs + [FINALIZER])
  {
  }

  lemma HeldIsCurrent(w: World, c: Cluster)
    requires Inv(w) && Held(w.versions, c) && Current(w, c)
    ensures w.clusters[c.name] == c && GoodVersion(c, c.version)
  {
    ServerFacts(w, c.name);
  }

  lemma ReleaseInv(w: World, local: Cluster)
    requires Inv(w) && Held(w.versions, local) && Current(w, local)
    ensures Inv(Stop(SetFinalizers(w, local, Without(local.finalizers, FINALIZER))))
  {
    var fs := Without(local.finalizers, FINALIZER);
    HeldIsCurrent(w, local);
    WithoutGone(local.finalizers, FINALIZER);
    OnceWhenAbsent(fs);
    if local.deleting && |fs| == 0 {
      RemoveInv(w, local.name);
      StopInv(w.(clusters := w.clusters - {local.name}));
    } else {
      PersistInv(w, local.(finalizers := fs));
    }
  }

  lemma AcquireInv(w: World)
    requires Inv(w) && w.worker.Busy? && w.worker.pc.Finalize?
    requires !w.worker.local.deleting && FINALIZER !in w.worker.local.finalizers && Current(w, w.worker.local)
    ensures var b, local := w.worker, w.worker.local;
            var v := Persist(w, local.(finalizers := local.finalizers + [FINALIZER]));
            && local.name in v.clusters && Inv(Stop(v))
            && Inv(v.(worker := b.(pc := First(local.spec), local := v.clusters[local.name])))
  {
    var local := w.worker.local;
    var c := local.(finalizers := local.finalizers + [FINALIZER]);
    HeldIsCurrent(w, local);
    OnceWhenAbsent(local.finalizers);
    PersistInv(w, c);
    PersistKeeps(w, c);
    RefreshInv(Persist(w, c), First(local.spec));
  }

  lemma FinalizeInv(w: World, call: Call)
    requires Inv(w) && w.worker.Busy? && w.worker.pc.Finalize?
    ensures Inv(FinalizeStep(w, call))
  {
    var b := w.worker;
    var local := b.local;
    if local.deleting && FINALIZER in local.finalizers && Takes(call.outcome) && Current(w, local) {
      ReleaseInv(w, local);
    } else if !local.deleting && FINALIZER in local.finalizers {
      WorkerInv(w, b.(pc := First(local.spec)));
      assert FinalizeStep(w, call) == w.(worker := b.(pc := First(local.spec)));
    } else if !local.deleting && Takes(call.outcome) && Current(w, local) {
      AcquireInv(w);
      var v := Persist(w, local.(finalizers := local.finalizers + [FINALIZER]));
      if call.outcome.Lost? {
        assert FinalizeStep(w, call) == Stop(v);
      } else {
        assert FinalizeStep(w, call) == v.(worker := b.(pc := First(local.spec), local := v.clusters[local.name]));
      }
    } else {
      assert FinalizeStep(w, call) == Stop(w);
      StopInv(w);
    }
  }

  /** Create-or-update of a child leaves every other object of the store alone. */
  lemma EnsureFrame(store: Store, slot: Slot, i: Inputs, c: string, t: Slot)
    requires Ensure(store, slot, i).Some? && !(c == i.cluster && t == slot)
    ensures var s := Ensure(store, slot, i).value;
            Existing(s, KeyOf(c, t)) == Existing(store, KeyOf(c, t)) && (KeyOf(c, t) in s <==> KeyOf(c, t) in store)
  {
    if KeyOf(c, t) == KeyOf(i.cluster, slot) {
      KeysApart(c, t, i.cluster, slot);
    }
  }

  lemma EnsureMap(store: Store, i: Inputs)
    requires Ensure(store, ShardMapMap, i).Some?
    ensures MapData(Ensure(store, ShardMapMap, i).value, i.cluster) == Some(i.mapText)
  {
  }

  /** The only shard map a child write can change is the one it is for. */
  ghost predicate MapsAfter(before: Store, after: Store, slot: Slot, cluster: string, text: string) {
    forall c :: MapData(after, c) == if slot.ShardMapMap? && c == cluster then Some(text) else MapData(before, c)
  }

  lemma EnsureMaps(store: Store, slot: Slot, i: Inputs, after: Store)
    requires Ensure(store, slot, i) == Some(after)
    ensures MapsAfter(store, after, slot, i.cluster, i.mapText)
  {
    forall c
      ensures MapData(after, c) == if slot.ShardMapMap? && c == i.cluster then Some(i.mapText) else MapData(store, c)
    {
      if slot.ShardMapMap? && c == i.cluster {
        EnsureMap(store, i);
      } else {
        EnsureFrame(store, slot, i, c, ShardMapMap);
      }
    }
  }

  lemma WroteMaps(w: World, slot: Slot, store: Store)
    requires MapsOk(w) && w.worker.Busy?
    requires MapsAfter(w.store, store, slot, w.worker.local.name, w.worker.mapText)
    ensures MapsOk(Wrote(w, slot, store))
  {
    var v := Wrote(w, slot, store);
    forall c ensures MapData(v.store, c) == None || MapData(v.store, c) == Latest(History(v, c)) {
      assert MapData(w.store, c) == None || MapData(w.store, c) == Latest(History(w, c));
    }
  }

  lemma LocalCounts(w: World)
    requires Inv(w) && w.worker.Busy? && Writing(w.worker.pc)
    ensures var local := w.worker.local;
            CountFrom(w.versions, local.name, ShardCount(local.spec)) && 1 <= ShardCount(local.spec) <= MAX32
  {
    var v := w.versions[w.worker.local.version];
    assert GoodVersion(v, w.worker.local.version);
    ShardCountIs(v.spec);
    assert v.name == w.worker.local.name && Admissible(v);
  }

  lemma WroteHistory(w: World, slot: Slot, store: Store)
    requires Inv(w) && w.worker.Busy? && w.worker.pc == Write(slot)
    ensures HistoryOk(Wrote(w, slot, store))
  {
    var v := Wrote(w, slot, store);
    var local := w.worker.local;
    forall c, k | 0 <= k < |History(v, c)| ensures GoodPublication(History(v, c)[k], v.versions, c) {
      if slot.ShardMapMap? && c == local.name && k == |History(w, c)| {
        LocalCounts(w);
      } else {
        assert History(v, c)[k] == History(w, c)[k];
        assert GoodPublication(History(w, c)[k], w.versions, c);
      }
    }
  }

  lemma NextScaling(b: Worker, slot: Slot, pc: Pc)
    requires b.Busy? && b.pc == Write(slot) && ScalingOk(b) && (pc == After(slot) || pc.Degrade?)
    ensures ScalingOk(b.(pc := pc)) && Writing(pc)
  {
  }

  lemma NextListing(b: Worker, slot: Slot, pc: Pc, versions: seq<Cluster>)
    requires b.Busy? && b.pc == Write(slot) && b.local.version < |versions| && ListingOk(b, versions)
    requires pc == After(slot) || pc.Degrade?
    ensures ListingOk(b.(pc := pc), versions) && (pc.Report? ==> slot.ShardMapMap?)
  {
    assert Publishing(pc) <==> pc.Report?;
  }

  lemma NextOk(b: Worker, slot: Slot, pc: Pc, versions: seq<Cluster>, history: seq<Publication>,
               after: seq<Publication>)
    requires b.Busy? && b.pc == Write(slot) && BusyOk(b, versions, history)
    requires pc == After(slot) || pc.Degrade?
    requires slot.ShardMapMap? ==> after == history + [PublicationOf(b)]
    ensures BusyOk(b.(pc := pc), versions, after)
  {
    NextScaling(b, slot, pc);
    NextListing(b, slot, pc, versions);
  }

  lemma WroteWorker(w: World, slot: Slot, store: Store, pc: Pc)
    requires WorkerOk(w) && w.worker.Busy? && w.worker.pc == Write(slot)
    requires pc == After(slot) || pc.Degrade?
    ensures WorkerOk(Goto(Wrote(w, slot, store), pc))
  {
    var b := w.worker;
    var u := Goto(Wrote(w, slot, store), pc);
    NextOk(b, slot, pc, w.versions, History(w, b.local.name), History(u, b.local.name));
  }

  lemma WroteInv(w: World, slot: Slot, store: Store, pc: Pc)
    requires Inv(w) && w.worker.Busy? && w.worker.pc == Write(slot)
    requires MapsAfter(w.store, store, slot, w.worker.local.name, w.worker.mapText)
    requires pc == After(slot) || pc.Degrade?
    ensures Inv(Goto(Wrote(w, slot, store), pc))
  {
    var v := Wrote(w, slot, store);
    var u := Goto(v, pc);
    WroteMaps(w, slot, store);
    WroteHistory(w, slot, store);
    MapsStable(v, u);
    HistoryStable(v, u);
    WroteWorker(w, slot, store, pc);
    CoreStable(w, u);
  }

  lemma ToDegradeInv(w: World)
    requires Inv(w) && w.worker.Busy? && Writing(w.worker.pc)
    ensures Inv(Goto(w, Degrade))
  {
    WorkerInv(w, w.worker.(pc := Degrade));
  }

  lemma WriteInv(w: World, call: Call, slot: Slot)
    requires Inv(w) && w.worker.Busy? && w.worker.pc == Write(slot)
    ensures Inv(WriteStep(w, call, slot))
  {
    var ensured := Ensure(w.store, slot, InputsOf(w));
    if PortMissing(slot, w.worker.local.spec) {
      StopInv(w);
    } else if ensured.None? || !Takes(call.outcome) {
      ToDegradeInv(w);
    } else {
      EnsureMaps(w.store, slot, InputsOf(w), ensured.value);
      WroteInv(w, slot, ensured.value, if call.outcome.Lost? then Degrade else After(slot));
    }
  }

  lemma DecidedOk(b: Worker, depth: Float, now: int, versions: seq<Cluster>, history: seq<Publication>)
    requires b.Busy? && b.pc.Scale? && BusyOk(b, versions, history)
    ensures var bounds := BoundsOf(b.local.spec);
            var n := DecodeReplicas(bounds, depth);
            var conds := SetCondition(b.local.status.conditions, ScalingCondition(n, bounds, b.local.generation, now));
            BusyOk(b.(pc := Write(DecodeService), scaledTo := Some(n),
                      local := b.local.(status := b.local.status.(conditions := conds))), versions, history)
  {
    var bounds := BoundsOf(b.local.spec);
    var n := DecodeReplicas(bounds, depth);
    assert SCALING != READY && SCALING != DEGRADED by {
      assert |SCALING| == 7 && |READY| == 5 && |DEGRADED| == 8;
    }
    SetOther(b.local.status, ScalingCondition(n, bounds, b.local.generation, now));
    assert ScaledBy(n, b.local.spec);
  }

  lemma ScaleInv(w: World, call: Call)
    requires Inv(w) && w.worker.Busy? && w.worker.pc.Scale?
    ensures Inv(ScaleStep(w, call))
  {
    var b := w.worker;
    var key := KeyOf(b.local.name, SignalsMap);
    if b.local.spec.autoscaling.source == "prometheus" || !call.outcome.Done? || key !in w.store {
      ToDegradeInv(w);
    } else {
      var depth := ReadSignals(Existing(w.store, key).data, w.strconv).queueDepth;
      DecidedOk(b, depth, call.now, w.versions, History(w, b.local.name));
      WorkerInv(w, ScaleStep(w, call).worker);
    }
  }

  lemma {:induction false} SelectMembers(pods: seq<Pod>, selector: Labels)
    ensures forall p :: p in Select(pods, selector) ==> p in pods && Matches(selector, p.labels)
  {
    if |pods| > 0 {
      SelectMembers(pods[..|pods| - 1], selector);
    }
  }

  lemma BagSnoc(s: seq<Pod>, x: Pod, p: Pod)
    ensures multiset(s + [x])[p] == multiset(s)[p] + if x == p then 1 else 0
  {
  }

  /** Listing by a selector finds every matching pod exactly as often as it exists, and no other. */
  lemma {:induction false} SelectExactly(pods: seq<Pod>, selector: Labels, p: Pod)
    ensures multiset(Select(pods, selector))[p] == if Matches(selector, p.labels) then multiset(pods)[p] else 0
  {
    if |pods| > 0 {
      var front, last := pods[..|pods| - 1], pods[|pods| - 1];
      SelectExactly(front, selector, p);
      BagSnoc(front, last, p);
      BagSnoc(Select(front, selector), last, p);
      assert pods == front + [last];
      if !Matches(selector, last.labels) {
        assert Select(pods, selector) == Select(front, selector);
      }
    }
  }

  /** The pods a map is computed from are those labelled as decode pods of the cluster. */
  lemma DecodePodsExactly(w: World, cluster: string, p: Pod)
    ensures multiset(DecodePods(w, cluster))[p]
            == if Matches(LabelsFor(cluster, "decode"), p.labels) then multiset(w.pods)[p] else 0
  {
    SelectExactly(w.pods, LabelsFor(cluster, "decode"), p);
  }

  lemma ListedValid(w: World, cluster: string, listed: seq<Pod>)
    requires ValidPods(w.pods) && multiset(listed) == multiset(DecodePods(w, cluster))
    ensures ValidPods(listed)
  {
    SelectMembers(w.pods, LabelsFor(cluster, ROLE_DECODE));
    forall p | p in listed ensures ValidName(p.name) {
      assert p in multiset(listed);
      assert p in DecodePods(w, cluster);
    }
  }

  lemma MapTextShows(pods: seq<Pod>, n: nat)
    ensures |Publish(MapOf(pods, n))| > 0
  {
    RenderHead(Document(MapOf(pods, n)));
  }

  lemma ListInv(w: World, call: Call)
    requires Inv(w) && w.worker.Busy? && w.worker.pc.ListPods?
    requires multiset(call.listed) == multiset(DecodePods(w, w.worker.local.name))
    ensures Inv(ListStep(w, call))
  {
    var b := w.worker;
    var v := ListStep(w, call);
    if !call.outcome.Done? {
      ToDegradeInv(w);
    } else {
      ListedValid(w, b.local.name, call.listed);
      MapTextShows(call.listed, ShardCount(b.local.spec));
      assert ShowsShards(v.worker.local.status, call.listed, ShardCount(b.local.spec));
      WorkerInv(w, v.worker);
    }
  }

  lemma ReportedSound(w: World, now: int)
    requires Inv(w) && w.worker.Busy?
    ensures Sound(Reported(w, now))
  {
    var local := w.worker.local;
    var s := local.status.(observedGeneration := local.generation, endpoints := EndpointsOf(InputsOf(w)));
    OutcomeSound(s, true, ("Reconciled", "Healthy"), ("Resources are reconciled", "No reconciliation errors"),
                 local.generation, now);
  }

  lemma ReportInv(w: World, call: Call)
    requires Inv(w) && w.worker.Busy? && w.worker.pc.Report?
    ensures Inv(ReportStep(w, call))
  {
    var b := w.worker;
    StopInv(w);
    if b.local.name in w.clusters {
      var server := w.clusters[b.local.name];
      ServerFacts(w, b.local.name);
      ReportedSound(w, call.now);
      PatchSound(b.snapshot.status, Reported(w, call.now), server.status);
      PersistInv(w, server.(status := PatchStatus(b.snapshot.status, Reported(w, call.now), server.status)));
    }
  }

  lemma DegradeInv(w: World, call: Call)
    requires Inv(w) && w.worker.Busy? && w.worker.pc.Degrade?
    ensures Inv(DegradeStep(w, call))
  {
    var local := w.worker.local;
    StopInv(w);
    if Current(w, local) {
      var server := w.clusters[local.name];
      ServerFacts(w, local.name);
      OutcomeSound(local.status, false, ("Error", "ReconcileError"), (call.message, call.message),
                   local.generation, call.now);
      PersistInv(w, server.(status := Failed(w, call)));
    }
  }

  lemma StepInv(w: World, call: Call)
    requires Inv(w) && w.worker.Busy?
    requires w.worker.pc.ListPods? ==> multiset(call.listed) == multiset(DecodePods(w, w.worker.local.name))
    ensures Inv(Step(w, call))
  {
    match w.worker.pc
    case Defaults => DefaultsInv(w, call);
    case Finalize => FinalizeInv(w, call);
    case Write(slot) => WriteInv(w, call, slot);
    case Scale => ScaleInv(w, call);
    case ListPods => ListInv(w, call);
    case Report => ReportInv(w, call);
    case Degrade => DegradeInv(w, call);
  }

  /** The steps between the gate and the end of a pass touch no cluster object. */
  lemma MiddleSame(w: World, call: Call)
    requires w.worker.Busy? && (w.worker.pc.Write? || w.worker.pc.Scale? || w.worker.pc.ListPods?)
    ensures Step(w, call).clusters == w.clusters && Step(w, call).versions == w.versions
    ensures Step(w, call).worker.Busy? ==> Step(w, call).worker.local.name == w.worker.local.name
  {
    match w.worker.pc
    case Write(slot) => assert Step(w, call) == WriteStep(w, call, slot);
    case Scale => assert Step(w, call) == ScaleStep(w, call);
    case ListPods => assert Step(w, call) == ListStep(w, call);
  }

  // ---- everyone else's steps ----

  lemma BeginInv(w: World, k: nat)
    requires Inv(w) && w.worker.Idle? && k < |w.versions|
    ensures Inv(Start(w, w.versions[k]))
  {
    assert GoodVersion(w.versions[k], k);
    WorkerInv(w, Start(w, w.versions[k]).worker);
  }

  lemma MarkInv(w: World, name: string, c: Cluster)
    requires Inv(w) && name in w.clusters
    requires var s := w.clusters[name];
             c == s || c == s.(deleting := true, generation := s.generation + 1)
    ensures Inv(Persist(w, c))
  {
    ServerFacts(w, name);
    PersistInv(w, c);
  }

  lemma DeleteInv(w: World, name: string)
    requires Inv(w) && name in w.clusters
    ensures Inv(DeleteCluster(w, w.clusters[name]))
  {
    var c := w.clusters[name];
    ServerFacts(w, name);
    if |c.finalizers| == 0 {
      RemoveInv(w, name);
    } else if c.deleting {
      MarkInv(w, name, c);
    } else {
      MarkInv(w, name, c.(deleting := true, generation := c.generation + 1));
    }
  }

  lemma EditStoreInv(w: World, store: Store)
    requires Inv(w) && LeavesMaps(w.store, store)
    ensures Inv(w.(store := store))
  {
    var v := w.(store := store);
    HistoryStable(w, v);
    forall c ensures MapData(v.store, c) == None || MapData(v.store, c) == Latest(History(v, c)) {
      assert MapData(w.store, c) == None || MapData(w.store, c) == Latest(History(w, c));
    }
  }

  lemma EditFinalizersInv(w: World, name: string, finalizers: seq<string>)
    requires Inv(w) && name in w.clusters && Once(finalizers)
    ensures Inv(SetFinalizers(w, w.clusters[name], finalizers))
  {
    ServerFacts(w, name);
    if w.clusters[name].deleting && |finalizers| == 0 {
      RemoveInv(w, name);
    } else {
      PersistInv(w, w.clusters[name].(finalizers := finalizers));
    }
  }

  lemma SetPodsInv(w: World, pods: seq<Pod>)
    requires Inv(w) && ValidPods(pods)
    ensures Inv(w.(pods := pods))
  {
    HistoryStable(w, w.(pods := pods));
    MapsStable(w, w.(pods := pods));
  }

  lemma ApplyInv(w: World, a: Action)
    requires Inv(w) && Enabled(w, a)
    ensures Inv(Apply(w, a))
  {
    match a
    case Op(call) => StepInv(w, call);
    case Begin(k) => BeginInv(w, k);
    case Create(name, spec) => PersistInv(w, Cluster(name, 1, 0, false, [], spec, EMPTY_STATUS));
    case EditSpec(name, spec) => RespecInv(w, name, spec);
    case EditFinalizers(name, finalizers) => EditFinalizersInv(w, name, finalizers);
    case Delete(name) => DeleteInv(w, name);
    case SetPods(pods) => SetPodsInv(w, pods);
    case EditStore(store) => EditStoreInv(w, store);
  }

  lemma InitialInv(w: World)
    requires Initial(w)
    ensures Inv(w)
  {
  }

  /** The invariant holds in every state of every run. */
  lemma {:induction false} InvAlongRun(worlds: seq<World>, actions: seq<Action>, i: nat)
    requires Run(worlds, actions) && i < |worlds|
    ensures Inv(worlds[i])
  {
    if i == 0 {
      InitialInv(worlds[0]);
    } else {
      InvAlongRun(worlds, actions, i - 1);
      ApplyInv(worlds[i - 1], actions[i - 1]);
    }
  }
}
