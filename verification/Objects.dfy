/**
 The child objects of a cluster and the mutations that bring each one to its desired state. Every
 object carries a part ("other") that the operator never writes.
 */
module Objects {
  import opened Autoscaler
  import opened Decimal
  import opened Options
  import opened Ordering
  import opened ShardMaps

  type Labels = map<string, string>

  datatype EnvValue = Literal(text: string) | FieldRef(path: string)
  datatype EnvVar = EnvVar(name: string, value: EnvValue)
  datatype Port = Port(name: string, number: int)

  // ---- spec ----

  datatype RoleSpec = RoleSpec(replicas: Option<int>, servicePort: Option<int>, podLabels: Labels)

  datatype Autoscaling =
    Autoscaling(enabled: Option<bool>, minReplicas: Option<int>, maxReplicas: Option<int>, source: string)

  datatype Spec = Spec(
    image: string, args: seq<string>, env: seq<EnvVar>,
    prefill: RoleSpec, decode: RoleSpec,
    strategy: string, numShards: Option<int>, evictionPolicy: string, warmCache: string,
    mode: string, hashKey: Option<string>, routerReplicas: Option<int>,
    autoscaling: Autoscaling)

  function NumShards(spec: Spec): int {
    spec.numShards.GetOr(8)
  }

  function BoundsOf(spec: Spec): Bounds {
    Bounds(spec.decode.replicas, spec.autoscaling.minReplicas, spec.autoscaling.maxReplicas)
  }

  predicate Scales(spec: Spec) {
    spec.autoscaling.enabled == Some(true)
  }

  // ---- objects ----

  datatype Meta = Meta(labels: Labels, owner: Option<string>, other: string)

  datatype Container = Container(
    name: string, image: string, pullPolicy: string, args: seq<string>,
    env: seq<EnvVar>, ports: seq<Port>, other: string)

  datatype Object =
    | Service(meta: Meta, selector: Labels, ports: seq<Port>, other: string)
    | Deployment(meta: Meta, replicas: int, selector: Labels, podLabels: Labels,
                 serviceAccount: string, containers: seq<Container>, other: string)
    | ConfigMap(meta: Meta, data: map<string, string>)
    | ServiceAccount(meta: Meta)
    | Role(meta: Meta, resources: seq<string>, verbs: seq<string>)
    | RoleBinding(meta: Meta, roleName: string, subject: string)

  datatype Kind = ServiceKind | DeploymentKind | ConfigMapKind | AccountKind | RoleKind | BindingKind

  function KindOf(o: Object): Kind {
    match o
    case Service(_, _, _, _) => ServiceKind
    case Deployment(_, _, _, _, _, _, _) => DeploymentKind
    case ConfigMap(_, _) => ConfigMapKind
    case ServiceAccount(_) => AccountKind
    case Role(_, _, _) => RoleKind
    case RoleBinding(_, _, _) => BindingKind
  }

  /** What a create call starts from. */
  function Blank(kind: Kind): (o: Object)
    ensures KindOf(o) == kind
  {
    var meta := Meta(map[], None, "");
    match kind
    case ServiceKind => Service(meta, map[], [], "")
    case DeploymentKind => Deployment(meta, 1, map[], map[], "", [], "")
    case ConfigMapKind => ConfigMap(meta, map[])
    case AccountKind => ServiceAccount(meta)
    case RoleKind => Role(meta, [], [])
    case BindingKind => RoleBinding(meta, "", "")
  }

  datatype Key = Key(kind: Kind, name: string)
  type Store = map<Key, Object>

  /** The object under a key; the API server keeps objects of one kind per key kind. */
  function Existing(store: Store, key: Key): (o: Object)
    ensures KindOf(o) == key.kind
  {
    if key in store && KindOf(store[key]) == key.kind then store[key] else Blank(key.kind)
  }

  // ---- labels and names ----

  const NAME_LABEL := "app.kubernetes.io/name"
  const PART_LABEL := "app.kubernetes.io/part-of"
  const OPERATOR := "llm-inference-operator"
  const CLUSTER_LABEL := "inference.llm.io/cluster"
  const ROLE_LABEL := "inference.llm.io/role"

  function BaseLabels(cluster: string): Labels {
    map[NAME_LABEL := OPERATOR, PART_LABEL := OPERATOR, CLUSTER_LABEL := cluster]
  }

  function RoleLabels(base: Labels, role: string): Labels {
    base[ROLE_LABEL := role]
  }

  function LabelsFor(cluster: string, role: string): Labels {
    RoleLabels(BaseLabels(cluster), role)
  }

  /** The labels of the children of a cluster, by role. */
  lemma LabelsAre(cluster: string, role: string)
    ensures LabelsFor(cluster, role)
            == map["app.kubernetes.io/name" := "llm-inference-operator",
                   "app.kubernetes.io/part-of" := "llm-inference-operator",
                   "inference.llm.io/cluster" := cluster, "inference.llm.io/role" := role]
  {
    LabelKeysDiffer();
  }

  /** A selector matches labels that contain all of its pairs. */
  predicate Matches(selector: Labels, labels: Labels) {
    forall k :: k in selector ==> k in labels && labels[k] == selector[k]
  }

  function ChildName(cluster: string, suffix: string): string {
    cluster + "-" + suffix
  }

  // ---- slots: the children of one cluster, in the order they are written ----

  datatype Slot =
    | SignalsMap
    | DecodeService | PrefillService | RouterService
    | RouterAccount | RouterRole | RouterBinding
    | DecodeDeployment | PrefillDeployment | RouterDeployment
    | ShardMapMap

  function Suffix(slot: Slot): string {
    match slot
    case SignalsMap => "signals"
    case DecodeService => "decode"
    case PrefillService => "prefill"
    case RouterService => "router"
    case RouterAccount => "router"
    case RouterRole => "router"
    case RouterBinding => "router"
    case DecodeDeployment => "decode"
    case PrefillDeployment => "prefill"
    case RouterDeployment => "router"
    case ShardMapMap => "shardmap"
  }

  function SlotKind(slot: Slot): Kind {
    match slot
    case SignalsMap => ConfigMapKind
    case DecodeService => ServiceKind
    case PrefillService => ServiceKind
    case RouterService => ServiceKind
    case RouterAccount => AccountKind
    case RouterRole => RoleKind
    case RouterBinding => BindingKind
    case DecodeDeployment => DeploymentKind
    case PrefillDeployment => DeploymentKind
    case RouterDeployment => DeploymentKind
    case ShardMapMap => ConfigMapKind
  }

  function KeyOf(cluster: string, slot: Slot): Key {
    Key(SlotKind(slot), ChildName(cluster, Suffix(slot)))
  }

  // ---- desired state ----

  /** Everything the desired children are a function of. */
  datatype Inputs = Inputs(cluster: string, namespace: string, spec: Spec, scaledTo: Option<int>, mapText: string)

  function EnvName(e: EnvVar): string {
    e.name
  }

  function BuildEnv(env: seq<EnvVar>): seq<EnvVar> {
    Sort(env, EnvName)
  }

  method BuildEnvVars(env: seq<EnvVar>) returns (out: seq<EnvVar>)
    ensures out == BuildEnv(env)
    ensures multiset(out) == multiset(env)
    ensures forall i, j :: 0 <= i < j < |out| ==> !Precedes(out[j].name, out[i].name)
  {
    SortLexicographic(env, EnvName);
    SortPermutes(env, EnvName);
    var copied: seq<EnvVar> := [];
    for i := 0 to |env|
      invariant copied == env[..i]
    {
      copied := copied + [EnvVar(env[i].name, env[i].value)];
    }
    assert copied == env;
    if |env| == 0 {
      return [];
    }
    var a := new EnvVar[|copied|](i requires 0 <= i < |copied| => copied[i]);
    assert a[..] == copied;
    SortInPlace(a, EnvName);
    out := a[..];
  }

  function ServicePort(spec: Spec, role: string): int {
    if role == "decode" && spec.decode.servicePort.Some? then spec.decode.servicePort.value
    else if role == "prefill" && spec.prefill.servicePort.Some? then spec.prefill.servicePort.value
    else 8000
  }

  function WorkerReplicas(i: Inputs, role: string): int {
    if role == "decode" && i.scaledTo.Some? then i.scaledTo.value
    else if role == "prefill" then i.spec.prefill.replicas.GetOr(1)
    else if role == "decode" then i.spec.decode.replicas.GetOr(1)
    else 1
  }

  function WorkerEnv(i: Inputs, role: string): seq<EnvVar> {
    BuildEnv(i.spec.env)
    + [EnvVar("INFERENCE_ROLE", Literal(role)),
       EnvVar("SERVICE_NAME", Literal(ChildName(i.cluster, role))),
       EnvVar("KV_SHARDS", Literal(Itoa(NumShards(i.spec))))]
  }

  function ServiceAddress(i: Inputs, role: string): string {
    ChildName(i.cluster, role) + "." + i.namespace + ".svc.cluster.local:" + Itoa(ServicePort(i.spec, role))
  }

  function RouterEnv(i: Inputs): seq<EnvVar> {
    [EnvVar("NAMESPACE", FieldRef("metadata.namespace")),
     EnvVar("DECODE_SERVICE_DNS", Literal(ServiceAddress(i, "decode"))),
     EnvVar("PREFILL_SERVICE_DNS", Literal(ServiceAddress(i, "prefill")))]
  }

  function RouterArgs(i: Inputs): seq<string> {
    ["--shardmap-configmap", ChildName(i.cluster, "shardmap"), "--hash-key", i.spec.hashKey.GetOr("conversationId")]
  }

  const HTTP_AND_METRICS := [Port("http", 8080), Port("metrics", 9090)]

  /** The first container with the operator's fields written over whatever was there. */
  function PatchWorker(was: seq<Container>, i: Inputs, role: string): seq<Container> {
    var c := if |was| == 0 then Container("worker", "", "", [], [], [], "") else was[0];
    [c.(name := "worker", image := i.spec.image, pullPolicy := "IfNotPresent", args := i.spec.args,
        env := WorkerEnv(i, role), ports := [Port("http", ServicePort(i.spec, role))])]
    + if |was| == 0 then [] else was[1..]
  }

  function PatchRouter(was: seq<Container>, i: Inputs): seq<Container> {
    var c := if |was| == 0 then Container("router", "", "", [], [], [], "") else was[0];
    [c.(name := "router", image := "llm-inference-router:latest", pullPolicy := "IfNotPresent",
        args := RouterArgs(i), env := RouterEnv(i), ports := HTTP_AND_METRICS)]
    + if |was| == 0 then [] else was[1..]
  }

  /** A signal key the user has not set starts at zero; set ones are left alone. */
  function Seed(data: map<string, string>, key: string): map<string, string> {
    if key in data then data else data[key := "0"]
  }

  function SeedSignals(data: map<string, string>): map<string, string> {
    Seed(Seed(Seed(data, "queueDepth"), "tokensPerSecond"), "memPressure")
  }

  function Owned(meta: Meta, i: Inputs, slot: Slot): Meta {
    meta.(labels := LabelsFor(i.cluster, Suffix(slot)), owner := Some(i.cluster))
  }

  /** The mutation passed to CreateOrUpdate for each child. */
  function Mutate(slot: Slot, was: Object, i: Inputs): (o: Object)
    requires KindOf(was) == SlotKind(slot)
    ensures KindOf(o) == SlotKind(slot)
  {
    var meta := Owned(was.meta, i, slot);
    var labels := LabelsFor(i.cluster, Suffix(slot));
    match slot
    case SignalsMap => was.(meta := meta, data := SeedSignals(was.data))
    case DecodeService => was.(meta := meta, selector := labels, ports := [Port("http", ServicePort(i.spec, "decode"))])
    case PrefillService =>
      was.(meta := meta, selector := labels, ports := [Port("http", ServicePort(i.spec, "prefill"))])
    case RouterService => was.(meta := meta, selector := labels, ports := HTTP_AND_METRICS)
    case RouterAccount => ServiceAccount(meta)
    case RouterRole => was.(meta := meta, resources := ["configmaps"], verbs := ["get", "list", "watch"])
    case RouterBinding =>
      was.(meta := meta, roleName := ChildName(i.cluster, "router"), subject := ChildName(i.cluster, "router"))
    case DecodeDeployment =>
      was.(meta := meta, selector := labels, podLabels := labels, replicas := WorkerReplicas(i, "decode"),
           containers := PatchWorker(was.containers, i, "decode"))
    case PrefillDeployment =>
      was.(meta := meta, selector := labels, podLabels := labels, replicas := WorkerReplicas(i, "prefill"),
           containers := PatchWorker(was.containers, i, "prefill"))
    case RouterDeployment =>
      was.(meta := meta, selector := labels, podLabels := labels, replicas := i.spec.routerReplicas.GetOr(1),
           serviceAccount := ChildName(i.cluster, "router"), containers := PatchRouter(was.containers, i))
    case ShardMapMap => was.(meta := meta, data := was.data[MAP_KEY := i.mapText])
  }

  /** Create-or-update of one child; None when another controller already owns the object. */
  function Ensure(store: Store, slot: Slot, i: Inputs): Option<Store> {
    var key := KeyOf(i.cluster, slot);
    var was := Existing(store, key);
    if was.meta.owner.Some? && was.meta.owner.value != i.cluster then None
    else Some(store[key := Mutate(slot, was, i)])
  }

  // ---- what it means for a child to be converged ----

  ghost predicate WorkerContainer(c: Container, i: Inputs, role: string) {
    && c.name == "worker" && c.image == i.spec.image && c.pullPolicy == "IfNotPresent" && c.args == i.spec.args
    && c.env == WorkerEnv(i, role) && c.ports == [Port("http", ServicePort(i.spec, role))]
  }

  ghost predicate RouterContainer(c: Container, i: Inputs) {
    && c.name == "router" && c.image == "llm-inference-router:latest" && c.pullPolicy == "IfNotPresent"
    && c.args == RouterArgs(i) && c.env == RouterEnv(i) && c.ports == HTTP_AND_METRICS
  }

  /** Every field the operator manages in this child has the value the inputs call for. */
  ghost predicate Desired(slot: Slot, o: Object, i: Inputs) {
    var labels := LabelsFor(i.cluster, Suffix(slot));
    && KindOf(o) == SlotKind(slot)
    && o.meta.labels == labels && o.meta.owner == Some(i.cluster)
    && match slot
       case SignalsMap => "queueDepth" in o.data && "tokensPerSecond" in o.data && "memPressure" in o.data
       case DecodeService => o.selector == labels && o.ports == [Port("http", ServicePort(i.spec, "decode"))]
       case PrefillService => o.selector == labels && o.ports == [Port("http", ServicePort(i.spec, "prefill"))]
       case RouterService => o.selector == labels && o.ports == HTTP_AND_METRICS
       case RouterAccount => true
       case RouterRole => o.resources == ["configmaps"] && o.verbs == ["get", "list", "watch"]
       case RouterBinding => o.roleName == o.subject == ChildName(i.cluster, "router")
       case DecodeDeployment =>
         && o.selector == labels && o.podLabels == labels && o.replicas == WorkerReplicas(i, "decode")
         && |o.containers| > 0 && WorkerContainer(o.containers[0], i, "decode")
       case PrefillDeployment =>
         && o.selector == labels && o.podLabels == labels && o.replicas == WorkerReplicas(i, "prefill")
         && |o.containers| > 0 && WorkerContainer(o.containers[0], i, "prefill")
       case RouterDeployment =>
         && o.selector == labels && o.podLabels == labels && o.replicas == i.spec.routerReplicas.GetOr(1)
         && o.serviceAccount == ChildName(i.cluster, "router")
         && |o.containers| > 0 && RouterContainer(o.containers[0], i)
       case ShardMapMap => MAP_KEY in o.data && o.data[MAP_KEY] == i.mapText
  }

  /** The mutation of any object, whatever its history, reaches the desired state of its slot. */
  lemma MutateReaches(slot: Slot, was: Object, i: Inputs)
    requires KindOf(was) == SlotKind(slot)
    ensures Desired(slot, Mutate(slot, was, i), i)
  {
    match slot
    case SignalsMap => SeedHasKeys(was.data);
    case _ =>
  }

  /** Exactly the missing signals are added, as zeros. */
  lemma SeedIs(data: map<string, string>, k: string)
    ensures var d := SeedSignals(data);
            && (k in d <==> k in data || k == "queueDepth" || k == "tokensPerSecond" || k == "memPressure")
            && (k in data ==> d[k] == data[k])
            && (k in d && k !in data ==> d[k] == "0")
  {
  }

  lemma SeedHasKeys(data: map<string, string>)
    ensures var d := SeedSignals(data); "queueDepth" in d && "tokensPerSecond" in d && "memPressure" in d
    ensures forall k :: k in data ==> k in SeedSignals(data) && SeedSignals(data)[k] == data[k]
  {
  }

  /** On an object already in the desired state the mutation changes nothing: env never grows. */
  lemma MutateIdle(slot: Slot, o: Object, i: Inputs)
    requires Desired(slot, o, i)
    ensures Mutate(slot, o, i) == o
  {
    match slot
    case SignalsMap =>
    case ShardMapMap => assert o.data[MAP_KEY := i.mapText] == o.data;
    case DecodeDeployment => assert PatchWorker(o.containers, i, "decode") == o.containers;
    case PrefillDeployment => assert PatchWorker(o.containers, i, "prefill") == o.containers;
    case RouterDeployment => assert PatchRouter(o.containers, i) == o.containers;
    case _ =>
  }

  // ---- ports ----

  /** Where the pods of a role are reached: the service the role's pods stand behind, and its port. */
  function Address(i: Inputs, service: Slot, port: int): string {
    KeyOf(i.cluster, service).name + "." + i.namespace + ".svc.cluster.local:" + Itoa(port)
  }

  /**
   For each role the service, the worker container and the address the router is given all use the
   port the spec sets for that role.
   */
  lemma PortsAgree(i: Inputs, service: Object, worker: Object, router: Object, decode: bool)
    requires i.spec.decode.servicePort.Some? && i.spec.prefill.servicePort.Some?
    requires service.Service? && worker.Deployment? && router.Deployment?
    ensures var port := (if decode then i.spec.decode else i.spec.prefill).servicePort.value;
            var serviceSlot := if decode then DecodeService else PrefillService;
            var workerSlot := if decode then DecodeDeployment else PrefillDeployment;
            var variable := if decode then "DECODE_SERVICE_DNS" else "PREFILL_SERVICE_DNS";
            && Mutate(serviceSlot, service, i).ports == [Port("http", port)]
            && |Mutate(workerSlot, worker, i).containers| > 0
            && Mutate(workerSlot, worker, i).containers[0].ports == [Port("http", port)]
            && |Mutate(RouterDeployment, router, i).containers| > 0
            && EnvVar(variable, Literal(Address(i, serviceSlot, port)))
               in Mutate(RouterDeployment, router, i).containers[0].env
  {
    SuffixesDiffer();
    RouterKnows(i, decode);
    RouterEnvIs(i, router);
    WorkerPortIs(i, worker, decode);
  }

  lemma RouterEnvIs(i: Inputs, router: Object)
    requires router.Deployment?
    ensures var containers := Mutate(RouterDeployment, router, i).containers;
            && |containers| > 0 && containers[0].env == RouterEnv(i)
            && |RouterEnv(i)| == 3 && RouterEnv(i)[0] == EnvVar("NAMESPACE", FieldRef("metadata.namespace"))
  {
  }

  lemma WorkerPortIs(i: Inputs, worker: Object, decode: bool)
    requires worker.Deployment?
    ensures var containers := Mutate(if decode then DecodeDeployment else PrefillDeployment, worker, i).containers;
            && |containers| > 0
            && containers[0].ports == [Port("http", ServicePort(i.spec, if decode then "decode" else "prefill"))]
  {
  }

  lemma RouterKnows(i: Inputs, decode: bool)
    requires i.spec.decode.servicePort.Some? && i.spec.prefill.servicePort.Some?
    ensures var port := (if decode then i.spec.decode else i.spec.prefill).servicePort.value;
            var service := if decode then DecodeService else PrefillService;
            var variable := if decode then "DECODE_SERVICE_DNS" else "PREFILL_SERVICE_DNS";
            EnvVar(variable, Literal(Address(i, service, port))) in RouterEnv(i)
  {
    SuffixesDiffer();
    if decode {
      var port := i.spec.decode.servicePort.value;
      assert RouterEnv(i)[1] == EnvVar("DECODE_SERVICE_DNS", Literal(Address(i, DecodeService, port)));
    } else {
      var port := i.spec.prefill.servicePort.value;
      assert RouterEnv(i)[2] == EnvVar("PREFILL_SERVICE_DNS", Literal(Address(i, PrefillService, port)));
    }
  }

  // ---- what the children tell each other ----

  /** The names under which the children of a cluster are stored. */
  lemma NamesAre(c: string)
    ensures KeyOf(c, SignalsMap) == Key(ConfigMapKind, c + "-signals")
    ensures KeyOf(c, ShardMapMap) == Key(ConfigMapKind, c + "-shardmap")
    ensures KeyOf(c, DecodeService) == Key(ServiceKind, c + "-decode")
    ensures KeyOf(c, PrefillService) == Key(ServiceKind, c + "-prefill")
    ensures KeyOf(c, RouterService) == Key(ServiceKind, c + "-router")
    ensures KeyOf(c, RouterAccount) == Key(AccountKind, c + "-router")
    ensures KeyOf(c, RouterRole) == Key(RoleKind, c + "-router")
    ensures KeyOf(c, RouterBinding) == Key(BindingKind, c + "-router")
    ensures KeyOf(c, DecodeDeployment) == Key(DeploymentKind, c + "-decode")
    ensures KeyOf(c, PrefillDeployment) == Key(DeploymentKind, c + "-prefill")
    ensures KeyOf(c, RouterDeployment) == Key(DeploymentKind, c + "-router")
  {
    Reassociate(c, "-", "signals");
    Reassociate(c, "-", "shardmap");
    Reassociate(c, "-", "decode");
    Reassociate(c, "-", "prefill");
    Reassociate(c, "-", "router");
    DashedSuffixes();
  }

  lemma DashedSuffixes()
    ensures "-" + "signals" == "-signals" && "-" + "shardmap" == "-shardmap" && "-" + "decode" == "-decode"
    ensures "-" + "prefill" == "-prefill" && "-" + "router" == "-router"
  {
  }

  /** The router is told to poll the ConfigMap the map is published in, and which field identifies a session. */
  lemma RouterPolls(i: Inputs, was: Object)
    requires was.Deployment?
    ensures var containers := Mutate(RouterDeployment, was, i).containers;
            |containers| > 0
            && var args := containers[0].args;
            && |args| == 4
            && args[0] == "--shardmap-configmap" && args[1] == KeyOf(i.cluster, ShardMapMap).name
            && args[2] == "--hash-key"
            && (i.spec.hashKey.Some? ==> args[3] == i.spec.hashKey.value)
            && (i.spec.hashKey.None? ==> args[3] == "conversationId")
            && containers[0].ports == [Port("http", 8080), Port("metrics", 9090)]
            && containers[0].name == "router" && containers[0].image == "llm-inference-router:latest"
            && containers[0].pullPolicy == "IfNotPresent"
  {
  }

  /** The map is published under its own key, and whatever else the ConfigMap holds stays. */
  lemma MapUnderItsKey(i: Inputs, was: Object)
    requires was.ConfigMap?
    ensures Mutate(ShardMapMap, was, i).data == was.data["shardmap.json" := i.mapText]
  {
  }

  /** The router runs under the account that the binding grants the role to, and the role lets it read ConfigMaps. */
  lemma RouterMayPoll(i: Inputs, deployment: Object, role: Object, binding: Object)
    requires deployment.Deployment? && role.Role? && binding.RoleBinding?
    ensures var b, r := Mutate(RouterBinding, binding, i), Mutate(RouterRole, role, i);
            && Mutate(RouterDeployment, deployment, i).serviceAccount == b.subject
            && b.subject == KeyOf(i.cluster, RouterAccount).name
            && b.roleName == KeyOf(i.cluster, RouterRole).name
            && "configmaps" in r.resources && "get" in r.verbs
  {
  }

  /** A worker runs the spec's image and arguments; other containers of the pod stay. */
  lemma WorkerRuns(i: Inputs, was: Object, decode: bool)
    requires was.Deployment?
    ensures var containers := Mutate(if decode then DecodeDeployment else PrefillDeployment, was, i).containers;
            && |containers| > 0 && containers[0].name == "worker" && containers[0].pullPolicy == "IfNotPresent"
            && containers[0].image == i.spec.image && containers[0].args == i.spec.args
            && (|was.containers| > 0 ==>
                  containers[1..] == was.containers[1..] && containers[0].other == was.containers[0].other)
  {
  }

  /** A worker's env: the user's entries, then its role, its service and the spec's shard count. */
  lemma WorkerEnvIs(i: Inputs, was: Object, decode: bool)
    requires was.Deployment?
    ensures var slot := if decode then DecodeDeployment else PrefillDeployment;
            var service := KeyOf(i.cluster, if decode then DecodeService else PrefillService).name;
            var containers := Mutate(slot, was, i).containers;
            |containers| > 0
            && containers[0].env
               == BuildEnv(i.spec.env)
                  + [EnvVar("INFERENCE_ROLE", Literal(if decode then "decode" else "prefill")),
                     EnvVar("SERVICE_NAME", Literal(service)),
                     EnvVar("KV_SHARDS", Literal(Itoa(i.spec.numShards.GetOr(8))))]
  {
  }

  /** Every service and deployment selects the pods its role's template makes, and no pods of the other roles. */
  lemma SelectsOwnPods(i: Inputs, service: Slot, deployment: Slot, s: Object, d: Object)
    requires SlotKind(service).ServiceKind? && SlotKind(deployment).DeploymentKind? && s.Service? && d.Deployment?
    ensures var template := Mutate(deployment, d, i).podLabels;
            && Matches(Mutate(deployment, d, i).selector, template)
            && (Matches(Mutate(service, s, i).selector, template) <==> Suffix(service) == Suffix(deployment))
  {
    SelectorsApart(i.cluster, Suffix(service), i.cluster, Suffix(deployment));
    SelectorsApart(i.cluster, Suffix(deployment), i.cluster, Suffix(deployment));
  }

  lemma MatchesMore(selector: Labels, template: Labels, labels: Labels)
    requires Matches(template, labels) && Matches(selector, template)
    ensures Matches(selector, labels)
  {
  }

  /** A pod made from a template carries its labels; the map lists those of the decode template alone. */
  lemma TemplatePodsListed(i: Inputs, slot: Slot, was: Object, labels: Labels)
    requires SlotKind(slot).DeploymentKind? && was.Deployment?
    requires Matches(Mutate(slot, was, i).podLabels, labels)
    ensures Matches(LabelsFor(i.cluster, ROLE_DECODE), labels) <==> slot.DecodeDeployment?
  {
    SuffixesDiffer();
    LabelKeysDiffer();
    var template := Mutate(slot, was, i).podLabels;
    assert template == LabelsFor(i.cluster, Suffix(slot));
    assert ROLE_LABEL in template && labels[ROLE_LABEL] == Suffix(slot);
    if slot.DecodeDeployment? {
      MatchesMore(LabelsFor(i.cluster, ROLE_DECODE), template, labels);
    } else {
      var selector := LabelsFor(i.cluster, ROLE_DECODE);
      assert ROLE_LABEL in selector && selector[ROLE_LABEL] == "decode";
    }
  }

  // ---- names and selectors keep clusters apart ----

  predicate HasDash(s: string) {
    exists k :: 0 <= k < |s| && s[k] == '-'
  }

  lemma LongerPrefixHasDash(a: string, s: string, b: string, t: string)
    requires ChildName(a, s) == ChildName(b, t) && |a| < |b|
    ensures HasDash(s)
  {
    assert ChildName(b, t)[|b|] == '-';
    assert s[|b| - |a| - 1] == ChildName(a, s)[|b|];
  }

  /** The last dash separates: no other cluster and suffix give the same child name. */
  lemma ChildNameInjective(a: string, s: string, b: string, t: string)
    requires ChildName(a, s) == ChildName(b, t)
    requires !HasDash(s) && !HasDash(t)
    ensures a == b && s == t
  {
    if |a| < |b| {
      LongerPrefixHasDash(a, s, b, t);
    } else if |b| < |a| {
      LongerPrefixHasDash(b, t, a, s);
    }
    var n := ChildName(a, s);
    assert a == n[..|a|] && b == n[..|b|];
    assert s == n[|a| + 1..] && t == n[|b| + 1..];
  }

  lemma SuffixesAreDashFree(slot: Slot)
    ensures !HasDash(Suffix(slot))
  {
  }

  /** Distinct (cluster, child) pairs are stored under distinct keys. */
  lemma KeysApart(a: string, s: Slot, b: string, t: Slot)
    requires KeyOf(a, s) == KeyOf(b, t)
    ensures a == b && s == t
  {
    SuffixesAreDashFree(s);
    SuffixesAreDashFree(t);
    ChildNameInjective(a, Suffix(s), b, Suffix(t));
    SuffixesDiffer();
  }

  lemma SuffixesDiffer()
    ensures "signals" != "shardmap" && "decode" != "prefill" && "decode" != "router" && "prefill" != "router"
  {
    assert |"signals"| == 7 && |"shardmap"| == 8 && |"decode"| == 6 && |"prefill"| == 7 && |"router"| == 6;
    assert "decode"[0] != "router"[0];
  }

  /** A role selector matches the pods of exactly its own cluster and role. */
  lemma SelectorsApart(a: string, role: string, b: string, other: string)
    ensures Matches(LabelsFor(a, role), LabelsFor(b, other)) <==> a == b && role == other
  {
    LabelKeysDiffer();
    assert LabelsFor(a, role)[ROLE_LABEL] == role && LabelsFor(b, other)[ROLE_LABEL] == other;
    assert LabelsFor(a, role)[CLUSTER_LABEL] == a && LabelsFor(b, other)[CLUSTER_LABEL] == b;
  }

  lemma LabelKeysDiffer()
    ensures ROLE_LABEL != CLUSTER_LABEL && NAME_LABEL != CLUSTER_LABEL && PART_LABEL != CLUSTER_LABEL
    ensures NAME_LABEL != ROLE_LABEL && PART_LABEL != ROLE_LABEL && NAME_LABEL != PART_LABEL
  {
    assert |ROLE_LABEL| == 21 && |CLUSTER_LABEL| == 24 && |NAME_LABEL| == 22 && |PART_LABEL| == 25;
  }

  // ---- the pod labels of a role ----

  /** One of the four labels every pod of a role gets anyway. */
  predicate OperatorLabel(key: string, value: string, cluster: string, role: string) {
    || ((key == NAME_LABEL || key == PART_LABEL) && value == OPERATOR)
    || (key == CLUSTER_LABEL && value == cluster)
    || (key == ROLE_LABEL && value == role)
  }

  ghost predicate OnlyOperatorLabels(labels: Labels, cluster: string, role: string) {
    forall k :: k in labels ==> OperatorLabel(k, labels[k], cluster, role)
  }

  lemma MatchesIffOperatorLabels(labels: Labels, cluster: string, role: string)
    ensures Matches(labels, LabelsFor(cluster, role)) <==> OnlyOperatorLabels(labels, cluster, role)
  {
    LabelKeysDiffer();
    forall k | k in labels
      ensures k in LabelsFor(cluster, role) && LabelsFor(cluster, role)[k] == labels[k]
              <==> OperatorLabel(k, labels[k], cluster, role)
    {
      LabelAt(cluster, role, k, labels[k]);
    }
  }

  lemma LabelAt(cluster: string, role: string, k: string, v: string)
    ensures k in LabelsFor(cluster, role) && LabelsFor(cluster, role)[k] == v <==> OperatorLabel(k, v, cluster, role)
  {
    LabelKeysDiffer();
  }

  function RoleOf(spec: Spec, slot: Slot): RoleSpec {
    if slot.DecodeDeployment? then spec.decode else spec.prefill
  }

  /**
   A worker deployment that is as desired has the role's pod labels in its template exactly when they
   are among the labels the operator sets itself.
   */
  lemma PodLabelsIff(slot: Slot, o: Object, i: Inputs)
    requires (slot.DecodeDeployment? || slot.PrefillDeployment?) && Desired(slot, o, i)
    ensures Matches(RoleOf(i.spec, slot).podLabels, o.podLabels)
            <==> OnlyOperatorLabels(RoleOf(i.spec, slot).podLabels, i.cluster, Suffix(slot))
  {
    MatchesIffOperatorLabels(RoleOf(i.spec, slot).podLabels, i.cluster, Suffix(slot));
  }

  /** No child depends on the pod labels of either role. */
  lemma PodLabelsIgnored(slot: Slot, was: Object, i: Inputs, decode: Labels, prefill: Labels)
    requires KindOf(was) == SlotKind(slot)
    ensures var spec := i.spec.(decode := i.spec.decode.(podLabels := decode),
                                prefill := i.spec.prefill.(podLabels := prefill));
            Mutate(slot, was, i.(spec := spec)) == Mutate(slot, was, i)
  {
    match slot
    case RouterDeployment =>
      var spec := i.spec.(decode := i.spec.decode.(podLabels := decode),
                          prefill := i.spec.prefill.(podLabels := prefill));
      assert RouterEnv(i.(spec := spec)) == RouterEnv(i) && RouterArgs(i.(spec := spec)) == RouterArgs(i);
    case _ =>
  }

  // ---- order of the user's env entries ----

  ghost predicate DistinctNames(env: seq<EnvVar>) {
    forall i, j :: 0 <= i < j < |env| ==> env[i].name != env[j].name
  }

  /** The worker env is the same for every order of distinct-named entries. */
  lemma EnvOrderFree(a: seq<EnvVar>, b: seq<EnvVar>)
    requires multiset(a) == multiset(b) && DistinctNames(a)
    ensures BuildEnv(a) == BuildEnv(b)
  {
    assert Faithful(a, EnvName) by {
      forall i, j | 0 <= i < |a| && 0 <= j < |a| && EnvName(a[i]) == EnvName(a[j]) ensures a[i] == a[j] {
        assert !(i < j) && !(j < i);
      }
    }
    SortOrderFree(a, b, EnvName);
  }
}
