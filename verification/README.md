# Verified model of the LLM inference operator

This project models the shard-ownership and session-affinity system of the LLM inference operator and
the reconciler that drives it, and proves what they promise over every input and every run.

- **Ring and hash** (`Bits`, `Fnv`, `Decimal`, `Ordering`, `Rings`, `Balance`, `Spread`). FNV-1a with 32
  bits is computed concretely: exclusive or is defined on numbers, and the odd prime has an explicit
  inverse modulo 2^32. That makes the last hash step solvable, which is what the balance results rest on.
- **Shard map** (`Json`, `ShardMaps`). The map computed from a pod list, its JSON text, and the reader.
- **Router** (`Routers`, `Requests`). Shard selection in mixed int32/uint32 arithmetic, the poll loop, and
  any number of request handlers stepping concurrently.
- **Autoscaler** (`Autoscaler`). The int32 clamp/step decision over optional bounds and a float signal.
- **Reconciler** (`Objects`, `StatusFields`, `Control`, `ControlInv`, `Safety`, `Generations`, `Convergence`,
  `Undisturbed`, `Reconcilers`). `Control` is a transition system with one step per API call. A call takes
  effect, is refused, or takes effect and still reports an error. Users, pods and other controllers act
  between any two calls, and a pass may start from any version the API server ever held. `Reconcilers` is
  the same logic as an in-place program, proved to end where the transition system ends.
- **Where properties fail** (`Counterexamples`). Runs of the transition system, from its initial state, at
  which a plausible property fails.
- **Whole system** (`System`). The control plane, any number of router replicas and the requests they
  answer, as one transition system.

Strings are byte strings: one `char` per byte. Go's `int` is 64 bits wide, so the conversion of the hash
in the ring never turns negative. An int32 addition wraps where the code's would.

Where a plausible property is false of the code, the model follows the code, shows an input or a run at
which it fails, and proves exactly when it holds:

- The ring is called a consistent-hash ring but re-indexes by plain modulo. `Rings.GrowMovesBetweenOldPods`
  is an input where adding a pod moves a shard between two old pods; `Rings.GrowMoves` and
  `Rings.ReplaceMoves` say exactly which shards stay.
- The API type (api/v1alpha1/llminferencecluster_types.go:96) says pod labels are merged into the template;
  the reconciler never reads them. `Counterexamples.PodLabelsLost` is the input,
  `Convergence.TemplateLabelsIff` the condition, `Objects.PodLabelsIgnored` the reason.
- Persisting defaults may overwrite what a user has set meanwhile: `Counterexamples.StaleDefaultsOverwrite`
  and `Safety.DefaultsKeepIff`, `Safety.PatchKeepsEditsIff`.
- Reported shards may disagree with the published map, after a success (`Counterexamples.StaleReportDisagrees`,
  `Safety.ReportAgrees`) and after a failure (`Counterexamples.FailedPassDisagrees`, `Safety.FailureAgrees`).
- A status may claim a later generation than its object's, when the object was deleted and created again:
  `Counterexamples.StatusAhead` and `Generations.GenerationsIff`.
- A shard count that is the same wherever it is set need not be fixed, because a count a user removes is not
  always defaulted again: `Counterexamples.UnsetCountPublishesEight` and `System.FixedIff`.
- More load may mean fewer replicas: `Autoscaler.WrapsAtTheTop` and `Autoscaler.MonotoneIff`,
  `Autoscaler.OneStepIff`.

## Model

| member | source | states |
|---|---|---|
| `Bits.XorBit` | internal/routing/consistenthash.go:31-32 | the arithmetic exclusive or used by the hash is the bitwise one, bit by bit |
| `Fnv.Hash32a.constructor` | internal/routing/consistenthash.go:31 | a new hash holds the hash of the empty string |
| `Fnv.Hash32a.Write` | internal/routing/consistenthash.go:32 | writing bytes folds exactly those bytes into the running sum |
| `Fnv.StepSolves` | internal/routing/consistenthash.go:31-33 | modulo 2^k one byte residue, and only that one, takes a given hash to a given residue: each step is a bijection of the low bits |
| `Fnv.HashLowBits` | cmd/router/main.go:246-257 | strings that agree in the low k bits of every byte have hashes that agree in the low k bits |
| `Decimal.NumberDigits` | internal/routing/consistenthash.go:32 | reading back the decimal text of a number gives the number |
| `Decimal.ItoaInjective` | internal/routing/consistenthash.go:32 | different shard ids never have the same decimal text |
| `Decimal.ItoaStem` | internal/routing/consistenthash.go:32 | the ten shards 10d..10d+9 share a stem and differ in the last digit only |
| `Ordering.SortInPlace` | internal/routing/consistenthash.go:17-18 | sorting an array in place gives the sorted form of its old contents |
| `Ordering.LessIsLexicographic` | internal/routing/consistenthash.go:18 | the order sorted by is lexicographic byte order: decided at the first byte that differs, a prefix coming first |
| `Ordering.SortLexicographic` | internal/routing/consistenthash.go:18 | in the sorted sequence no key is followed by one that precedes it in that order |
| `Ordering.SortPermutes` | internal/routing/consistenthash.go:18 | the result has the same elements, with multiplicity |
| `Ordering.SortedUnique` | internal/routing/consistenthash.go:18 | two sorted permutations of the same elements are equal |
| `Ordering.SortOrderFree` | internal/routing/consistenthash.go:16-20 | sorting gives the same result for every order of the input |
| `Rings.NewRing` | internal/routing/consistenthash.go:16-20 | the ring is the permutation of the given names in lexicographic byte order |
| `Rings.Ring.Pick` | internal/routing/consistenthash.go:27-35 | the picked owner is the node at the hashed rank, and no node exactly when the ring is empty |
| `Rings.RingOrderFree` | internal/routing/consistenthash.go:16-20 | the ring depends on the bag of names, not on their order |
| `Rings.OwnerIsNode` | internal/routing/consistenthash.go:27-35 | on a non-empty ring every owner is one of the names |
| `Rings.ReplaceMoves` | internal/routing/consistenthash.go:16-35 | replacing pod p by pod q changes the owner of exactly the shards whose rank lies between the sorted places of p and q |
| `Rings.GrowMoves` | internal/routing/consistenthash.go:9-35 | after adding a pod a shard stays exactly when its new rank is its shifted old rank, goes to the new pod exactly when it hits the new slot, and otherwise moves between two old pods |
| `Rings.SlotSeparates` | internal/routing/consistenthash.go:16-20 | the slot of a new name has exactly the names before it on one side and those after it on the other |
| `Rings.GrowMovesBetweenOldPods` | internal/routing/consistenthash.go:9-35 | adding c to a and b moves shard 0 from b to a, so movement is not minimal |
| `Balance.LastByteUniform` | cmd/router/main.go:246-257 | for any prefix the 256 next bytes reach each residue modulo 2^k equally often |
| `Balance.PowerOfTwoSpread` | internal/routing/consistenthash.go:27-35 | on 2^k distinct pods, k <= 3, shards 10d..10d+7 give every pod exactly 8/2^k shards, for every d |
| `Balance.EightOnEight` | internal/routing/consistenthash.go:27-35 | the default eight shards on eight pods are assigned one to one |
| `Balance.PairSplit` | internal/routing/consistenthash.go:27-35 | on two pods the shards 2j and 2j+1 always have different owners |
| `Balance.TwoPodBalance` | internal/routing/consistenthash.go:27-35 | on two pods the loads over any n shards differ by exactly n mod 2 |
| `Spread.EntriesAreLoad` | internal/controller/llminferencecluster_controller.go:629-645 | the entries of a map a pod owns are as many as the shard numbers the ring gives it |
| `Spread.PublishedTwoPodBalance` | internal/controller/llminferencecluster_controller.go:610-645 | for pods with distinct names of which exactly two are eligible, the map gives those two numbers of shards that differ by exactly n mod 2 |
| `Spread.PublishedDefaultSpread` | internal/controller/llminferencecluster_controller.go:610-645 | for pods with distinct names of which 2^k are eligible, k <= 3, the default eight-shard map gives each exactly 8/2^k entries |
| `Json.RoundTrip` | internal/controller/llminferencecluster_controller.go:647-651 | parsing the text of any well-formed document gives the document |
| `Json.SpaceAround` | internal/routing/shardmap.go:31-33 | white space around a document does not matter |
| `Json.NothingFollows` | internal/routing/shardmap.go:31-33 | other text after a document is an error |
| `ShardMaps.ReadyMeans` | internal/controller/llminferencecluster_controller.go:654-661 | a pod is ready exactly when one of its conditions is Ready with status True |
| `ShardMaps.CollectCandidates` | internal/controller/llminferencecluster_controller.go:610-620 | the two loops collect the names of the ready pods, or of all pods when none is ready |
| `ShardMaps.CandidateSource` | internal/controller/llminferencecluster_controller.go:610-620 | a name is a candidate exactly when an eligible pod has it; there is none exactly when no pod is listed |
| `ShardMaps.CandidateCount` | internal/controller/llminferencecluster_controller.go:610-620 | a name is a candidate exactly as often as eligible pods have it, and there are as many candidates as eligible pods |
| `ShardMaps.DistinctCandidates` | internal/controller/llminferencecluster_controller.go:610-620 | pods with distinct names enter the ring once each |
| `ShardMaps.ComputeShardMap` | internal/controller/llminferencecluster_controller.go:597-652 | the loop yields the status entries, the document and its text for the listed pods |
| `ShardMaps.OwnershipTotal` | internal/controller/llminferencecluster_controller.go:610-645 | the version is 1; ids are 0..n-1 in order; every owner is a listed pod, and a ready one if any is ready; Pending and empty owner exactly when no pod is listed; status and map agree, and the status carries the time |
| `ShardMaps.OwnerMovesWithRank` | internal/controller/llminferencecluster_controller.go:622-645 | between two maps with equally many candidates an owner changes only with the name at its rank |
| `ShardMaps.PodReplaced` | internal/controller/llminferencecluster_controller.go:610-645 | when one candidate gives way to another, the maps differ at exactly the shards ranked between the sorted places of the two names |
| `ShardMaps.ListingOrderFree` | internal/controller/llminferencecluster_controller.go:603-645 | map and status are the same for every order of the listed pods |
| `ShardMaps.PublishRoundTrip` | internal/controller/llminferencecluster_controller.go:586-595 | parsing a published map gives the same version and entries, empty owners included |
| `ShardMaps.DocumentText` | internal/controller/llminferencecluster_controller.go:586-589 | the published text is an object with the members version and shards |
| `ShardMaps.ListText` | internal/controller/llminferencecluster_controller.go:586-589 | the shards are an array of the entries in order |
| `ShardMaps.EntryText` | internal/controller/llminferencecluster_controller.go:591-595 | an entry has shardID, role and, only if there is one, ownerPod |
| `ShardMaps.OperatorMapReads` | internal/routing/shardmap.go:19-39 | every map the operator can build from valid pod names is read back exactly |
| `ShardMaps.ReaderIs` | internal/routing/shardmap.go:23-33 | missing members read as zero values; members of another type and ids that are no int32 are errors |
| `ShardMaps.ParseShardMapJSON` | internal/routing/shardmap.go:19-39 | the parser loop agrees with the declarative decoder; empty text is an error |
| `Routers.LargestIsMaximum` | cmd/router/main.go:248-253 | the scanned id bounds every id and is attained unless it is 0 |
| `Routers.PickShardForConversation` | cmd/router/main.go:243-258 | the int32/uint32 computation equals the exact reduction and stays within 0..largest id for every map, also where +1 wraps |
| `Routers.SelectPublished` | cmd/router/main.go:148-152 | on a map published for n shards the choice is the hash modulo n and is an entry of the map |
| `Routers.ShardForIs` | cmd/router/main.go:148-152 | without a map or with an empty one the shard is 0; otherwise the hash reduced by one more than the largest id |
| `Routers.FetchIs` | cmd/router/main.go:213-223 | a tick reads the key shardmap.json and nothing else; without it, or without text, there is no map |
| `Routers.RoutingLowBits` | cmd/router/main.go:246-257 | with 2^k published shards only the low k bits of each byte of the id matter |
| `Routers.RoutingUniform` | cmd/router/main.go:246-257 | with 2^k published shards, k <= 8, the 256 last bytes hit each shard exactly 256/2^k times |
| `Routers.FetchedIds32` | cmd/router/main.go:212-224 | every id in a map a router can fetch is an int32, because the parser rejects any other |
| `Routers.Router.constructor` | cmd/router/main.go:85-105 | a router starts valid, without a map and with empty counters |
| `Routers.Router.PollTick` | cmd/router/main.go:212-224 | a tick installs the whole fetched map, or keeps the old one and counts one error; the router stays valid |
| `Routers.Router.ServeChat` | cmd/router/main.go:132-180 | every exit counts one status; shard counter and header carry the shard of the loaded map |
| `Requests.StepKeepsInv` | cmd/router/main.go:132-180 | every step of any handler keeps the counters equal to the requests they stand for |
| `Requests.WhatIsCounted` | cmd/router/main.go:132-180 | what each step counts: 400 on an unreadable body, 500 on a request that cannot be built, 502 on a failing upstream, the upstream's own code otherwise; the shard of the loaded map at selection |
| `Requests.Accounting` | cmd/router/main.go:136-179 | in every reachable state of concurrent handlers, started = in flight + counted statuses, shard counters = requests past selection, label by label; counter and header come from one map load; a request that ends before selection ends with 400, between selection and sending with 500 |
| `Autoscaler.SignalsTotal` | internal/signals/fake.go:18-39 | each signal is the number its own key's text stands for, and zero when the key is missing, empty or unreadable |
| `Autoscaler.ComputeDecodeReplicas` | internal/controller/llminferencecluster_controller.go:518-584 | the int32 decision equals the declarative one, and scaling is reported exactly when it differs from the clamped count |
| `Autoscaler.StartingPoint` | internal/controller/llminferencecluster_controller.go:523-543 | defaults and clamping in the code's order give the effective bounds and starting count |
| `Autoscaler.StartsFromSpec` | internal/controller/llminferencecluster_controller.go:523-543 | the bounds are the spec's, 0 and 10 when unset and a maximum of at least 1; the start is the spec's count, 1 when unset, if within them, and else the bound it violates, the maximum winning |
| `Autoscaler.DecisionIs` | internal/controller/llminferencecluster_controller.go:569-583 | for a spec count within the bounds: above 100 one more up to the maximum, wrapping to the minimum at 2^31-1; below 10 one fewer down to the minimum; from 10 to 100, and for a depth that is not a number, no change |
| `Autoscaler.WithinBounds` | internal/controller/llminferencecluster_controller.go:569-583 | for every depth, NaN and infinities included, the result is at most max, and at least min when min <= max |
| `Autoscaler.ExactUnlessWrapping` | internal/controller/llminferencecluster_controller.go:569-583 | outside the wrap case the int32 decision is the exact clamp of one step up, one step down, or none |
| `Autoscaler.MonotoneIff` | internal/controller/llminferencecluster_controller.go:569-583 | more load never means fewer replicas, exactly unless the clamped count is 2^31-1 and exceeds min |
| `Autoscaler.WrapScalesToMin` | internal/controller/llminferencecluster_controller.go:571-579 | in that case scaling up wraps and lands at min |
| `Autoscaler.WrapsAtTheTop` | internal/controller/llminferencecluster_controller.go:571-579 | replicas and maximum at 2^31-1 are such a case: under load the count drops to 0 |
| `Autoscaler.OneStepIff` | internal/controller/llminferencecluster_controller.go:569-583 | the decision is within one of the clamped count for every depth, with the exact exception |
| `Objects.BuildEnvVars` | internal/controller/llminferencecluster_controller.go:663-670 | the worker env is the permutation of the user's entries in lexicographic order of their names |
| `Objects.PortsAgree` | internal/controller/llminferencecluster_controller.go:303-432 | for each role the service, the worker container and the address given to the router use the port the spec sets for that role |
| `Objects.RouterPolls` | internal/controller/llminferencecluster_controller.go:413-423 | the router is told to poll the ConfigMap the map is published in, and which field identifies a session |
| `Objects.RouterMayPoll` | internal/controller/llminferencecluster_controller.go:434-471 | the router runs under the account that the binding grants the role to, and the role lets it read ConfigMaps |
| `Objects.MapUnderItsKey` | internal/controller/llminferencecluster_controller.go:481-488 | the map is published under shardmap.json and whatever else the ConfigMap holds stays |
| `Objects.WorkerRuns` | internal/controller/llminferencecluster_controller.go:371-378 | a worker runs the spec's image and arguments; other containers of the pod stay |
| `Objects.WorkerEnvIs` | internal/controller/llminferencecluster_controller.go:379-385 | a worker's env is the user's entries, its role, the name of its role's service and the spec's shard count |
| `Objects.NamesAre` | internal/controller/llminferencecluster_controller.go:143-190 | the names the children are stored under |
| `Objects.LabelsAre` | internal/controller/llminferencecluster_controller.go:259-274 | the labels of the children, by role |
| `Objects.SelectsOwnPods` | internal/controller/llminferencecluster_controller.go:303-432 | every service and deployment selects the pods its role's template makes, and no pods of other roles |
| `Objects.TemplatePodsListed` | internal/controller/llminferencecluster_controller.go:603-606 | pods made from the decode template are listed for the map, and pods of the other templates are not |
| `Objects.SeedIs` | internal/controller/llminferencecluster_controller.go:501-512 | exactly the missing signals are added, as zeros |
| `Objects.PodLabelsIff` | internal/controller/llminferencecluster_controller.go:369-370 | a worker deployment as desired has the role's pod labels in its template exactly when they are among the four the operator sets itself |
| `Objects.PodLabelsIgnored` | internal/controller/llminferencecluster_controller.go:303-516 | no child depends on the pod labels of either role |
| `Objects.EnvOrderFree` | internal/controller/llminferencecluster_controller.go:663-670 | it is the same for every order of distinct-named entries |
| `Objects.MutateReaches` | internal/controller/llminferencecluster_controller.go:303-516 | the mutation of any existing object, whatever its history, sets every managed field of its kind |
| `Objects.MutateIdle` | internal/controller/llminferencecluster_controller.go:355-387 | on an object already as desired the mutation changes nothing; the container env never grows |
| `Objects.ChildNameInjective` | internal/controller/llminferencecluster_controller.go:143-147 | distinct (cluster, suffix) pairs give distinct child names, for all cluster names |
| `Objects.KeysApart` | internal/controller/llminferencecluster_controller.go:143-147 | children of distinct clusters or kinds never share a key |
| `Objects.SelectorsApart` | internal/controller/llminferencecluster_controller.go:259-274 | a role selector matches the labels of exactly its own cluster and role |
| `StatusFields.SetOther` | internal/controller/llminferencecluster_controller.go:276-280 | setting the scaling condition keeps types unique and the Ready/Degraded pair opposed |
| `StatusFields.OutcomeSound` | internal/controller/llminferencecluster_controller.go:223-238 | setting Ready and then Degraded keeps the status sound and records the outcome |
| `StatusFields.PatchSound` | internal/controller/llminferencecluster_controller.go:240 | a merge patch from any stale snapshot keeps a sound status sound |
| `StatusFields.PatchLands` | internal/controller/llminferencecluster_controller.go:240 | from a current snapshot the patch lands the local status; in general each member lands exactly when it changed since the snapshot or was already there |
| `StatusFields.SetReadsBack` | internal/controller/llminferencecluster_controller.go:276-280 | a condition that is set reads back as given, but keeps its transition time while its status stays |
| `ControlInv.ApplyInv` | internal/controller/llminferencecluster_controller.go:72-246 | every step of the operator and of everyone else keeps the invariant of the control plane |
| `ControlInv.InvAlongRun` | internal/controller/llminferencecluster_controller.go:72-246 | the invariant holds in every state of every run |
| `ControlInv.DecodePodsExactly` | internal/controller/llminferencecluster_controller.go:602-606 | the listing holds exactly the pods labelled as decode pods of the cluster, each as often as it exists |
| `Control.ShardCountIs` | internal/controller/llminferencecluster_controller.go:623 | the shard count is the one the spec sets, and 8 when it sets none |
| `Safety.FinalizerGate` | internal/controller/llminferencecluster_controller.go:120-213 | in every run a child is changed only by a pass whose refreshed object is not being deleted and whose finalizer was persisted |
| `Safety.FinalizerOnce` | internal/controller/llminferencecluster_controller.go:124-139 | in every run no persisted version lists the operator's finalizer twice |
| `Safety.GateAppends` | internal/controller/llminferencecluster_controller.go:134-139 | the gate adds the finalizer behind those that are there and changes nothing else of the object |
| `Safety.DeletionOnlyReleases` | internal/controller/llminferencecluster_controller.go:124-132 | handling a deletion removes only the operator's finalizer, writes no child, touches no other cluster |
| `Safety.StatusSound` | internal/controller/llminferencecluster_controller.go:276-301 | in every run every persisted status has unique types, and Ready and Degraded opposed |
| `Generations.MergedSeenIff` | internal/controller/llminferencecluster_controller.go:215-240 | a report keeps a status within its object's generation exactly if the object has reached the generation the pass read, or the report says nothing new |
| `Generations.GenerationsIff` | internal/controller/llminferencecluster_controller.go:215-243 | in every run, up to every moment, no persisted status is ahead of its object exactly if every report that took effect met that condition |
| `Generations.FreshNamesSeen` | internal/controller/llminferencecluster_controller.go:215-243 | in every run in which no name is used twice, no persisted status is ahead of its object |
| `Safety.MapAndStatusAgree` | internal/controller/llminferencecluster_controller.go:629-645 | the computed status entries say what the map says, entry by entry |
| `Safety.AgreeIffSameMap` | internal/controller/llminferencecluster_controller.go:629-645 | the status entries of one listing agree with the map of another exactly if the two maps are the same |
| `Safety.ReportAgrees` | internal/controller/llminferencecluster_controller.go:205-243 | in every run, once a report takes effect the persisted shards agree with the latest published map exactly if they changed since the snapshot or the server's agreed already; always from a current snapshot |
| `Safety.FailureAgrees` | internal/controller/llminferencecluster_controller.go:205-213 | in every run, a failed pass that never listed pods leaves the persisted shards alone; after a listing they agree with the latest published map exactly if the map text is the published one |
| `Safety.EndpointsAgree` | internal/controller/llminferencecluster_controller.go:217-221 | the reported addresses are those of the services the pass writes, with the ports those services open |
| `Safety.SuccessSays` | internal/controller/llminferencecluster_controller.go:215-238 | a success reports Ready and not Degraded, with reasons and messages, for the generation the pass worked on |
| `Safety.FailureSays` | internal/controller/llminferencecluster_controller.go:282-298 | a failure reports Degraded and not Ready with the error, and claims neither generation nor addresses |
| `Safety.ScalingSays` | internal/controller/llminferencecluster_controller.go:159-177 | scaling is reported exactly when the decision differs from where it started |
| `Safety.ListingSays` | internal/controller/llminferencecluster_controller.go:205-209 | the shards a pass shows and publishes are those of its own listing, as many as the spec asks for, dated when it listed |
| `Safety.ClustersApart` | internal/controller/llminferencecluster_controller.go:143-147 | no step of a pass changes a child of another cluster |
| `Safety.ForeignUntouched` | internal/controller/llminferencecluster_controller.go:321 | no step changes an object another controller owns |
| `Safety.DecodeCountMemoryless` | internal/controller/llminferencecluster_controller.go:358-368 | in every run each decode count written is the spec's own without autoscaling; with it, it is the pass's decision, within one of the spec's count as far as that is within the bounds, and of the violated bound otherwise, falling to the minimum only at 2^31-1 |
| `Safety.DecisionReadsSignals` | internal/controller/llminferencecluster_controller.go:154-158 | in every run that decision is made for the depth under queueDepth of the cluster's own signals, starting from the spec's own count |
| `Safety.SignalsSurvive` | internal/controller/llminferencecluster_controller.go:498-514 | no step of the operator changes or drops a signal that is set |
| `Safety.OtherCountsFixed` | internal/controller/llminferencecluster_controller.go:358-368 | in every run each prefill and router count written is the spec's own, whatever the signals |
| `Safety.ScalingTouchesDecodeOnly` | internal/controller/llminferencecluster_controller.go:358-368 | no child but the decode deployment depends on the scaling decision |
| `Safety.DefaultsKeepIff` | internal/controller/llminferencecluster_controller.go:86-122 | persisting defaults keeps a field of the stored spec exactly if the snapshot had that field set or its value is the default, for each of the nine fields |
| `Safety.PatchKeepsEditsIff` | internal/controller/llminferencecluster_controller.go:86-122 | in every run, a defaulting patch leaves the stored object untouched exactly if every field is kept; otherwise a new generation begins |
| `Convergence.SuccessfulPassConverges` | internal/controller/llminferencecluster_controller.go:72-246 | from a snapshot of any age and any state of the children, a pass that reports success leaves every managed field at one function of signals, pods and the spec stored after defaulting |
| `Undisturbed.PassConvergesInRun` | internal/controller/llminferencecluster_controller.go:72-246 | in every run, a pass that gets to its report while others leave its cluster's spec, decode pods and children alone has put every managed field at the goal of the state it began in, whatever happens to other clusters, and to this one's status, finalizers and deletion mark, in between |
| `Convergence.FurtherPassChangesNothing` | internal/controller/llminferencecluster_controller.go:141-213 | on unchanged inputs no further pass from any snapshot changes any child, whichever of its calls fail |
| `Convergence.CurrentPassIsIdle` | internal/controller/llminferencecluster_controller.go:141-213 | in particular after a pass from the version the server held |
| `Convergence.TemplateLabelsIff` | internal/controller/llminferencecluster_controller.go:355-387 | after a successful pass a template carries the role's pod labels exactly when the operator sets those labels anyway |
| `Convergence.GoalDependsOnInputsOnly` | internal/controller/llminferencecluster_controller.go:141-213 | equal spec, signals and pods, in any listing order, mean the same goal |
| `Convergence.SucceedsIff` | internal/controller/llminferencecluster_controller.go:72-246 | from a snapshot of any age, a pass without failing calls succeeds exactly when the cluster is not being deleted, no other controller owns a child name, both ports are set, and scaling does not use the unimplemented source |
| `Convergence.ErrorsCount` | internal/controller/llminferencecluster_controller.go:72-246 | no error is ignored: a call that reports one ends the pass or turns it to reporting the failure |
| `Convergence.DriveLeavesForeign` | internal/controller/llminferencecluster_controller.go:180-213 | no pass, however it goes, changes an object another controller owns |
| `Convergence.DriveLeavesOthers` | internal/controller/llminferencecluster_controller.go:72-246 | no pass, however it goes, changes a child of another cluster |
| `Convergence.DriveKeepsSignals` | internal/controller/llminferencecluster_controller.go:492-516 | no pass, however it goes, changes or drops a signal that is set |
| `Reconcilers.DefaultsAsMerge` | internal/controller/llminferencecluster_controller.go:83-122 | defaulting a stale snapshot and patching the difference sets exactly the fields the snapshot left open |
| `Reconcilers.CopyLabels` | internal/controller/llminferencecluster_controller.go:267-274 | the copying loop gives the base labels plus the role |
| `Reconcilers.WorkerDeployment` | internal/controller/llminferencecluster_controller.go:355-387 | the field-by-field update equals the declarative mutation of a worker deployment |
| `Reconcilers.RouterDeploymentOf` | internal/controller/llminferencecluster_controller.go:401-430 | the field-by-field update equals the declarative mutation of the router deployment |
| `Reconcilers.ServiceOf` | internal/controller/llminferencecluster_controller.go:312-341 | the same for the three services |
| `Reconcilers.ConfigMapOf` | internal/controller/llminferencecluster_controller.go:481-514 | the same for the signals and shard map ConfigMaps |
| `Reconcilers.AccessOf` | internal/controller/llminferencecluster_controller.go:440-470 | the same for service account, role and role binding |
| `Reconcilers.SeedMissing` | internal/controller/llminferencecluster_controller.go:501-512 | only missing signals are seeded |
| `Reconcilers.Reconciler.FillSpec` | internal/controller/llminferencecluster_controller.go:86-117 | the nine defaults fill exactly the open fields |
| `Reconcilers.Reconciler.PatchSpec` | internal/controller/llminferencecluster_controller.go:86-122 | defaulting and patching refines the first step of the transition system |
| `Reconcilers.Reconciler.Gate` | internal/controller/llminferencecluster_controller.go:124-139 | deletion and finalizer handling refines the second step, with the matching early return |
| `Reconcilers.Reconciler.CreateOrUpdate` | internal/controller/llminferencecluster_controller.go:303-516 | each child write refines its step, failures included |
| `Reconcilers.Reconciler.Rescale` | internal/controller/llminferencecluster_controller.go:154-178 | reading signals, deciding and setting the condition refines the scaling step |
| `Reconcilers.Reconciler.MapShards` | internal/controller/llminferencecluster_controller.go:205-209 | listing and computing the map refines the listing step and yields as many shards as the spec sets, 8 when it sets none |
| `Reconcilers.Reconciler.ReportSuccess` | internal/controller/llminferencecluster_controller.go:215-245 | completing and patching the status refines the last step; success is returned exactly when the patch went through |
| `Reconcilers.Reconciler.RequeueDegraded` | internal/controller/llminferencecluster_controller.go:282-301 | marking the object degraded refines the failure step |
| `Reconcilers.Reconciler.Reconcile` | internal/controller/llminferencecluster_controller.go:72-246 | a whole pass, each call going any way, ends in the state and with the result of the transition system, ready for the next pass; a missing or unreadable object changes nothing |
| `Reconcilers.VerdictSucceeds` | internal/controller/llminferencecluster_controller.go:240-245 | requeue in 30 seconds without error is returned exactly by successful passes |
| `Reconcilers.EndsAre` | internal/controller/llminferencecluster_controller.go:120-139 | what each way of ending hands back: requeue in 30 or 5 seconds, an error, or nothing |
| `Reconcilers.SuccessResultIsTrue` | internal/controller/llminferencecluster_controller.go:72-246 | that result implies convergence, and without failing calls it is returned exactly when nothing is in the way |
| `System.PollReadsLatest` | cmd/router/main.go:212-224 | whatever a poll reads and parses is the latest map the operator published for the cluster |
| `System.SysInvAlong` | cmd/router/main.go:196-227 | the invariant of control plane, replicas and answers holds in every state of every run |
| `System.SessionAffinity` | cmd/router/main.go:143-165 | in every run in which every version the operator may act on has its shard count at n, unset standing for 8, every request on a replica that has loaded a map gets FNV-1a(id) mod n |
| `System.FixedIff` | cmd/router/main.go:143-165 | a count that is n wherever it is set is fixed exactly if it is always set or n is 8 |
| `System.BeforeFirstMap` | cmd/router/main.go:148-152 | in every run a replica that has not loaded a map yet answers with shard 0 |
| `System.AffinityAcrossReplicas` | cmd/router/main.go:143-165 | requests of one conversation get the same shard on all replicas at all times |
| `System.SnapshotSafety` | cmd/router/main.go:148-152 | in every run a replica holds nothing or one whole published map |
| `System.OneStepForward` | cmd/router/main.go:208-225 | a failed poll leaves every replica as it was; only storing a fetched map changes the current one, and never to an older one |
| `System.NeverBack` | cmd/router/main.go:208-225 | between any two moments a replica neither loses its map nor goes back in the publish history |
| `System.RouterCatchesUp` | cmd/router/main.go:208-225 | after a successful pass, one poll and one store bring a replica to the map of exactly the decode pods there are, with as many shards as the spec sets, and requests to the hash modulo that count |
| `System.RouterPollsPublishedMap` | internal/controller/llminferencecluster_controller.go:416-419 | after a successful pass the name handed to the router is that of a ConfigMap that reads as that map |
| `Counterexamples.StaleDefaultsOverwrite` | internal/controller/llminferencecluster_controller.go:86-122 | a run in which the defaults of a stale pass replace the hash key and the shard count a user has set |
| `Counterexamples.FailedPassDisagrees` | internal/controller/llminferencecluster_controller.go:209-213 | a run in which a refused map write and a degraded status leave shards that disagree with the published map |
| `Counterexamples.StaleReportDisagrees` | internal/controller/llminferencecluster_controller.go:205-243 | a run in which a pass reports success and the persisted shards disagree with the map it published |
| `Counterexamples.StatusAhead` | internal/controller/llminferencecluster_controller.go:215-243 | a run in which a report lands on a re-created object and observes generation 2 of an object at generation 1 |
| `Counterexamples.UnsetCountPublishesEight` | internal/controller/llminferencecluster_controller.go:623 | a run in which eight shards are published although every version that sets a count sets another |
| `Counterexamples.PodLabelsLost` | internal/controller/llminferencecluster_controller.go:369-370 | a pod label in the spec that is missing from the template, whatever deployment existed before |
| `Counterexamples.AllHappen` | internal/controller/llminferencecluster_controller.go:72-246 | runs of all five kinds exist for a concrete cluster, spec and pods: disagreeing shards without and with an up-to-date report, a status ahead of its object, a lost edit, and a count that falls to eight |

## Left out

- HTTP transport, timeouts, flags, kubeconfig loading and the metrics servers: input and output only.
- Extracting the conversation id from a request body: the body is arbitrary JSON, so the id is an input; random ids are inputs too.
- JSON string escapes, non-integer numbers, booleans, null, invalid UTF-8 and case-insensitive keys: library behaviour outside what the operator emits.
- Text to float conversion: `strconv.ParseFloat` is a parameter; only the error-to-zero and empty-to-zero rules are modelled.
- The library sorting algorithm: an in-place insertion sort stands for it, so entries of equal name keep their order where the library may not.
- The router's hash-key flag: parsed by the router and never consulted; the reconciler's side that writes it is modelled.
- Model name and Prometheus URL of the spec: the reconciler never reads them.
- Several namespaces, and several workers reconciling at once.
- The resource version a status patch carries when the object changed earlier in the same pass: a conflict shows as a refused call.
- Stale reads of children inside create-or-update: a conflict shows as a refused call.
- Owner references: identified by cluster name; the UID they also carry is not modelled.
- Interference inside the in-place program: `Reconcilers` runs a pass alone with failing calls; interleavings with users and other controllers are covered by the transition system.
- Updates in place of the child objects: each child is a value that its mutation replaces, so aliasing of the label map shared by a deployment, its selector and its template is not captured.
- A panic on an absent service port: modelled as a pass that ends at once with an error.
- The Prometheus adapter: a stub that always fails, modelled as one failing step.
- The mock worker, generated deep copies, manifests, deployment files and end-to-end suites.
