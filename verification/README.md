# k8s-sims fixture generator, modelled in Dafny

The k8s-sims utilities build synthetic cluster fixtures for benchmarking
simulated Kubernetes clusters. `utils/kube-gen.py` loads node and pod
documents, records every loaded node's capacity in a ledger of remaining
`(cpu, memory)` pairs, and then runs `generate_n_nodes` once per *stage*.
A stage appends its slice of nodes to the selected nodes, after the node
callback has patched them. It then walks the pending pods in order: it reads
each pod's request, patches the pod, and places it on the first ledger entry
with room, charging that entry. The walk stops at the first pod that fits
nowhere. The placed pods are removed from the pending list, and the
cumulative node and pod selections are written out.
`utils/object-generator.py` is the single-stage variant. It loads exactly
`node_count` nodes and interleaves the capacity reads with the node patches.
`kubemark/experiments/pod-to-hollow-node.py` turns every node of a snapshot
into a copy of the hollow-node template.

Three patches are modelled:
- `patch_kwok_node` replaces a node's whole `metadata` with a fixed
  annotation.
- `patch_hollow_pod` sets container 0's pull policy and image, sets the
  namespace and adds a required node affinity.
- `patch_hollow_node` copies a template. It stamps the copy with the node's
  name, appends the node's labels to the second-to-last launch argument, and
  substitutes the node's allocatable resources into the last one. The
  copies in `utils/object-generator.py:25-61` behave identically.

The model works on immutable values:
- `Doc.Value` is an insertion-ordered YAML document.
- Python subscripts become paths with `Doc.Get` and `Doc.Put`. Negative list
  indices resolve as Python resolves them.
- Every exception becomes a `Wrappers.Fault` in a `Result`.
- The node and pod callbacks are function values, so every property about
  the drivers holds for any callback. Only those that need the pod callback
  to *settle* carry that requirement. A pod callback settles when patching a
  patched pod changes nothing and keeps its request. Every configured
  callback is proved to settle.

Modules, one per file:
- `wrappers`: `Result`, `Option` and the faults.
- `sequences`: the map-until-first-error of the node loops.
- `text`: `int()`, `[:-n]`, `str.replace` and integer rendering.
- `doc`: documents and subscripts.
- `ledger`: the `(cpu, memory)` arithmetic, first fit and the charge
  accounting.
- `quantity`: reading a request or capacity.
- `patches`: the three patches.
- `packing`: the ledger set-up, the first-fit engine and the pod loop.
- `stages`: the stage plan.
- `kubegen`: the staged driver.
- `objectgen`: the single-stage driver.
- `hollownodes`: the pod-to-hollow-node loop.
- `scenarios`: how a pass unfolds request by request and where it stops.

Behaviours of the code that a reader of the scripts' purpose might not
expect, all modelled as the code has them:
- **Stopping.** The pod loop stops at the first pod that fits nowhere
  (`break`); it does not skip that pod and continue
  (`Scenarios.PackThreeThenMiss`).
- **Whole ledger.** Every stage scans the ledger of *all* loaded nodes from
  index 0, not just the nodes of the stage. No entry is ever frozen.
- **Snapping.** Stage `i` is the last when `|(i+1)·K − L| ≤ K`, and it then
  ends at `L`. So 1000 nodes with step 300 give three stages, the last
  being `[600, 1000)`; there is no fourth stage (`Stages.PlanThousandByThreeHundred`).
- **Kwok patch.** It adds no taint. Its shallow `update` replaces the whole
  `metadata`, so the node loses its name and labels
  (`Patches.KwokNodeForgetsIdentity`).
- **Later stages.** The pod that stopped a stage heads the pending list,
  already patched. Every later stage therefore tries the same request
  against the same ledger and misses again. So with a settling pod callback,
  every stage after the first writes the same pods as the first
  (`KubeGen.LaterStagesPlaceNothing`, `KubeGen.GenerateLaterStages`).

## Model

| member | source | states |
|---|---|---|
| Sequences.MapResult | utils/kube-gen.py:94-98 | a callback loop over a list succeeds exactly when every element's call succeeds, yielding each call's result in order; on failure the fault is the first failing element's, with every earlier element succeeding |
| Sequences.MapResultAppend | utils/kube-gen.py:94-98 | running the loop over two consecutive lists is running it over their concatenation |
| Sequences.MapResultExtend | utils/kube-gen.py:94-98 | patching nodes `[0, a)` and then `[a, b)` yields the patched prefix `[0, b)` |
| Text.ParseInt | utils/kube-gen.py:101-102 | `int()` accepts exactly a non-empty digit string with an optional sign; the sign decides the sign of the value |
| Text.ParseIntRoundTrip | utils/kube-gen.py:101-102 | `int(str(n)) == n` for every integer |
| Text.DigitsValueLeadingZero | utils/kube-gen.py:101-102 | a leading `0` keeps a digit string a digit string and does not change its value |
| Text.ParseIntLeadingZero | utils/kube-gen.py:101-102 | `int("0" + s) == int(s)` for every non-empty digit string: leading zeros are ignored |
| Text.ParseIntPlus | utils/kube-gen.py:101-102 | `int("+" + s) == int(s)` for every non-empty digit string |
| Text.ParseIntMinus | utils/kube-gen.py:101-102 | `int("-" + s) == -int(s)` for every non-empty digit string |
| Text.NatToStringValue | utils/kube-gen.py:53-54 | the decimal rendering of a natural number reads back as that number |
| Text.DropSuffix | utils/kube-gen.py:101-102 | `s[:-n]` drops the last `n` characters and yields a prefix, and the empty string when `s` is shorter |
| Text.DropSuffixAppend | utils/kube-gen.py:101-102 | stripping a unit of length `n` from `text + unit` gives back `text` |
| Text.Replace | utils/kube-gen.py:59 | replacing by a text of the pattern's length keeps the length; a longer replacement never shortens and a shorter one never lengthens; which text comes out is fixed by ReplaceLeading, ReplaceSkip and ReplaceAbsent together |
| Text.ReplaceAbsent | utils/kube-gen.py:59 | `str.replace` leaves a string without the pattern unchanged |
| Text.ReplaceSelf | utils/kube-gen.py:59 | replacing a pattern by itself changes nothing |
| Text.ReplaceLeading | utils/kube-gen.py:59 | a leading occurrence is replaced and the scan resumes after it |
| Text.ReplaceSkip | utils/kube-gen.py:59 | a character that does not start an occurrence is kept and the scan moves to the next one |
| Text.ReplaceKeepsPrefix | utils/kube-gen.py:59 | text in which no occurrence starts is kept, and the later occurrences are still replaced |
| Doc.KeyIndex | utils/kube-gen.py:56-57 | a key is found at its first occurrence and is absent exactly when no field carries it |
| Doc.Store | utils/kube-gen.py:56-57 | `d[k] = v` makes `k` map to `v`, leaves every other key's value alone, keeps an existing key's position and appends a new one |
| Doc.StoreSame | utils/kube-gen.py:56-57 | storing the value a key already has changes nothing |
| Doc.Index | utils/kube-gen.py:58-59 | a Python list index is valid exactly in `[-len, len)`, and a negative one counts from the end |
| Doc.SetChild | utils/kube-gen.py:83-85 | after one subscript assignment, reading that subscript gives the value written |
| Doc.SetChildOther | utils/kube-gen.py:83-85 | one subscript assignment leaves every other subscript of the container alone |
| Doc.Get | utils/kube-gen.py:53-56 | the empty path reads the document itself, and a path that reads something starts with a key into a mapping or an index into a list |
| Doc.Put | utils/kube-gen.py:83-85 | `v[p0]...[pn] = x` succeeds exactly when `v[p0]...[pn-1]` exists and can take subscript `pn`; the document keeps its kind, and a list keeps its length |
| Doc.PutGet | utils/kube-gen.py:83-85 | after `v[p] = x`, reading `v[p]` gives `x` |
| Doc.PutOther | utils/kube-gen.py:83-86 | `v[p] = x` leaves every path that branches off `p` as it was |
| Doc.PutSame | utils/kube-gen.py:83-85 | writing the value already stored at a path changes nothing |
| Doc.PutBelow | utils/kube-gen.py:58-59 | a nested assignment succeeds only below an existing container, and changes that container as the shorter assignment would |
| Doc.GetAppend | utils/kube-gen.py:56-59 | reading one step further down a path reads that step from the container the path reaches, and fails when the path does |
| Doc.PutListItem | utils/kube-gen.py:58-59 | assigning `command[i]` leaves the command list with only item `i` replaced |
| Doc.DivergeAt | utils/kube-gen.py:83-86 | two paths that agree up to a step and then name different keys or indices branch apart, in both directions |
| Doc.Join | utils/kube-gen.py:53-54 | the comma join of `key=value` pairs succeeds exactly when every value renders, and is empty for an empty mapping |
| Doc.JoinAppend | utils/kube-gen.py:53-54 | joining two non-empty mappings is joining each and putting a comma between them |
| Doc.JoinSingle | utils/kube-gen.py:53-54 | one entry joins to `key=value` |
| ResourceLedger.FirstFitFrom | utils/kube-gen.py:106-110 | the index found from a start position fits, no earlier one from there fits, and none is found exactly when none fits |
| ResourceLedger.FirstFit | utils/kube-gen.py:106-110 | the `next(...)` generator: the lowest index whose entry has room for both cpu and memory, and `None` exactly when no entry has room |
| ResourceLedger.Allocate | utils/kube-gen.py:112 | charging entry `i` subtracts the request from it alone, and a fitting request leaves it non-negative |
| ResourceLedger.UsedAppend | utils/kube-gen.py:112 | a node's charges over two logs are the sum of its charges in each |
| ResourceLedger.TouchedAppend | utils/kube-gen.py:112 | a node received a placement in a concatenated log exactly when it did in one of the parts |
| ResourceLedger.ChargedAppend | utils/kube-gen.py:112 | charging a ledger with one log and then another is charging the original capacities with both logs |
| ResourceLedger.ChargedStep | utils/kube-gen.py:112 | one node's two rounds of charges add up, and stay non-negative once either round placed something there |
| Quantity.ParseQuantity | utils/kube-gen.py:101-102 | `int(s[:-n])` succeeds exactly when the stripped text is an integer and fails with that text otherwise |
| Quantity.QuantityRoundTrip | utils/kube-gen.py:101-102 | a rendered integer followed by any unit of the stripped length reads back as that integer |
| Quantity.TextAt | utils/kube-gen.py:101 | a quantity read succeeds exactly on a string at the path, and a missing path or a non-string fails with a shape error |
| Quantity.ReadPair | utils/kube-gen.py:101-102 | the pair read is `x` exactly when the `cpu` and `memory` leaves are strings that, their unit characters dropped, are `x`'s decimal numbers; a missing or non-string cpu leaf raises a shape error before memory is looked at, and any other failure is a shape error or an unparsable number |
| Quantity.Request | utils/kube-gen.py:101-102 | a pod's request is `x` exactly when container 0's requested `cpu` and `memory` strings read as `x` |
| Quantity.Capacity | utils/kube-gen.py:134 | a node's capacity is `x` exactly when its `status.capacity` `cpu` and `memory` strings read as `x` |
| Quantity.ReadPairRoundTrip | utils/kube-gen.py:134 | a document holding cpu as number plus one character and memory as number plus two characters reads back as exactly those numbers |
| Quantity.ReadPairReadsLeaves | utils/kube-gen.py:101-102 | a request or capacity depends only on the `cpu` and `memory` leaves |
| Quantity.BareCpuRejected | utils/kube-gen.py:101 | a one-character cpu quantity without a unit, such as `"4"`, loses its only digit and fails to parse. A longer bare number is not rejected: it silently loses its last digit, so `"40"` reads as 4 (`Quantity.QuantityRoundTrip` with `n = 4` and unit `"0"`) |
| Quantity.UnitsNotConverted | utils/kube-gen.py:102 | the memory unit is discarded unread: `16Gi` and `16Mi` both read as 16 |
| Patches.Write | utils/kube-gen.py:83-85 | a subscript assignment statement succeeds exactly when the path can be assigned, and otherwise raises a shape error |
| Patches.WriteSame | utils/kube-gen.py:83-85 | rewriting a value already in place leaves the document unchanged |
| Patches.KwokNode | utils/kube-gen.py:40-48 | the kwok patch succeeds on any mapping; `metadata` becomes exactly the fixed annotation block, every other key keeps its value, and the key order is kept, with `metadata` appended if it was absent |
| Patches.KwokNodeForgetsIdentity | utils/kube-gen.py:40-48 | after the kwok patch the node has no name and no labels, and carries `kwok.x-k8s.io/node: fake` |
| Patches.KwokNodeIdempotent | utils/kube-gen.py:48 | patching a kwok node again changes nothing |
| Patches.HollowPod | utils/kube-gen.py:63-86 | the hollow-pod patch only ever raises a shape error, and a patched pod is a mapping as the input was; `HollowPodSucceeds` says exactly when it succeeds |
| Patches.HollowPodSteps | utils/kube-gen.py:83-86 | a successful hollow-pod patch is the four assignments in source order, each succeeding |
| Patches.WriteKey | utils/kube-gen.py:83-85 | assigning a key below a path succeeds exactly when the path reaches a mapping |
| Patches.WriteBelowKeepsDict | utils/kube-gen.py:83-86 | an assignment strictly below a mapping leaves a mapping there |
| Patches.PodShapedSpec | utils/kube-gen.py:83-86 | a pod whose first container is a mapping has a mapping `spec` |
| Patches.PodWritesKeepSpec | utils/kube-gen.py:83-84 | the two container assignments keep `spec` a mapping and leave `metadata` as it was |
| Patches.SpecWriteKeeps | utils/kube-gen.py:83-84 | an assignment strictly inside a mapping `spec` keeps `spec` a mapping and leaves `metadata` as it was |
| Patches.PodContainerWrites | utils/kube-gen.py:83-84 | the pull-policy assignment succeeds exactly when the first container is a mapping, and then the image assignment succeeds too |
| Patches.PodLaterWrites | utils/kube-gen.py:85-86 | once `spec` is a mapping, the namespace assignment succeeds exactly when `metadata` is a mapping, and the affinity update then succeeds |
| Patches.NamespaceKeepsSpec | utils/kube-gen.py:85-86 | the namespace assignment leaves `spec`, which the affinity update then changes, as it was |
| Patches.HollowPodSucceeds | utils/kube-gen.py:83-86 | the hollow-pod patch succeeds exactly when the pod's first container and its `metadata` are mappings |
| Patches.HollowPodSets | utils/kube-gen.py:83-86 | the patched pod has pull policy `IfNotPresent`, image `docker.io/busybox:latest`, namespace `kubemark` and the kubemark node affinity |
| Patches.HollowPodKeepsOthers | utils/kube-gen.py:83-86 | every path away from the four written ones reads the same before and after the patch |
| Patches.HollowPodIdempotent | utils/kube-gen.py:63-86 | patching a hollow pod again changes nothing |
| Patches.HollowPodKeepsRequest | utils/kube-gen.py:101-105 | the patch leaves the request the packing loop reads unchanged, so reading before or after patching gives the same request |
| Patches.RequestLeafKept | utils/kube-gen.py:83-86 | the `cpu` and `memory` request leaves survive the hollow-pod patch |
| Patches.ValueAt | utils/kube-gen.py:56 | reading a subscript succeeds exactly when the path exists, and yields its value |
| Patches.JoinAt | utils/kube-gen.py:53-54 | the join succeeds exactly when the path holds a mapping whose values all render, and yields that mapping's join; a missing path or a non-mapping raises a shape error and an unrenderable value the rendering error |
| Patches.Extend | utils/kube-gen.py:58 | `x += ",labels"` concatenates onto a string, extends a list by the characters, and raises on anything else |
| Patches.ReadNode | utils/kube-gen.py:53-56 | reading a node succeeds exactly when its allocatable map and its labels join and it has a name, and yields those joins and the name |
| Patches.HollowNode | utils/kube-gen.py:50-61 | a hollow node is built only from a readable node and a mapping template, and is a mapping; the failures are shape errors and unrenderable labels or resources; `HollowNodeSucceeds` says exactly when it succeeds |
| Patches.RebuildSteps | utils/kube-gen.py:56-59 | a successful rebuild is the four template assignments of the source in order |
| Patches.HollowNodeIdentity | utils/kube-gen.py:56-57 | the hollow node's name and its `name` label are the source node's name |
| Patches.HollowNodeLabelArg | utils/kube-gen.py:58 | the second-to-last argument is the template's, extended by a comma and the node's joined labels |
| Patches.HollowNodeResourceArg | utils/kube-gen.py:59 | the last argument is the template's with the sentinel replaced by the node's joined allocatable map |
| Patches.HollowNodeKeepsTemplate | utils/kube-gen.py:52-61 | every path away from the four written ones is as in the template: nothing of the source node leaks in |
| Patches.HollowNodeCommandShape | utils/kube-gen.py:58-59 | the command list keeps its length of at least two, and every argument but the last two is the template's |
| Patches.HollowNodeReadsOnly | utils/kube-gen.py:53-56 | the hollow node depends only on the node's name, labels and allocatable map |
| Patches.StampSucceeds | utils/kube-gen.py:56-57 | writing the name and the `name` label succeeds exactly when the template's labels are a mapping, and leaves both command arguments as they were |
| Patches.LabelArgWrite | utils/kube-gen.py:58 | assigning the second-to-last argument succeeds wherever it exists, and leaves the last argument as it was |
| Patches.ResourceArgWrite | utils/kube-gen.py:59 | assigning the last argument succeeds wherever it exists |
| Patches.FinishSucceeds | utils/kube-gen.py:58-59 | the two argument updates succeed exactly when the second-to-last argument is a string or list and the last is a string |
| Patches.RebuildSucceeds | utils/kube-gen.py:52-59 | rebuilding the template succeeds exactly when its labels are a mapping and its last two command arguments have those types |
| Patches.HollowNodeSucceeds | utils/kube-gen.py:50-61 | a hollow node is built exactly when the node has a name, labels and an allocatable map that render, and the template has that shape |
| Patches.PatchPodStable | utils/kube-gen.py:63-86 | each pod patch can be applied again without effect and keeps the pod's request |
| Packing.Pool | utils/kube-gen.py:132 | the loaded pods, each identified by its load position, with their documents unchanged |
| Packing.InitLedger | utils/kube-gen.py:133-134 | the ledger has one entry per loaded node, each that node's capacity, in order; it fails exactly when some capacity cannot be read, with the fault of the first such node in load order |
| Packing.Pack | utils/kube-gen.py:106-116 | first fit over a list of requests keeps the ledger's length and places a prefix of the requests in order on real nodes. Every entry ends as its capacity minus what was placed on it, and every entry that received a pod stays non-negative. When it stops early, the next request fits nowhere |
| Packing.PackFirstFit | utils/kube-gen.py:106-112 | placement `k` went to an entry with room for request `k` on the ledger charged with placements `0..k-1`, and no lower entry of that ledger had room: each pod takes the lowest fitting node at its turn |
| Packing.PackCons | utils/kube-gen.py:112 | one more placement at the head of a log is accounted as charging its node first |
| Packing.PackCharges | utils/kube-gen.py:112 | packing into an already charged ledger keeps it charged by the combined log: the capacity invariant survives every pass |
| Packing.Scan | utils/kube-gen.py:100-116 | the pod loop keeps every pending pod, in order, under its identity; it logs one placement per placed pod and reads at most one request past the placed pods |
| Packing.ScanPlacedPrefix | utils/kube-gen.py:111-116 | the placed pods are the front of the pending list the loop leaves |
| Packing.ScanReads | utils/kube-gen.py:101-105 | every pod the loop read had a readable request and was patched in place, and the pods after the miss are untouched |
| Packing.ScanPacks | utils/kube-gen.py:106-116 | the pod loop places exactly what first-fit packing of the requests it read places, and leaves the same ledger |
| Packing.ScanSucceeds | utils/kube-gen.py:100-116 | when every pending pod's request reads and every patch succeeds, the loop succeeds |
| Packing.Find | utils/kube-gen.py:127 | the position `list.remove` looks at is the first pod with an equal document, and there is none exactly when no pod's document is equal |
| Packing.Remove | utils/kube-gen.py:126-127 | `list.remove` succeeds exactly when an equal pod is present, and then deletes the first equal pod and keeps every other pod in order; otherwise it raises `ValueError` |
| Packing.RemoveEach | utils/kube-gen.py:126-127 | removing the placed pods one by one succeeds only if the first removal finds its pod, and takes one pod out per removal; a missing pod raises `ValueError`. RemoveEachPrefix states which pods remain |
| Packing.RemoveEachPrefix | utils/kube-gen.py:126-127 | removing the pods that head a list, in order, leaves the rest |
| Packing.ScanThenRemove | utils/kube-gen.py:126-127 | removing the placed pods after a pass never fails, and leaves the pods after them; placed plus remaining is the pending list before the pass |
| Stages.StepSize | utils/kube-gen.py:168 | the step is the increment when it is positive and the node count otherwise |
| Stages.ChainedAt | utils/kube-gen.py:198-204 | every stage but the last is a full step that did not snap, and the next starts where it ends |
| Stages.PlanFrom | utils/kube-gen.py:192-204 | the remaining stages start where asked, are no more than the iterations left, and are chained |
| Stages.Plan | utils/kube-gen.py:193 | at most `node_count // increment` stages run |
| Stages.PlanStarts | utils/kube-gen.py:198 | stage `j` starts at `j·K`, where stage `j−1` ended |
| Stages.PlanFromCovers | utils/kube-gen.py:194-204 | from a stage within the loaded nodes, and with the loaded count below one step past the last iteration, the remaining stages stay within the loaded nodes and the last ends at the loaded count |
| Stages.PlanCovers | utils/kube-gen.py:192-204 | with a step no larger than the node count and no more nodes loaded than requested, there is at least one stage, each lies within the loaded nodes, and the last ends exactly at the loaded count |
| Stages.PlanEmpty | utils/kube-gen.py:193-194 | a step larger than the node count runs no stage |
| Stages.PlanThousandByThreeHundred | utils/kube-gen.py:200-204 | 1000 nodes in steps of 300 give `[0,300) [300,600) [600,1000)` |
| Stages.PlanThousandByFiveHundred | utils/kube-gen.py:200-204 | 1000 nodes in steps of 500 give one stage `[0,1000)` |
| Stages.PlanWithoutIncrement | utils/kube-gen.py:168 | without an increment there is one stage covering every node |
| Stages.PlanShortLoad | utils/kube-gen.py:201-204 | with 400 of 1000 nodes loaded and step 300, the first stage snaps to `[0,400)` |
| Stages.Tiles | utils/kube-gen.py:198-204 | stages that tile a range lie inside it, each ending no earlier than it starts |
| Stages.ChainedTiles | utils/kube-gen.py:198-204 | chained stages within bounds tile the range from the first start |
| Stages.PlanTiles | utils/kube-gen.py:192-204 | every plan tiles the loaded nodes from 0 |
| KubeGen.LoadLimit | utils/kube-gen.py:31 | the loaded count never exceeds what is available; a positive limit is taken when that many exist, and otherwise everything is loaded |
| KubeGen.Slice | utils/kube-gen.py:94 | `nodes[start:end]` is the slice when in range, runs to the end of the list when `end` is past it, and is empty when it starts past the end or is reversed |
| KubeGen.Configure | utils/kube-gen.py:173-181 | `--kubemark` patches nodes with `patch_hollow_node` on the template and pods with `patch_hollow_pod`, whatever `--simkube` says; otherwise `--simkube` patches nodes with `patch_kwok_node` and leaves pods alone; with neither flag nothing is patched |
| KubeGen.ConfigureSettles | utils/kube-gen.py:173-181 | the pod callback of every mode settles |
| KubeGen.RunStage | utils/kube-gen.py:90-127 | a stage extends the selected nodes by its patched slice and the selected pods by a prefix of the pending pods, and keeps every pod identity exactly once, selected or pending; `RunStageSucceeds` says exactly when it succeeds |
| KubeGen.RunStages | utils/kube-gen.py:192-212 | at most one snapshot per planned stage is written, and a run without error writes one for every stage |
| KubeGen.RunStagesCounts | utils/kube-gen.py:93 | snapshot `j` is named by the end of stage `j` |
| KubeGen.RunStageSteps | utils/kube-gen.py:90-127 | a successful stage is the node loop, then the pod loop, then the removals, in that order |
| KubeGen.RunStageAccounts | utils/kube-gen.py:112 | a stage keeps the ledger equal to the capacities minus everything placed, non-negative where anything was placed |
| KubeGen.RunStageLogged | utils/kube-gen.py:101-113 | with a settling callback, every selected pod sits next to its placement, whose request is the pod's own |
| KubeGen.PatchedAgain | utils/kube-gen.py:100-105 | patching a pending pod again gives the patched input pod |
| KubeGen.PassTraced | utils/kube-gen.py:100-116 | the pods a pass read are their input pods patched, and the others are still pending |
| KubeGen.RunStageTraced | utils/kube-gen.py:90-127 | a stage keeps every pod's provenance: selected pods are patched input pods, pending pods are input pods or patched ones |
| KubeGen.RunStageSucceeds | utils/kube-gen.py:90-127 | a stage succeeds exactly when every node of its slice patches and the pod loop succeeds; the removals afterwards never fail |
| KubeGen.SlicePatches | utils/kube-gen.py:94-98 | when the callback accepts every node, it accepts every slice of them |
| KubeGen.PendingReadable | utils/kube-gen.py:100-105 | when every input pod reads and patches, and patching settles, so does every pending pod, patched or not |
| KubeGen.RunStagesSucceeds | utils/kube-gen.py:193-212 | when every node patches, every pod reads and patches, and patching settles, every stage of the run succeeds |
| KubeGen.PassKeepsTraced | utils/kube-gen.py:100-127 | appending the placed pods to the selection and keeping the pods after them as pending preserves every pod's provenance |
| KubeGen.PassSelects | utils/kube-gen.py:100-127 | after a pass the selection, placed pods added, holds only patched input pods, and the pods after the placed ones are pending |
| KubeGen.TracedPrefix | utils/kube-gen.py:113-127 | every input pod is selected or pending, never both, and the selected pods are exactly the first input pods, patched, in order |
| KubeGen.RunStageStuck | utils/kube-gen.py:111-116 | after a stage with a settling callback, the pending list is headed by an already patched pod that fits nowhere in the ledger |
| KubeGen.StuckStageKeeps | utils/kube-gen.py:100-127 | a stage that starts stuck selects no pod and changes neither the ledger nor the log |
| KubeGen.RunStagesFirst | utils/kube-gen.py:194-212 | a run that wrote something completed its first stage and continued from its state |
| KubeGen.RunStagesAccounts | utils/kube-gen.py:112 | the capacity invariant and the pod-to-placement pairing hold after every run of stages |
| KubeGen.RunStagesTraced | utils/kube-gen.py:192-212 | pod provenance holds after every run of stages |
| KubeGen.FirstSnapshotPrefix | utils/kube-gen.py:122-124 | the first pods file holds the first input pods, patched, in order |
| KubeGen.RunStagesNodes | utils/kube-gen.py:94-98 | nodes file `j` holds the first `end_j` loaded nodes, patched, in order |
| KubeGen.RunStageNodes | utils/kube-gen.py:94-98 | a stage extends the patched prefix of the loaded nodes up to its end |
| KubeGen.RunStagesStuck | utils/kube-gen.py:192-212 | from a stuck state every later snapshot writes the same pods |
| KubeGen.LaterStagesPlaceNothing | utils/kube-gen.py:192-212 | with a settling callback every snapshot of a run writes the pods of the first |
| KubeGen.BeginInvariants | utils/kube-gen.py:129-135 | before any stage nothing is charged, selected or logged, and every input pod is pending |
| KubeGen.Loaded | utils/kube-gen.py:31 | the loaded nodes are the first `min(N, available)` documents |
| KubeGen.Generate | utils/kube-gen.py:161-212 | a node whose capacity cannot be read stops the run before any file, with the ledger's fault, that of the first such node, and a run without error read every loaded capacity; `GenerateSucceeds` says when the run completes |
| KubeGen.GenerateStageBound | utils/kube-gen.py:193-194 | a run writes at most `node_count // increment` snapshot pairs, the step standing in for a non-positive increment |
| KubeGen.GenerateStarts | utils/kube-gen.py:161-209 | a run that reached its stages built the ledger of the loaded nodes and ran the plan for the step size over them |
| KubeGen.GenerateNoLedger | utils/kube-gen.py:133-134 | an unreadable capacity stops the run before any file, with the fault of the first unreadable loaded node |
| KubeGen.GenerateNodes | utils/kube-gen.py:118-120 | every nodes file holds a patched prefix of the loaded nodes, as long as its name says |
| KubeGen.GenerateComplete | utils/kube-gen.py:201-204 | a run without error ends with a nodes file covering every loaded node |
| KubeGen.GenerateSucceeds | utils/kube-gen.py:161-212 | a run ends without error when every loaded node's capacity reads and the node callback accepts it, every pod reads and patches, and patching settles |
| KubeGen.GeneratePods | utils/kube-gen.py:122-124 | every pods file holds the first input pods, patched, in order |
| KubeGen.GenerateLaterStages | utils/kube-gen.py:192-209 | every pods file after the first repeats the first |
| KubeGen.GenerateLedger | utils/kube-gen.py:112 | after a run no node is charged beyond its capacity, and the log pairs each written pod with its request |
| ObjectGen.LoadNodes | utils/object-generator.py:18-20 | a positive count takes exactly that many documents and fails when fewer exist; any other count takes every document |
| ObjectGen.LoadAndPatch | utils/object-generator.py:69-74 | the node loop yields one ledger entry and one patched node per loaded node, and fails with the fault of the first node whose read or patch fails, its capacity read before its patch |
| ObjectGen.FirstFaultShift | utils/object-generator.py:69-74 | a node that reads and patches cleanly does not change which later node is the first to fail |
| ObjectGen.LoadAndPatchSucceeds | utils/object-generator.py:69-74 | the interleaved loop succeeds exactly when reading every capacity and patching every node would each succeed |
| ObjectGen.LoadAndPatchSplits | utils/object-generator.py:69-74 | interleaving capacity reads with patches gives the same ledger and nodes as reading all capacities first, so the callback never changes the packed capacities |
| ObjectGen.GenerateOnce | utils/object-generator.py:63-98 | a pods file exists exactly when the run ends without error, and never without the nodes file; `GenerateOnceSucceeds` says when the run completes |
| ObjectGen.GenerateOnceSteps | utils/object-generator.py:63-78 | a written nodes file means loading and the node loop succeeded, and the file holds the loop's nodes |
| ObjectGen.GenerateOnceNodes | utils/object-generator.py:64-78 | the nodes file is the first `node_count` input nodes, patched, in order |
| ObjectGen.GenerateOnceSucceeds | utils/object-generator.py:63-98 | the run ends without error when every chosen node's capacity reads and the callback accepts it, and every pod reads and patches |
| ObjectGen.GenerateOncePods | utils/object-generator.py:80-98 | the pods file is a prefix of the input pods, each patched |
| ObjectGen.GenerateOnceLedger | utils/object-generator.py:86-92 | the ledger left is the capacities minus the placements, with no node charged beyond its capacity |
| ObjectGen.GenerateOnceLog | utils/object-generator.py:80-93 | each written pod has one placement carrying the pod's own request |
| ObjectGen.GenerateOnceStops | utils/object-generator.py:86-95 | when not every pod was written, the first unwritten one fits on no node of the final ledger |
| ObjectGen.PodsIgnoreNodeHook | utils/object-generator.py:69-95 | the pods file does not depend on the node callback |
| ObjectGen.GenerateOnceTooFew | utils/object-generator.py:18-19 | with fewer documents than requested, nothing is written and the run fails |
| HollowNodes.Convert | kubemark/experiments/pod-to-hollow-node.py:19-25 | a converted node had a name and came from a mapping template, and is a mapping; the failures are shape errors and unrenderable labels or resources; `ConvertSucceeds` says exactly when it succeeds |
| HollowNodes.ConvertAll | kubemark/experiments/pod-to-hollow-node.py:18-26 | the loop yields one mapping per node; a failure is the first failing node's, every node before it converting |
| HollowNodes.ConvertAgrees | kubemark/experiments/pod-to-hollow-node.py:18-25 | the loop body, with its own step order, converts a node exactly when `patch_hollow_node` does, and to the same document |
| HollowNodes.ConvertAllEach | kubemark/experiments/pod-to-hollow-node.py:18-26 | the loop succeeds exactly when every node converts, and then yields one hollow node per node, in order |
| HollowNodes.ConvertSucceeds | kubemark/experiments/pod-to-hollow-node.py:19-25 | a node converts exactly when it has a name, labels and an allocatable map that render, and the template has the hollow-node shape |
| HollowNodes.ConvertAllSucceeds | kubemark/experiments/pod-to-hollow-node.py:18-26 | the loop succeeds exactly when there are no nodes, or the template has the hollow-node shape and every node reads |
| HollowNodes.ConvertAllNames | kubemark/experiments/pod-to-hollow-node.py:20-21 | output `k` carries node `k`'s name in its metadata and its `name` label |
| HollowNodes.ConvertAllArgs | kubemark/experiments/pod-to-hollow-node.py:22-25 | output `k`'s last two arguments carry node `k`'s joined labels and joined allocatable map |
| HollowNodes.ConvertAllKeepsTemplate | kubemark/experiments/pod-to-hollow-node.py:19-26 | away from the written fields every output is the template |
| Scenarios.PackPlaces | utils/kube-gen.py:106-114 | a request with a fitting entry is placed there and packing continues on the charged ledger |
| Scenarios.PackMisses | utils/kube-gen.py:115-116 | a request that fits nowhere ends packing with nothing placed |
| Scenarios.PackThreeThenMiss | utils/kube-gen.py:100-116 | three placements followed by a miss give exactly those three placements and the thrice-charged ledger, whatever requests follow the miss and however small they are |

## Left out

- File and terminal I/O is not modelled: reading YAML files, `yaml.dump_all`, output file names and folders, `os.mkdir`, `argparse`, printing, the progress-animation thread and `sys.exit`. Each run returns the documents it would write, with `Snapshot.count` for the count in the file name.
- YAML parsing and serialisation are not modelled. Documents are values, and a pod's or node's document is the one the loader produced.
- `copy.deepcopy` and in-place mutation are not modelled as such. The model is value-based, so the aliasing that makes a patched pod in `pods` the same object as the one in `selected_pods` becomes the pod carrying its patched document in the pending list.
- Doc.Scalar: a non-scalar label or allocatable value is rejected with `Unrendered` rather than rendered by Python's `repr`. Floats are not modelled. Mapping keys are strings only, so a YAML mapping with integer or boolean keys, which the join at lines 53-54 would render, is not modelled.
- Text.ParseInt: Python's `int()` also accepts surrounding whitespace, `_` digit separators and non-ASCII Unicode decimal digits; those inputs are rejected here.
- Doc.Child: subscripting a string (`"abc"[0]`) is not modelled and reads as a missing path. In the modelled code such a read is always followed by a subscript or an assignment that raises in Python too.
- KubeGen.Generate: requires `node_count > 0`. With a positive increment, a count of 0 or below loads every node, reads every capacity and runs no stage, since `node_count // increment` is at most 0; this run writes nothing and is not modelled. With an increment of 0 or below, the step is the count itself: a count of 0 then raises `ZeroDivisionError` at line 193, and a negative count runs one stage over `nodes[0:node_count]`, a Python slice from the end, which is not modelled.
- HollowNodes.ConvertAgrees: when a node is malformed in two ways, the loop and `patch_hollow_node` may report different faults. Only success and the result are proved equal.
- Patches.HollowNodeLabelArg: is stated through `Extend`, which is exact for a string argument and a list argument alike, rather than as a string concatenation.
- `pods.remove(pod)` compares documents, not identities. It is proved to remove exactly the placed pods (`Packing.ScanThenRemove`), because they head the pending list.
- `replace_template_with_node` in `kubemark/experiments/pod-to-hollow-node.py` is an empty stub and is not modelled.
- `utils/plotter.py` is not part of this model.
