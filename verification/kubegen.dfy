/** The staged generator of utils/kube-gen.py: load at most `node_count`
    nodes and every pod, build the ledger from all loaded nodes, then run
    `generate_n_nodes` once per planned stage. Each stage appends its node
    slice (patched) to the selected nodes, packs pending pods into the
    ledger of all loaded nodes, removes the placed pods from the pending
    list and writes the cumulative selections. */
module KubeGen {
  import opened Wrappers
  import opened Doc
  import opened ResourceLedger
  import opened Packing
  import opened Stages
  import Quantity
  import Patches
  import Sequences

  /** `limit if 0 < limit < len(res_list) else len(res_list)`: how many of
      the available node documents are loaded. */
  function LoadLimit(limit: int, available: nat): (r: nat)
    ensures r <= available
    ensures limit > 0 ==> r <= limit && (r == limit || r == available)
    ensures limit <= 0 ==> r == available
  {
    if 0 < limit < available then limit else available
  }

  /** Python's `s[a:b]` for non-negative bounds: clipped to the sequence. */
  function Slice(s: seq<Value>, a: nat, b: nat): (r: seq<Value>)
    ensures a <= b <= |s| ==> r == s[a..b]
    ensures b <= a || |s| <= a ==> r == []
    ensures a < |s| < b ==> r == s[a..]
  {
    if b <= a || |s| <= a then []
    else if b <= |s| then s[a..b]
    else s[a..]
  }

  /** A node patch as the callback `generate_n_nodes` receives. */
  function NodeStep(h: Patches.NodeHook): Callback {
    node => Patches.PatchNode(h, node)
  }

  /** A pod patch as the callback `generate_n_nodes` receives. */
  function PodStep(h: Patches.PodHook): Callback {
    pod => Patches.PatchPod(h, pod)
  }

  /** `for node in nodes[start:end]: _node_callback(node)`, in order. */
  function PatchAll(nodes: seq<Value>, f: Callback): Result<seq<Value>> {
    Sequences.MapResult(nodes, f)
  }

  /** The callbacks a run applies (the scripts pass `None` for "no patch",
      which is the identity here). */
  datatype Hooks = Hooks(node: Callback, pod: Callback)

  /** Lines 168-181: `--kubemark` wins over `--simkube`; the template only
      matters in kubemark mode. */
  function Configure(kubemark: bool, simkube: bool, template: Value): (r: Hooks)
    ensures kubemark ==> forall d :: r.node(d) == Patches.HollowNode(template, d) && r.pod(d) == Patches.HollowPod(d)
    ensures !kubemark && simkube ==> forall d :: r.node(d) == Patches.KwokNode(d) && r.pod(d) == Success(d)
    ensures !kubemark && !simkube ==> forall d :: r.node(d) == Success(d) && r.pod(d) == Success(d)
  {
    if kubemark then Hooks(NodeStep(Patches.HollowNodeHook(template)), PodStep(Patches.HollowPodHook))
    else if simkube then Hooks(NodeStep(Patches.KwokNodeHook), PodStep(Patches.KeepPod))
    else Hooks(NodeStep(Patches.KeepNode), PodStep(Patches.KeepPod))
  }

  /** Every configured pod callback settles: the stage loop relies on it. */
  lemma ConfigureSettles(kubemark: bool, simkube: bool, template: Value)
    ensures Settles(Configure(kubemark, simkube, template).pod)
  {
    var h := if kubemark then Patches.HollowPodHook else Patches.KeepPod;
    assert Configure(kubemark, simkube, template).pod == PodStep(h);
    forall d ensures SettlesOn(PodStep(h), d) {
      if Patches.PatchPod(h, d).Success? {
        Patches.PatchPodStable(h, d);
      }
    }
  }

  /** The module-level state the stages share: the ledger, the pending pods,
      the cumulative selections, and (for the accounting only) where each
      selected pod was placed. */
  datatype State = State(ledger: Ledger, pool: seq<Pod>, nodes: seq<Value>, pods: seq<Pod>, log: seq<Placement>)

  function Begin(l: Ledger, podDocs: seq<Value>): State {
    State(l, Pool(podDocs), [], [], [])
  }

  /** `generate_n_nodes(start_pos, end_pos, ...)`, without the file writes. */
  function RunStage(all: seq<Value>, s: State, st: Stage, hooks: Hooks): (r: Result<State>)
    ensures r.Success? ==> |s.nodes| <= |r.value.nodes| && r.value.nodes[..|s.nodes|] == s.nodes
    ensures r.Success? ==> PatchAll(Slice(all, st.start, st.end), hooks.node) == Success(r.value.nodes[|s.nodes|..])
    ensures r.Success? ==> |s.pods| <= |r.value.pods| && r.value.pods[..|s.pods|] == s.pods
    ensures r.Success? ==> Ids(r.value.pods[|s.pods|..]) + Ids(r.value.pool) == Ids(s.pool)
  {
    var added :- PatchAll(Slice(all, st.start, st.end), hooks.node);
    var pass :- Scan(s.ledger, s.pool, hooks.pod);
    var rest :- RemoveEach(pass.pool, pass.placed);
    ScanThenRemove(s.ledger, s.pool, hooks.pod, pass);
    assert (s.nodes + added)[|s.nodes|..] == added;
    assert (s.pods + pass.placed)[|s.pods|..] == pass.placed;
    Success(State(pass.ledger, rest, s.nodes + added, s.pods + pass.placed, s.log + pass.log))
  }

  /** What one stage writes: `nodes-<count>` and `pods-<count>` hold the
      cumulative selections; the pods file holds the documents of `pods`. */
  datatype Snapshot = Snapshot(count: nat, nodes: seq<Value>, pods: seq<Pod>)

  /** The files written, the error that ended the run early (if any), and
      the state after the last completed stage. */
  datatype Run = Run(written: seq<Snapshot>, fault: Option<Fault>, last: State)

  /** The stage loop over a plan; an error ends the run, keeping the files
      of the stages already completed. */
  function RunStages(all: seq<Value>, s: State, plan: seq<Stage>, hooks: Hooks): (r: Run)
    ensures |r.written| <= |plan|
    ensures r.fault.None? <==> |r.written| == |plan|
    decreases |plan|
  {
    if |plan| == 0 then Run([], None, s)
    else match RunStage(all, s, plan[0], hooks)
      case Failure(e) => Run([], Some(e), s)
      case Success(next) =>
        var rest := RunStages(all, next, plan[1..], hooks);
        Run([Snapshot(plan[0].end, next.nodes, next.pods)] + rest.written, rest.fault, rest.last)
  }

  /** Stage `j` writes the files named after its end position. */
  lemma {:induction false} RunStagesCounts(all: seq<Value>, s: State, plan: seq<Stage>, hooks: Hooks, j: nat)
    requires j < |RunStages(all, s, plan, hooks).written|
    ensures RunStages(all, s, plan, hooks).written[j].count == plan[j].end
    decreases |plan|
  {
    if j > 0 {
      var next := RunStage(all, s, plan[0], hooks).value;
      RunStagesCounts(all, next, plan[1..], hooks, j - 1);
    }
  }

  /** The parts of a completed stage: the patched node slice and the pass
      of the pod loop; the pending list keeps what follows the placed pods. */
  lemma RunStageSteps(all: seq<Value>, s: State, st: Stage, hooks: Hooks)
    requires RunStage(all, s, st, hooks).Success?
    ensures PatchAll(Slice(all, st.start, st.end), hooks.node).Success?
    ensures Scan(s.ledger, s.pool, hooks.pod).Success?
    ensures var added := PatchAll(Slice(all, st.start, st.end), hooks.node).value;
      var pass := Scan(s.ledger, s.pool, hooks.pod).value;
      RunStage(all, s, st, hooks) ==
        Success(State(pass.ledger, pass.pool[|pass.placed|..], s.nodes + added, s.pods + pass.placed, s.log + pass.log))
  {
    ScanThenRemove(s.ledger, s.pool, hooks.pod, Scan(s.ledger, s.pool, hooks.pod).value);
  }


  /** A stage completes exactly when its node slice patches and the pod
      loop runs through: the removals that follow never raise. */
  lemma RunStageSucceeds(all: seq<Value>, s: State, st: Stage, hooks: Hooks)
    ensures RunStage(all, s, st, hooks).Success? <==>
      PatchAll(Slice(all, st.start, st.end), hooks.node).Success? && Scan(s.ledger, s.pool, hooks.pod).Success?
  {
    if Scan(s.ledger, s.pool, hooks.pod).Success? {
      ScanThenRemove(s.ledger, s.pool, hooks.pod, Scan(s.ledger, s.pool, hooks.pod).value);
    }
  }

  /** When the node callback accepts every loaded node, it accepts every
      slice of them. */
  lemma SlicePatches(all: seq<Value>, a: nat, b: nat, hook: Callback)
    requires forall k :: 0 <= k < |all| ==> hook(all[k]).Success?
    ensures PatchAll(Slice(all, a, b), hook).Success?
  {
    var sl := Slice(all, a, b);
    forall i | 0 <= i < |sl| ensures hook(sl[i]).Success? {
      assert sl[i] == all[a + i];
    }
  }

  // ---------------------------------------------------------------- accounting

  /** A stage keeps the ledger charged with exactly the placements made. */
  lemma RunStageAccounts(all: seq<Value>, s: State, st: Stage, hooks: Hooks, capacity: Ledger)
    requires RunStage(all, s, st, hooks).Success?
    requires Charged(capacity, s.ledger, s.log)
    ensures var after := RunStage(all, s, st, hooks).value; Charged(capacity, after.ledger, after.log)
  {
    RunStageSteps(all, s, st, hooks);
    var added, pass := PatchAll(Slice(all, st.start, st.end), hooks.node).value, Scan(s.ledger, s.pool, hooks.pod).value;
    ScanPacks(s.ledger, s.pool, hooks.pod);
    PackCharges(capacity, s.ledger, s.log, pass.reqs);
  }

  /** Placement `k` records the request of selected pod `k`. */
  predicate Logged(s: State) {
    |s.log| == |s.pods| &&
    forall k :: 0 <= k < |s.pods| ==> Quantity.Request(s.pods[k].doc) == Success(s.log[k].req)
  }

  /** A stage keeps each placement next to the pod it placed. */
  lemma RunStageLogged(all: seq<Value>, s: State, st: Stage, hooks: Hooks)
    requires RunStage(all, s, st, hooks).Success?
    requires Logged(s) && Settles(hooks.pod)
    ensures Logged(RunStage(all, s, st, hooks).value)
  {
    RunStageSteps(all, s, st, hooks);
    var added, pass := PatchAll(Slice(all, st.start, st.end), hooks.node).value, Scan(s.ledger, s.pool, hooks.pod).value;
    ScanPacks(s.ledger, s.pool, hooks.pod);
    ScanReads(s.ledger, s.pool, hooks.pod);
    ScanPlacedPrefix(s.ledger, s.pool, hooks.pod);
    var after := RunStage(all, s, st, hooks).value;
    forall k | 0 <= k < |pass.placed|
      ensures Quantity.Request(pass.placed[k].doc) == Success(pass.log[k].req)
    {
      assert pass.placed[k] == pass.pool[k];
      assert SettlesOn(hooks.pod, s.pool[k].doc);
    }
    forall k | 0 <= k < |after.pods|
      ensures Quantity.Request(after.pods[k].doc) == Success(after.log[k].req)
    {
      if k >= |s.pods| {
        assert after.pods[k] == pass.placed[k - |s.pods|];
        assert after.log[k] == pass.log[k - |s.pods|];
      }
    }
  }

  // ---------------------------------------------------------------- provenance

  /** Pod `p` is input pod `p.id`, as read or after the pod callback. */
  predicate Pending(podDocs: seq<Value>, hook: Callback, p: Pod) {
    p.id < |podDocs| &&
    (p.doc == podDocs[p.id] || hook(podDocs[p.id]) == Success(p.doc))
  }

  /** Pod `p` is input pod `p.id` after the pod callback. */
  predicate Selected(podDocs: seq<Value>, hook: Callback, p: Pod) {
    p.id < |podDocs| && hook(podDocs[p.id]) == Success(p.doc)
  }

  /** Patching a pending pod yields the selected form of the same input pod,
      however often it was patched before. */
  lemma PatchedAgain(podDocs: seq<Value>, hook: Callback, p: Pod, q: Pod)
    requires Pending(podDocs, hook, p) && Settles(hook)
    requires q.id == p.id && hook(p.doc) == Success(q.doc)
    ensures Selected(podDocs, hook, q)
  {
    if p.doc != podDocs[p.id] {
      assert SettlesOn(hook, podDocs[p.id]);
    }
  }

  /** A pass over pending pods leaves pending pods, and those it read are
      selected forms. */
  lemma PassTraced(podDocs: seq<Value>, hook: Callback, l: Ledger, pool: seq<Pod>)
    requires Scan(l, pool, hook).Success? && Settles(hook)
    requires forall k :: 0 <= k < |pool| ==> Pending(podDocs, hook, pool[k])
    ensures var p := Scan(l, pool, hook).value;
      (forall k :: 0 <= k < |p.reqs| ==> Selected(podDocs, hook, p.pool[k])) &&
      (forall k :: 0 <= k < |p.pool| ==> Pending(podDocs, hook, p.pool[k]))
  {
    var p := Scan(l, pool, hook).value;
    ScanReads(l, pool, hook);
    assert |p.pool| == |Ids(p.pool)| == |pool|;
    forall k | 0 <= k < |p.reqs| ensures Selected(podDocs, hook, p.pool[k]) {
      assert Ids(p.pool)[k] == Ids(pool)[k];
      PatchedAgain(podDocs, hook, pool[k], p.pool[k]);
    }
  }

  /** The selected pods are input pods `0, 1, ...` in order, each in its
      patched form, and the pending pods are the remaining input pods in
      order, each as read or patched. */
  predicate Traced(podDocs: seq<Value>, hook: Callback, s: State) {
    Ids(s.pods) + Ids(s.pool) == Ids(Pool(podDocs)) &&
    (forall k :: 0 <= k < |s.pods| ==> Selected(podDocs, hook, s.pods[k])) &&
    (forall k :: 0 <= k < |s.pool| ==> Pending(podDocs, hook, s.pool[k]))
  }

  /** A stage keeps the provenance of every pod. */
  lemma RunStageTraced(all: seq<Value>, s: State, st: Stage, hooks: Hooks, podDocs: seq<Value>)
    requires RunStage(all, s, st, hooks).Success?
    requires Traced(podDocs, hooks.pod, s) && Settles(hooks.pod)
    ensures Traced(podDocs, hooks.pod, RunStage(all, s, st, hooks).value)
  {
    RunStageSteps(all, s, st, hooks);
    var added := PatchAll(Slice(all, st.start, st.end), hooks.node).value;
    var pass := Scan(s.ledger, s.pool, hooks.pod).value;
    PassKeepsTraced(podDocs, hooks.pod, s, pass, s.nodes + added, s.log + pass.log);
  }

  /** The pods a pass placed join the selected ones and the pods after them
      stay pending, whatever becomes of the nodes and the log. */
  lemma PassKeepsTraced(podDocs: seq<Value>, hook: Callback, s: State, pass: Pass, nodes: seq<Value>, log: seq<Placement>)
    requires Scan(s.ledger, s.pool, hook) == Success(pass)
    requires Traced(podDocs, hook, s) && Settles(hook)
    ensures Traced(podDocs, hook, State(pass.ledger, pass.pool[|pass.placed|..], nodes, s.pods + pass.placed, log))
  {
    var rest := pass.pool[|pass.placed|..];
    ScanPlacedPrefix(s.ledger, s.pool, hook);
    IdsAppend(pass.placed, rest);
    IdsShift(s.pods, pass.placed, rest);
    PassSelects(podDocs, hook, s, pass);
  }

  /** After a pass the selected pods, the placed ones added, are selected
      forms, and the pods after the placed ones are pending. */
  lemma PassSelects(podDocs: seq<Value>, hook: Callback, s: State, pass: Pass)
    requires Scan(s.ledger, s.pool, hook) == Success(pass)
    requires Traced(podDocs, hook, s) && Settles(hook)
    ensures forall k :: 0 <= k < |s.pods + pass.placed| ==> Selected(podDocs, hook, (s.pods + pass.placed)[k])
    ensures forall k :: 0 <= k < |pass.pool[|pass.placed|..]| ==> Pending(podDocs, hook, pass.pool[|pass.placed|..][k])
  {
    var n := |pass.placed|;
    var pods := s.pods + pass.placed;
    ScanPlacedPrefix(s.ledger, s.pool, hook);
    PassTraced(podDocs, hook, s.ledger, s.pool);
    forall k | 0 <= k < |pods| ensures Selected(podDocs, hook, pods[k]) {
      if k >= |s.pods| {
        assert pods[k] == pass.placed[k - |s.pods|] == pass.pool[k - |s.pods|];
      }
    }
    forall k | 0 <= k < |pass.pool[n..]| ensures Pending(podDocs, hook, pass.pool[n..][k]) {
      assert pass.pool[n..][k] == pass.pool[n + k];
    }
  }

  /** `pods` are input pods `0, 1, ...` in order, each as the callback left
      it. */
  predicate PatchedPrefix(podDocs: seq<Value>, hook: Callback, pods: seq<Pod>) {
    |pods| <= |podDocs| &&
    forall k :: 0 <= k < |pods| ==> pods[k].id == k && hook(podDocs[k]) == Success(pods[k].doc)
  }

  /** Under the provenance invariant the selected pods are exactly the first
      input pods, patched, and every input pod is selected or pending. */
  lemma TracedPrefix(podDocs: seq<Value>, hook: Callback, s: State)
    requires Traced(podDocs, hook, s)
    ensures |s.pods| + |s.pool| == |podDocs|
    ensures PatchedPrefix(podDocs, hook, s.pods)
  {
    var ids := Ids(s.pods) + Ids(s.pool);
    assert |ids| == |Pool(podDocs)| == |Docs(Pool(podDocs))| == |podDocs|;
    forall k | 0 <= k < |s.pods|
      ensures s.pods[k].id == k
    {
      assert ids[k] == Ids(s.pods)[k];
    }
  }

  // ---------------------------------------------------------------- later stages

  /** The pending list is empty, or its head has a readable request that
      fits no ledger entry and is unchanged by the pod callback. */
  predicate Stuck(s: State, hook: Callback) {
    |s.pool| > 0 ==>
      Quantity.Request(s.pool[0].doc).Success? &&
      FirstFit(s.ledger, Quantity.Request(s.pool[0].doc).value).None? &&
      hook(s.pool[0].doc) == Success(s.pool[0].doc)
  }

  /** After any completed stage the run is stuck: the pod that missed heads
      the pending list, already patched, against the same ledger. */
  lemma RunStageStuck(all: seq<Value>, s: State, st: Stage, hooks: Hooks)
    requires RunStage(all, s, st, hooks).Success? && Settles(hooks.pod)
    ensures Stuck(RunStage(all, s, st, hooks).value, hooks.pod)
  {
    RunStageSteps(all, s, st, hooks);
    var added, pass := PatchAll(Slice(all, st.start, st.end), hooks.node).value, Scan(s.ledger, s.pool, hooks.pod).value;
    var n := |pass.placed|;
    if n < |s.pool| {
      ScanPacks(s.ledger, s.pool, hooks.pod);
      ScanReads(s.ledger, s.pool, hooks.pod);
      assert SettlesOn(hooks.pod, s.pool[n].doc);
      assert pass.pool[n..][0] == pass.pool[n];
    }
  }

  /** A stage that starts stuck places nothing and leaves the pending list,
      the ledger and the selected pods as they were. */
  lemma StuckStageKeeps(all: seq<Value>, s: State, st: Stage, hooks: Hooks)
    requires RunStage(all, s, st, hooks).Success?
    requires Stuck(s, hooks.pod)
    ensures var after := RunStage(all, s, st, hooks).value;
      after.pods == s.pods && after.pool == s.pool && after.ledger == s.ledger && after.log == s.log
  {
    RunStageSteps(all, s, st, hooks);
    var added, pass := PatchAll(Slice(all, st.start, st.end), hooks.node).value, Scan(s.ledger, s.pool, hooks.pod).value;
    if |s.pool| > 0 {
      var head := s.pool[0];
      assert Pod(head.id, head.doc) == head;
      assert [head] + s.pool[1..] == s.pool;
    }
    assert pass.placed == [] && pass.log == [] && pass.pool == s.pool && pass.ledger == s.ledger;
  }

  // ---------------------------------------------------------------- the stage loop

  /** The first snapshot is the state after the first stage; snapshot
      `j + 1` is snapshot `j` of the rest of the plan run from there. */
  lemma RunStagesFirst(all: seq<Value>, s: State, plan: seq<Stage>, hooks: Hooks)
    requires |RunStages(all, s, plan, hooks).written| > 0
    ensures |plan| > 0 && RunStage(all, s, plan[0], hooks).Success?
    ensures var next := RunStage(all, s, plan[0], hooks).value;
      var r := RunStages(all, s, plan, hooks); var rest := RunStages(all, next, plan[1..], hooks);
      r.written == [Snapshot(plan[0].end, next.nodes, next.pods)] + rest.written &&
      r.last == rest.last && r.fault == rest.fault
  {
  }


  /** The loop keeps the ledger charged with exactly the placements made,
      each next to the pod it placed. */
  lemma {:induction false} RunStagesAccounts(all: seq<Value>, s: State, plan: seq<Stage>, hooks: Hooks, capacity: Ledger)
    requires Charged(capacity, s.ledger, s.log) && Logged(s) && Settles(hooks.pod)
    ensures var last := RunStages(all, s, plan, hooks).last;
      Charged(capacity, last.ledger, last.log) && Logged(last)
    decreases |plan|
  {
    if |plan| > 0 && RunStage(all, s, plan[0], hooks).Success? {
      var next := RunStage(all, s, plan[0], hooks).value;
      RunStageAccounts(all, s, plan[0], hooks, capacity);
      RunStageLogged(all, s, plan[0], hooks);
      RunStagesAccounts(all, next, plan[1..], hooks, capacity);
    }
  }

  /** The loop keeps the provenance of every pod. */
  lemma {:induction false} RunStagesTraced(all: seq<Value>, s: State, plan: seq<Stage>, hooks: Hooks, podDocs: seq<Value>)
    requires Traced(podDocs, hooks.pod, s) && Settles(hooks.pod)
    ensures Traced(podDocs, hooks.pod, RunStages(all, s, plan, hooks).last)
    decreases |plan|
  {
    if |plan| > 0 && RunStage(all, s, plan[0], hooks).Success? {
      var next := RunStage(all, s, plan[0], hooks).value;
      RunStageTraced(all, s, plan[0], hooks, podDocs);
      RunStagesTraced(all, next, plan[1..], hooks, podDocs);
    }
  }

  /** Pending pods of readable input pods are readable again: each is the
      input pod itself or its settled patch. */
  lemma PendingReadable(podDocs: seq<Value>, hook: Callback, pool: seq<Pod>)
    requires PodsReadable(podDocs, hook) && Settles(hook)
    requires forall k :: 0 <= k < |pool| ==> Pending(podDocs, hook, pool[k])
    ensures forall k :: 0 <= k < |pool| ==>
      Quantity.Request(pool[k].doc).Success? && hook(pool[k].doc).Success?
  {
    forall k | 0 <= k < |pool|
      ensures Quantity.Request(pool[k].doc).Success? && hook(pool[k].doc).Success?
    {
      assert SettlesOn(hook, podDocs[pool[k].id]);
    }
  }

  /** With every loaded node patchable and every input pod readable, each
      stage completes, so the run ends without error. */
  lemma {:induction false} RunStagesSucceeds(all: seq<Value>, s: State, plan: seq<Stage>, hooks: Hooks, podDocs: seq<Value>)
    requires Traced(podDocs, hooks.pod, s) && Settles(hooks.pod)
    requires forall k :: 0 <= k < |all| ==> hooks.node(all[k]).Success?
    requires PodsReadable(podDocs, hooks.pod)
    ensures RunStages(all, s, plan, hooks).fault.None?
    decreases |plan|
  {
    if |plan| > 0 {
      SlicePatches(all, plan[0].start, plan[0].end, hooks.node);
      PendingReadable(podDocs, hooks.pod, s.pool);
      ScanSucceeds(s.ledger, s.pool, hooks.pod);
      RunStageSucceeds(all, s, plan[0], hooks);
      var next := RunStage(all, s, plan[0], hooks).value;
      RunStageTraced(all, s, plan[0], hooks, podDocs);
      RunStagesSucceeds(all, next, plan[1..], hooks, podDocs);
    }
  }

  /** The first pod file holds the first input pods, in order, each as the
      pod callback left it. */
  lemma FirstSnapshotPrefix(all: seq<Value>, s: State, plan: seq<Stage>, hooks: Hooks, podDocs: seq<Value>)
    requires Traced(podDocs, hooks.pod, s) && Settles(hooks.pod)
    requires 0 < |RunStages(all, s, plan, hooks).written|
    ensures PatchedPrefix(podDocs, hooks.pod, RunStages(all, s, plan, hooks).written[0].pods)
  {
    RunStagesFirst(all, s, plan, hooks);
    var next := RunStage(all, s, plan[0], hooks).value;
    RunStageTraced(all, s, plan[0], hooks, podDocs);
    TracedPrefix(podDocs, hooks.pod, next);
  }

  /** Snapshot `j` holds the first `plan[j].end` loaded nodes, patched in
      order, when the plan tiles the loaded nodes from where the selection
      stands. */
  lemma {:induction false} RunStagesNodes(all: seq<Value>, s: State, plan: seq<Stage>, hooks: Hooks, from: nat, j: nat)
    requires from <= |all| && Tiles(plan, from, |all|)
    requires PatchAll(all[..from], hooks.node) == Success(s.nodes)
    requires j < |RunStages(all, s, plan, hooks).written|
    ensures PatchAll(all[..plan[j].end], hooks.node) == Success(RunStages(all, s, plan, hooks).written[j].nodes)
    decreases |plan|
  {
    var next := RunStage(all, s, plan[0], hooks).value;
    RunStageNodes(all, s, plan[0], hooks);
    if j > 0 {
      RunStagesNodes(all, next, plan[1..], hooks, plan[0].end, j - 1);
    }
  }

  /** A stage over the next slice extends the patched prefix of the loaded
      nodes to the end of that slice. */
  lemma RunStageNodes(all: seq<Value>, s: State, st: Stage, hooks: Hooks)
    requires st.start <= st.end <= |all|
    requires PatchAll(all[..st.start], hooks.node) == Success(s.nodes)
    requires RunStage(all, s, st, hooks).Success?
    ensures PatchAll(all[..st.end], hooks.node) == Success(RunStage(all, s, st, hooks).value.nodes)
  {
    var next := RunStage(all, s, st, hooks).value;
    var added := next.nodes[|s.nodes|..];
    assert next.nodes == s.nodes + added;
    Sequences.MapResultExtend(all, st.start, st.end, hooks.node, s.nodes, added);
  }

  /** Every snapshot of `w` holds exactly `pods`. */
  predicate SamePods(w: seq<Snapshot>, pods: seq<Pod>) {
    forall j :: 0 <= j < |w| ==> w[j].pods == pods
  }

  lemma SamePodsCons(x: Snapshot, rest: seq<Snapshot>, w: seq<Snapshot>, pods: seq<Pod>)
    requires w == [x] + rest && x.pods == pods && SamePods(rest, pods)
    ensures SamePods(w, pods)
  {
    forall j | 0 < j < |w| ensures w[j].pods == pods {
      assert w[j] == rest[j - 1];
    }
  }

  /** Once the run is stuck every later snapshot repeats the selected pods. */
  lemma {:induction false} RunStagesStuck(all: seq<Value>, s: State, plan: seq<Stage>, hooks: Hooks)
    requires Stuck(s, hooks.pod)
    ensures SamePods(RunStages(all, s, plan, hooks).written, s.pods)
    decreases |plan|
  {
    if |RunStages(all, s, plan, hooks).written| > 0 {
      RunStagesFirst(all, s, plan, hooks);
      var next := RunStage(all, s, plan[0], hooks).value;
      StuckStageKeeps(all, s, plan[0], hooks);
      RunStagesStuck(all, next, plan[1..], hooks);
      SamePodsCons(Snapshot(plan[0].end, next.nodes, next.pods), RunStages(all, next, plan[1..], hooks).written,
                   RunStages(all, s, plan, hooks).written, s.pods);
    }
  }

  /** With a callback that settles, only the first stage selects pods: the
      pod that missed it stays at the head of the pending list, and no later
      stage gets past it. */
  lemma LaterStagesPlaceNothing(all: seq<Value>, s: State, plan: seq<Stage>, hooks: Hooks)
    requires |RunStages(all, s, plan, hooks).written| > 0 && Settles(hooks.pod)
    ensures SamePods(RunStages(all, s, plan, hooks).written, RunStages(all, s, plan, hooks).written[0].pods)
  {
    RunStagesFirst(all, s, plan, hooks);
    var next := RunStage(all, s, plan[0], hooks).value;
    RunStageStuck(all, s, plan[0], hooks);
    RunStagesStuck(all, next, plan[1..], hooks);
    SamePodsCons(Snapshot(plan[0].end, next.nodes, next.pods), RunStages(all, next, plan[1..], hooks).written,
                 RunStages(all, s, plan, hooks).written, next.pods);
  }



  /** The state a run starts from satisfies every invariant: nothing is
      charged or selected and every input pod is pending as read. */
  lemma BeginInvariants(l: Ledger, podDocs: seq<Value>, hook: Callback)
    ensures Charged(l, Begin(l, podDocs).ledger, Begin(l, podDocs).log)
    ensures Logged(Begin(l, podDocs))
    ensures Traced(podDocs, hook, Begin(l, podDocs))
  {
    var pool := Pool(podDocs);
    assert Ids([]) + Ids(pool) == Ids(pool);
    forall k | 0 <= k < |pool| ensures Pending(podDocs, hook, pool[k]) {
      assert Docs(pool)[k] == pool[k].doc;
    }
  }

  /** `main`: load, build the ledger, plan the stages and run them. A node
      whose capacity cannot be read ends the run before any stage. */
  function Generate(nodeDocs: seq<Value>, podDocs: seq<Value>, count: int, increment: int, hooks: Hooks): (r: Run)
    requires count > 0
    ensures InitLedger(Loaded(nodeDocs, count)).Failure? ==>
      r.written == [] && r.fault == Some(InitLedger(Loaded(nodeDocs, count)).error)
    ensures r.fault.None? ==> InitLedger(Loaded(nodeDocs, count)).Success?
  {
    var nodes := Loaded(nodeDocs, count);
    match InitLedger(nodes)
    case Failure(e) => Run([], Some(e), Begin([], podDocs))
    case Success(l) => RunStages(nodes, Begin(l, podDocs), Plan(count, StepSize(count, increment), |nodes|), hooks)
  }

  /** `for i in range(0, node_count // increment)`: a run writes at most that
      many snapshot pairs. */
  lemma GenerateStageBound(nodeDocs: seq<Value>, podDocs: seq<Value>, count: int, increment: int, hooks: Hooks)
    requires count > 0
    ensures |Generate(nodeDocs, podDocs, count, increment, hooks).written| <= count / StepSize(count, increment)
  {
    var nodes := Loaded(nodeDocs, count);
    var plan := Plan(count, StepSize(count, increment), |nodes|);
    if InitLedger(nodes).Success? {
      assert |RunStages(nodes, Begin(InitLedger(nodes).value, podDocs), plan, hooks).written| <= |plan|;
    } else {
      assert |plan| >= 0;
    }
  }

  /** The loaded nodes: at most `count` of them, from the front. */
  function Loaded(nodeDocs: seq<Value>, count: int): (r: seq<Value>)
    requires count > 0
    ensures |r| <= count && |r| <= |nodeDocs| && r == nodeDocs[..|r|]
    ensures |r| == count || r == nodeDocs
  {
    nodeDocs[..LoadLimit(count, |nodeDocs|)]
  }

  /** The ledger of the run, when every loaded node's capacity is readable. */
  lemma GenerateStarts(nodeDocs: seq<Value>, podDocs: seq<Value>, count: int, increment: int, hooks: Hooks)
    requires count > 0
    requires |Generate(nodeDocs, podDocs, count, increment, hooks).written| > 0 ||
             Generate(nodeDocs, podDocs, count, increment, hooks).fault.None?
    ensures InitLedger(Loaded(nodeDocs, count)).Success?
    ensures var k := StepSize(count, increment); var loaded := Loaded(nodeDocs, count);
      Generate(nodeDocs, podDocs, count, increment, hooks) ==
      RunStages(loaded, Begin(InitLedger(loaded).value, podDocs), Plan(count, k, |loaded|), hooks)
  {
  }


  /** A node whose capacity cannot be read stops the run before any file is
      written, and reports the error of the first such node. */
  lemma GenerateNoLedger(nodeDocs: seq<Value>, podDocs: seq<Value>, count: int, increment: int, hooks: Hooks)
    requires count > 0
    requires InitLedger(Loaded(nodeDocs, count)).Failure?
    ensures var r := Generate(nodeDocs, podDocs, count, increment, hooks);
      r.written == [] && r.fault.Some? &&
      exists k :: 0 <= k < |Loaded(nodeDocs, count)| &&
        Quantity.Capacity(Loaded(nodeDocs, count)[k]) == Failure(r.fault.value) &&
        forall i :: 0 <= i < k ==> Quantity.Capacity(Loaded(nodeDocs, count)[i]).Success?
  {
    var loaded := Loaded(nodeDocs, count);
    assert Generate(nodeDocs, podDocs, count, increment, hooks) == Run([], Some(InitLedger(loaded).error), Begin([], podDocs));
  }

  /** Stage `j`'s node file holds the first loaded nodes up to the stage's end
      position, each patched by the node callback, in order. */
  lemma GenerateNodes(nodeDocs: seq<Value>, podDocs: seq<Value>, count: int, increment: int, hooks: Hooks, j: nat)
    requires count > 0
    requires j < |Generate(nodeDocs, podDocs, count, increment, hooks).written|
    ensures var w := Generate(nodeDocs, podDocs, count, increment, hooks).written[j];
      var loaded := Loaded(nodeDocs, count);
      w.count <= |loaded| && PatchAll(loaded[..w.count], hooks.node) == Success(w.nodes)
  {
    GenerateStarts(nodeDocs, podDocs, count, increment, hooks);
    var l := InitLedger(Loaded(nodeDocs, count)).value;
    var loaded := Loaded(nodeDocs, count);
    var plan := Plan(count, StepSize(count, increment), |loaded|);
    PlanTiles(count, StepSize(count, increment), |loaded|);
    assert loaded[..0] == [];
    RunStagesNodes(loaded, Begin(l, podDocs), plan, hooks, 0, j);
    RunStagesCounts(loaded, Begin(l, podDocs), plan, hooks, j);
  }

  /** A run over nodes whose capacities read and which the node callback
      accepts, and over pods whose requests read and which the pod callback
      accepts, completes every stage without error. */
  lemma GenerateSucceeds(nodeDocs: seq<Value>, podDocs: seq<Value>, count: int, increment: int, hooks: Hooks)
    requires count > 0 && Settles(hooks.pod)
    requires forall k :: 0 <= k < |Loaded(nodeDocs, count)| ==>
      Quantity.Capacity(Loaded(nodeDocs, count)[k]).Success? && hooks.node(Loaded(nodeDocs, count)[k]).Success?
    requires PodsReadable(podDocs, hooks.pod)
    ensures Generate(nodeDocs, podDocs, count, increment, hooks).fault.None?
  {
    var loaded := Loaded(nodeDocs, count);
    var l := InitLedger(loaded).value;
    BeginInvariants(l, podDocs, hooks.pod);
    RunStagesSucceeds(loaded, Begin(l, podDocs), Plan(count, StepSize(count, increment), |loaded|), hooks, podDocs);
  }

  /** A run that ends without error, with a step no larger than the count,
      writes at least one stage, and its last node file holds every loaded
      node. */
  lemma GenerateComplete(nodeDocs: seq<Value>, podDocs: seq<Value>, count: int, increment: int, hooks: Hooks)
    requires count > 0 && StepSize(count, increment) <= count
    requires Generate(nodeDocs, podDocs, count, increment, hooks).fault.None?
    ensures |Generate(nodeDocs, podDocs, count, increment, hooks).written| > 0
    ensures Sequences.Last(Generate(nodeDocs, podDocs, count, increment, hooks).written).count == |Loaded(nodeDocs, count)|
  {
    GenerateStarts(nodeDocs, podDocs, count, increment, hooks);
    var l := InitLedger(Loaded(nodeDocs, count)).value;
    var loaded := Loaded(nodeDocs, count);
    var plan := Plan(count, StepSize(count, increment), |loaded|);
    PlanCovers(count, StepSize(count, increment), |loaded|);
    RunStagesLast(loaded, Begin(l, podDocs), plan, hooks);
  }

  /** A run that completes writes its last snapshot for the plan's last
      stage. */
  lemma {:induction false} RunStagesLast(all: seq<Value>, s: State, plan: seq<Stage>, hooks: Hooks)
    requires |plan| > 0
    requires RunStages(all, s, plan, hooks).fault.None?
    ensures |RunStages(all, s, plan, hooks).written| > 0
    ensures Sequences.Last(RunStages(all, s, plan, hooks).written).count == Sequences.Last(plan).end
    decreases |plan|
  {
    var next := RunStage(all, s, plan[0], hooks).value;
    if |plan| > 1 {
      RunStagesLast(all, next, plan[1..], hooks);
    }
  }

  /** Stage `j`'s pod file holds the first input pods, in order, each once,
      each as the pod callback left it. */
  lemma GeneratePods(nodeDocs: seq<Value>, podDocs: seq<Value>, count: int, increment: int, hooks: Hooks, j: nat)
    requires count > 0 && Settles(hooks.pod)
    requires j < |Generate(nodeDocs, podDocs, count, increment, hooks).written|
    ensures PatchedPrefix(podDocs, hooks.pod, Generate(nodeDocs, podDocs, count, increment, hooks).written[j].pods)
  {
    GenerateStarts(nodeDocs, podDocs, count, increment, hooks);
    var l := InitLedger(Loaded(nodeDocs, count)).value;
    var loaded := Loaded(nodeDocs, count);
    var plan := Plan(count, StepSize(count, increment), |loaded|);
    BeginInvariants(l, podDocs, hooks.pod);
    FirstSnapshotPrefix(loaded, Begin(l, podDocs), plan, hooks, podDocs);
    if j > 0 {
      LaterStagesPlaceNothing(loaded, Begin(l, podDocs), plan, hooks);
    }
  }

  /** Only the first stage selects pods: every later pod file repeats the
      first one. */
  lemma GenerateLaterStages(nodeDocs: seq<Value>, podDocs: seq<Value>, count: int, increment: int, hooks: Hooks, j: nat)
    requires count > 0 && Settles(hooks.pod)
    requires 0 < j < |Generate(nodeDocs, podDocs, count, increment, hooks).written|
    ensures var r := Generate(nodeDocs, podDocs, count, increment, hooks);
      r.written[j].pods == r.written[0].pods
  {
    GenerateStarts(nodeDocs, podDocs, count, increment, hooks);
    var l := InitLedger(Loaded(nodeDocs, count)).value;
    var loaded := Loaded(nodeDocs, count);
    LaterStagesPlaceNothing(loaded, Begin(l, podDocs), Plan(count, StepSize(count, increment), |loaded|), hooks);
  }

  /** At the end of a run the ledger is each loaded node's capacity minus the
      requests of the pods placed on it, no node that received a pod is
      overdrawn, and the placements are the selected pods' requests in order. */
  lemma GenerateLedger(nodeDocs: seq<Value>, podDocs: seq<Value>, count: int, increment: int, hooks: Hooks)
    requires count > 0 && Settles(hooks.pod)
    requires InitLedger(Loaded(nodeDocs, count)).Success?
    ensures var last := Generate(nodeDocs, podDocs, count, increment, hooks).last;
      Charged(InitLedger(Loaded(nodeDocs, count)).value, last.ledger, last.log) && Logged(last)
  {
    var l := InitLedger(Loaded(nodeDocs, count)).value;
    var loaded := Loaded(nodeDocs, count);
    BeginInvariants(l, podDocs, hooks.pod);
    RunStagesAccounts(loaded, Begin(l, podDocs), Plan(count, StepSize(count, increment), |loaded|), hooks, l);
  }
}
