/** The single-stage generator of utils/object-generator.py: load exactly
    `node_count` nodes (or all of them), read each node's capacity and patch
    it, write the nodes file, then pack the pods first-fit into the
    capacities read and write the pods that fit, stopping at the first pod
    that does not. */
module ObjectGen {
  import opened Wrappers
  import opened Doc
  import opened ResourceLedger
  import opened Packing
  import Quantity
  import Sequences
  import KubeGen

  /** `get_yaml_file(nodes_path, False, node_count)`: with a positive limit,
      exactly that many documents are taken, and running out raises; with
      any other limit every document is taken. */
  function LoadNodes(docs: seq<Value>, count: int): (r: Result<seq<Value>>)
    ensures count > 0 ==> (r.Success? <==> count <= |docs|)
    ensures count > 0 && r.Success? ==> r.value == docs[..count]
    ensures count <= 0 ==> r == Success(docs)
    ensures r.Failure? ==> r.error == TooFewDocuments
  {
    if count <= 0 then Success(docs)
    else if |docs| < count then Failure(TooFewDocuments)
    else Success(docs[..count])
  }

  /** The ledger and the selected (patched) nodes. */
  datatype Nodes = Nodes(ledger: Ledger, nodes: seq<Value>)

  /** The node loop: for each node in order, read its capacity, then patch
      it; the first failure of either step stops the loop. */
  function LoadAndPatch(nodes: seq<Value>, hook: Callback): (r: Result<Nodes>)
    ensures r.Success? ==> |r.value.ledger| == |r.value.nodes| == |nodes|
    ensures r.Failure? ==> FirstFault(nodes, Quantity.Capacity, hook, r.error)
  {
    if |nodes| == 0 then Success(Nodes([], []))
    else
      var c :- Quantity.Capacity(nodes[0]);
      var n :- hook(nodes[0]);
      match LoadAndPatch(nodes[1..], hook)
      case Failure(e) =>
        FirstFaultShift(nodes, Quantity.Capacity, hook, e);
        Failure(e)
      case Success(rest) =>
        Success(Nodes([c] + rest.ledger, [n] + rest.nodes))
  }

  /** Node `k` is the first whose capacity `read` or, that read having
      succeeded, whose patch fails, and it fails with `e`. */
  predicate FirstFault(nodes: seq<Value>, read: Value -> Result<Res>, hook: Callback, e: Fault) {
    exists k :: 0 <= k < |nodes| &&
      (forall i :: 0 <= i < k ==> read(nodes[i]).Success? && hook(nodes[i]).Success?) &&
      (read(nodes[k]) == Failure(e) || (read(nodes[k]).Success? && hook(nodes[k]) == Failure(e)))
  }

  lemma FirstFaultShift(nodes: seq<Value>, read: Value -> Result<Res>, hook: Callback, e: Fault)
    requires |nodes| > 0 && read(nodes[0]).Success? && hook(nodes[0]).Success?
    requires FirstFault(nodes[1..], read, hook, e)
    ensures FirstFault(nodes, read, hook, e)
  {
    var rest := nodes[1..];
    var k :| 0 <= k < |rest| &&
      (forall i :: 0 <= i < k ==> read(rest[i]).Success? && hook(rest[i]).Success?) &&
      (read(rest[k]) == Failure(e) || (read(rest[k]).Success? && hook(rest[k]) == Failure(e)));
    forall i | 0 <= i < k + 1
      ensures read(nodes[i]).Success? && hook(nodes[i]).Success?
    {
      if i > 0 {
        assert nodes[i] == rest[i - 1];
      }
    }
    assert nodes[k + 1] == rest[k];
  }

  /** Interleaving the capacity reads with the patches is the same as reading
      every capacity first and patching every node afterwards: the loop
      succeeds exactly when both would, with the same ledger and nodes. In
      particular the callback never changes the capacities the pods are
      packed into. */
  lemma {:induction false} LoadAndPatchSplits(nodes: seq<Value>, hook: Callback)
    ensures LoadAndPatch(nodes, hook).Success? <==>
      InitLedger(nodes).Success? && KubeGen.PatchAll(nodes, hook).Success?
    ensures LoadAndPatch(nodes, hook).Success? ==>
      LoadAndPatch(nodes, hook).value == Nodes(InitLedger(nodes).value, KubeGen.PatchAll(nodes, hook).value)
  {
    LoadAndPatchSucceeds(nodes, hook);
    if |nodes| > 0 {
      LoadAndPatchSplits(nodes[1..], hook);
    }
  }

  lemma {:induction false} LoadAndPatchSucceeds(nodes: seq<Value>, hook: Callback)
    ensures LoadAndPatch(nodes, hook).Success? <==>
      InitLedger(nodes).Success? && KubeGen.PatchAll(nodes, hook).Success?
  {
    if |nodes| > 0 {
      LoadAndPatchSucceeds(nodes[1..], hook);
    }
  }

  /** What one run leaves behind: the nodes file and the pods file (absent
      when the run stopped before writing them), the error that stopped the
      run, and, for the accounting only, the ledger after packing and where
      each selected pod went. */
  datatype Outcome = Outcome(
    nodesFile: Option<seq<Value>>,
    podsFile: Option<seq<Value>>,
    fault: Option<Fault>,
    remaining: Ledger,
    log: seq<Placement>)

  /** `generate_n_nodes` of object-generator.py, without the file writes. */
  function GenerateOnce(nodeDocs: seq<Value>, podDocs: seq<Value>, count: int, hooks: KubeGen.Hooks): (r: Outcome)
    ensures r.fault.None? <==> r.podsFile.Some?
    ensures r.podsFile.Some? ==> r.nodesFile.Some?
  {
    match LoadNodes(nodeDocs, count)
    case Failure(e) => Outcome(None, None, Some(e), [], [])
    case Success(nodes) =>
      match LoadAndPatch(nodes, hooks.node)
      case Failure(e) => Outcome(None, None, Some(e), [], [])
      case Success(loaded) =>
        match Scan(loaded.ledger, Pool(podDocs), hooks.pod)
        case Failure(e) => Outcome(Some(loaded.nodes), None, Some(e), loaded.ledger, [])
        case Success(pass) => Outcome(Some(loaded.nodes), Some(Docs(pass.placed)), None, pass.ledger, pass.log)
  }

  /** The parts of a run that reached the pod loop. */
  lemma GenerateOnceSteps(nodeDocs: seq<Value>, podDocs: seq<Value>, count: int, hooks: KubeGen.Hooks)
    requires GenerateOnce(nodeDocs, podDocs, count, hooks).nodesFile.Some?
    ensures LoadNodes(nodeDocs, count).Success?
    ensures LoadAndPatch(LoadNodes(nodeDocs, count).value, hooks.node).Success?
    ensures GenerateOnce(nodeDocs, podDocs, count, hooks).nodesFile ==
      Some(LoadAndPatch(LoadNodes(nodeDocs, count).value, hooks.node).value.nodes)
  {
  }


  /** With enough nodes, every loaded node's capacity readable and accepted
      by the node callback, and every pod readable and accepted by the pod
      callback, the run writes both files. */
  lemma GenerateOnceSucceeds(nodeDocs: seq<Value>, podDocs: seq<Value>, count: int, hooks: KubeGen.Hooks)
    requires count <= |nodeDocs|
    requires var nodes := if count > 0 then nodeDocs[..count] else nodeDocs;
      forall k :: 0 <= k < |nodes| ==> Quantity.Capacity(nodes[k]).Success? && hooks.node(nodes[k]).Success?
    requires PodsReadable(podDocs, hooks.pod)
    ensures GenerateOnce(nodeDocs, podDocs, count, hooks).fault.None?
  {
    var nodes := LoadNodes(nodeDocs, count).value;
    LoadAndPatchSucceeds(nodes, hooks.node);
    var loaded := LoadAndPatch(nodes, hooks.node).value;
    var pool := Pool(podDocs);
    forall k | 0 <= k < |pool|
      ensures Quantity.Request(pool[k].doc).Success? && hooks.pod(pool[k].doc).Success?
    {
      assert Docs(pool)[k] == pool[k].doc;
    }
    ScanSucceeds(loaded.ledger, pool, hooks.pod);
  }

  /** The nodes file holds every loaded node, patched by the callback, in
      order. */
  lemma GenerateOnceNodes(nodeDocs: seq<Value>, podDocs: seq<Value>, count: int, hooks: KubeGen.Hooks)
    requires GenerateOnce(nodeDocs, podDocs, count, hooks).nodesFile.Some?
    ensures var loaded := if count > 0 then nodeDocs[..count] else nodeDocs;
      count <= |nodeDocs| &&
      KubeGen.PatchAll(loaded, hooks.node) == Success(GenerateOnce(nodeDocs, podDocs, count, hooks).nodesFile.value)
  {
    GenerateOnceSteps(nodeDocs, podDocs, count, hooks);
    var nodes := LoadNodes(nodeDocs, count).value;
    var loaded := LoadAndPatch(nodes, hooks.node).value;
    LoadAndPatchSplits(nodes, hooks.node);
  }

  /** The pods file holds the first input pods, in order, each as the pod
      callback left it. */
  lemma GenerateOncePods(nodeDocs: seq<Value>, podDocs: seq<Value>, count: int, hooks: KubeGen.Hooks)
    requires GenerateOnce(nodeDocs, podDocs, count, hooks).podsFile.Some?
    ensures var ps := GenerateOnce(nodeDocs, podDocs, count, hooks).podsFile.value;
      |ps| <= |podDocs| && forall k :: 0 <= k < |ps| ==> hooks.pod(podDocs[k]) == Success(ps[k])
  {
    GenerateOnceSteps(nodeDocs, podDocs, count, hooks);
    var nodes := LoadNodes(nodeDocs, count).value;
    var loaded := LoadAndPatch(nodes, hooks.node).value;
    var pool := Pool(podDocs);
    var pass := Scan(loaded.ledger, pool, hooks.pod).value;
    ScanReads(loaded.ledger, pool, hooks.pod);
    ScanPlacedPrefix(loaded.ledger, pool, hooks.pod);
    forall k | 0 <= k < |pass.placed|
      ensures hooks.pod(podDocs[k]) == Success(Docs(pass.placed)[k])
    {
      assert pass.placed[k] == pass.pool[k];
      assert Docs(pool)[k] == pool[k].doc;
    }
  }

  /** The ledger left after packing is each node's capacity minus the
      requests placed on it, and no node that received a pod is overdrawn. */
  lemma GenerateOnceLedger(nodeDocs: seq<Value>, podDocs: seq<Value>, count: int, hooks: KubeGen.Hooks)
    requires GenerateOnce(nodeDocs, podDocs, count, hooks).podsFile.Some?
    ensures var r := GenerateOnce(nodeDocs, podDocs, count, hooks);
      var nodes := LoadNodes(nodeDocs, count).value;
      InitLedger(nodes).Success? && Charged(InitLedger(nodes).value, r.remaining, r.log)
  {
    GenerateOnceSteps(nodeDocs, podDocs, count, hooks);
    var nodes := LoadNodes(nodeDocs, count).value;
    var loaded := LoadAndPatch(nodes, hooks.node).value;
    LoadAndPatchSplits(nodes, hooks.node);
    var pass := Scan(loaded.ledger, Pool(podDocs), hooks.pod).value;
    ScanPacks(loaded.ledger, Pool(podDocs), hooks.pod);
    ChargedEmpty(loaded.ledger);
    PackCharges(loaded.ledger, loaded.ledger, [], pass.reqs);
    assert [] + pass.log == pass.log;
  }

  lemma ChargedEmpty(l: Ledger)
    ensures Charged(l, l, [])
  {
  }

  /** Placement `k` carries the request of input pod `k`, and there is one
      placement per selected pod. */
  lemma GenerateOnceLog(nodeDocs: seq<Value>, podDocs: seq<Value>, count: int, hooks: KubeGen.Hooks)
    requires GenerateOnce(nodeDocs, podDocs, count, hooks).podsFile.Some?
    ensures var r := GenerateOnce(nodeDocs, podDocs, count, hooks);
      |r.log| == |r.podsFile.value| &&
      forall k :: 0 <= k < |r.log| ==> Quantity.Request(podDocs[k]) == Success(r.log[k].req)
  {
    GenerateOnceSteps(nodeDocs, podDocs, count, hooks);
    var nodes := LoadNodes(nodeDocs, count).value;
    var loaded := LoadAndPatch(nodes, hooks.node).value;
    var pool := Pool(podDocs);
    var pass := Scan(loaded.ledger, pool, hooks.pod).value;
    ScanPacks(loaded.ledger, pool, hooks.pod);
    ScanReads(loaded.ledger, pool, hooks.pod);
    forall k | 0 <= k < |pass.log| ensures Quantity.Request(podDocs[k]) == Success(pass.log[k].req) {
      assert Docs(pool)[k] == pool[k].doc;
    }
  }

  /** The pod loop stops only at a pod that fits no node: when the pods file
      is shorter than the pod list, the next pod's request exceeds what every
      node has left. */
  lemma GenerateOnceStops(nodeDocs: seq<Value>, podDocs: seq<Value>, count: int, hooks: KubeGen.Hooks)
    requires GenerateOnce(nodeDocs, podDocs, count, hooks).podsFile.Some?
    requires |GenerateOnce(nodeDocs, podDocs, count, hooks).podsFile.value| < |podDocs|
    ensures var r := GenerateOnce(nodeDocs, podDocs, count, hooks);
      var n := |r.podsFile.value|;
      Quantity.Request(podDocs[n]).Success? &&
      forall j :: 0 <= j < |r.remaining| ==> !Fits(r.remaining[j], Quantity.Request(podDocs[n]).value)
  {
    GenerateOnceSteps(nodeDocs, podDocs, count, hooks);
    var nodes := LoadNodes(nodeDocs, count).value;
    var loaded := LoadAndPatch(nodes, hooks.node).value;
    var pool := Pool(podDocs);
    var pass := Scan(loaded.ledger, pool, hooks.pod).value;
    ScanPacks(loaded.ledger, pool, hooks.pod);
    ScanReads(loaded.ledger, pool, hooks.pod);
    var n := |pass.placed|;
    assert Docs(pool)[n] == pool[n].doc;
  }

  /** The node callback does not influence which pods are selected: two runs
      that differ only in the node callback, and both reach the pod loop,
      write the same pods file. */
  lemma PodsIgnoreNodeHook(nodeDocs: seq<Value>, podDocs: seq<Value>, count: int, f: Callback, g: Callback, pod: Callback)
    requires GenerateOnce(nodeDocs, podDocs, count, KubeGen.Hooks(f, pod)).nodesFile.Some?
    requires GenerateOnce(nodeDocs, podDocs, count, KubeGen.Hooks(g, pod)).nodesFile.Some?
    ensures GenerateOnce(nodeDocs, podDocs, count, KubeGen.Hooks(f, pod)).podsFile ==
            GenerateOnce(nodeDocs, podDocs, count, KubeGen.Hooks(g, pod)).podsFile
  {
    GenerateOnceSteps(nodeDocs, podDocs, count, KubeGen.Hooks(f, pod));
    GenerateOnceSteps(nodeDocs, podDocs, count, KubeGen.Hooks(g, pod));
    var nodes := LoadNodes(nodeDocs, count).value;
    var a, b := LoadAndPatch(nodes, f).value, LoadAndPatch(nodes, g).value;
    LoadAndPatchSplits(nodes, f);
    LoadAndPatchSplits(nodes, g);
    assert a.ledger == b.ledger;
  }

  /** Too few node documents for a positive count stop the run before any
      file is written. */
  lemma GenerateOnceTooFew(nodeDocs: seq<Value>, podDocs: seq<Value>, count: int, hooks: KubeGen.Hooks)
    requires 0 < count && |nodeDocs| < count
    ensures GenerateOnce(nodeDocs, podDocs, count, hooks) == Outcome(None, None, Some(TooFewDocuments), [], [])
  {
  }
}
