/** kubemark/experiments/pod-to-hollow-node.py (lines 18-26): every node of
    a cluster snapshot becomes a copy of the hollow-node template, in the
    order the nodes were listed. The per-node steps are those of
    `patch_hollow_node` in utils/kube-gen.py, issued in a different order:
    the name is copied before the labels and the allocatable map are read,
    and the labels are joined before the allocatable map. */
module HollowNodes {
  import opened Wrappers
  import opened Doc
  import Text
  import Quantity
  import Sequences
  import opened Patches

  /** One iteration of the loop, step by step as the script takes them. */
  function Convert(template: Value, node: Value): (r: Result<Value>)
    ensures r.Success? ==> Get(node, NamePath).Some? && template.Dict? && r.value.Dict?
    ensures r.Failure? ==> r.error == BadShape || r.error == Unrendered
  {
    var name :- ValueAt(node, NamePath);
    var labelled :- Stamp(template, name);
    var labels :- JoinAt(node, LabelsPath);
    var resources :- JoinAt(node, AllocatablePath);
    Finish(labelled, labels, resources)
  }

  /** The reordering is harmless: the script converts a node exactly when
      `patch_hollow_node` does, and to the same document. Only which error
      is raised first may differ when a node is malformed in two ways. */
  lemma ConvertAgrees(template: Value, node: Value)
    ensures Convert(template, node).Success? <==> HollowNode(template, node).Success?
    ensures Convert(template, node).Success? ==> Convert(template, node) == HollowNode(template, node)
  {
    var f := ReadNode(node);
    if f.Success? {
      assert HollowNode(template, node) == Rebuild(template, f.value);
    } else {
      assert HollowNode(template, node).Failure?;
    }
  }

  /** A node converts exactly when it can be read and the template has the
      shape the writes need. */
  lemma ConvertSucceeds(template: Value, node: Value)
    ensures Convert(template, node).Success? <==> ReadNode(node).Success? && TemplateShaped(template)
  {
    ConvertAgrees(template, node);
    HollowNodeSucceeds(template, node);
  }

  /** The whole loop: the converted documents, or the first error. */
  function ConvertAll(template: Value, nodes: seq<Value>): (r: Result<seq<Value>>)
    ensures r.Success? ==> |r.value| == |nodes| && forall k :: 0 <= k < |nodes| ==> r.value[k].Dict?
    ensures r.Failure? ==> exists k :: 0 <= k < |nodes| && Convert(template, nodes[k]) == Failure(r.error) &&
                                      forall i :: 0 <= i < k ==> Convert(template, nodes[i]).Success?
  {
    Sequences.MapResult(nodes, node => Convert(template, node))
  }

  /** The loop produces one hollow node per listed node, in order, each the
      one `patch_hollow_node` builds; it fails exactly when some node cannot
      be converted. */
  lemma ConvertAllEach(template: Value, nodes: seq<Value>)
    ensures ConvertAll(template, nodes).Success? <==>
      forall k :: 0 <= k < |nodes| ==> HollowNode(template, nodes[k]).Success?
    ensures ConvertAll(template, nodes).Success? ==>
      |ConvertAll(template, nodes).value| == |nodes| &&
      forall k :: 0 <= k < |nodes| ==>
        HollowNode(template, nodes[k]) == Success(ConvertAll(template, nodes).value[k])
  {
    forall k | 0 <= k < |nodes|
      ensures Convert(template, nodes[k]).Success? <==> HollowNode(template, nodes[k]).Success?
      ensures Convert(template, nodes[k]).Success? ==> Convert(template, nodes[k]) == HollowNode(template, nodes[k])
    {
      ConvertAgrees(template, nodes[k]);
    }
  }

  /** Output `k` carries the name of node `k` in its metadata and in its
      `name` label. */
  lemma ConvertAllNames(template: Value, nodes: seq<Value>, k: nat)
    requires ConvertAll(template, nodes).Success? && k < |nodes|
    ensures k < |ConvertAll(template, nodes).value|
    ensures Get(ConvertAll(template, nodes).value[k], NamePath) == Get(nodes[k], NamePath)
    ensures Get(ConvertAll(template, nodes).value[k], LabelNamePath) == Get(nodes[k], NamePath)
  {
    ConvertAllEach(template, nodes);
    HollowNodeIdentity(template, nodes[k]);
  }

  /** Output `k`'s second-to-last launch argument is the template's extended
      by a comma and node `k`'s joined labels; its last is the template's
      with the sentinel replaced by node `k`'s joined allocatable map. */
  lemma ConvertAllArgs(template: Value, nodes: seq<Value>, k: nat)
    requires ConvertAll(template, nodes).Success? && k < |nodes|
    ensures k < |ConvertAll(template, nodes).value|
    ensures Get(template, LabelArgPath).Some? && JoinAt(nodes[k], LabelsPath).Success?
    ensures Get(ConvertAll(template, nodes).value[k], LabelArgPath).Some? &&
      Extend(Get(template, LabelArgPath).value, "," + JoinAt(nodes[k], LabelsPath).value) ==
        Success(Get(ConvertAll(template, nodes).value[k], LabelArgPath).value)
    ensures Get(template, ResourceArgPath).Some? && Get(template, ResourceArgPath).value.Str?
    ensures JoinAt(nodes[k], AllocatablePath).Success?
    ensures Get(ConvertAll(template, nodes).value[k], ResourceArgPath) ==
      Some(Str(Text.Replace(Get(template, ResourceArgPath).value.s, Sentinel, JoinAt(nodes[k], AllocatablePath).value)))
  {
    ConvertAllEach(template, nodes);
    HollowNodeLabelArg(template, nodes[k]);
    HollowNodeResourceArg(template, nodes[k]);
  }

  /** Away from the fields the loop writes, every output is the template. */
  lemma ConvertAllKeepsTemplate(template: Value, nodes: seq<Value>, k: nat, q: seq<Step>)
    requires ConvertAll(template, nodes).Success? && k < |nodes|
    requires AwayFromNodePatch(q)
    ensures k < |ConvertAll(template, nodes).value|
    ensures Get(ConvertAll(template, nodes).value[k], q) == Get(template, q)
  {
    ConvertAllEach(template, nodes);
    HollowNodeKeepsTemplate(template, nodes[k], q);
  }

  /** The loop runs to the end exactly when there is nothing to convert, or
      the template has the needed shape and every node can be read. */
  lemma ConvertAllSucceeds(template: Value, nodes: seq<Value>)
    ensures ConvertAll(template, nodes).Success? <==>
      |nodes| == 0 || (TemplateShaped(template) && forall k :: 0 <= k < |nodes| ==> ReadNode(nodes[k]).Success?)
  {
    ConvertAllEach(template, nodes);
    forall k | 0 <= k < |nodes| {
      HollowNodeSucceeds(template, nodes[k]);
    }
    if |nodes| > 0 {
      HollowNodeSucceeds(template, nodes[0]);
    }
  }
}
