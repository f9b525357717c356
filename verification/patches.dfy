/** The record transformers the generator applies to nodes and pods before
    writing them: the kwok node patch, the hollow pod patch and the hollow
    node rebuild (utils/kube-gen.py lines 40-86, utils/object-generator.py
    lines 25-61). Each is a function from a document to the patched
    document, or the fault the in-place Python mutation would raise. */
module Patches {
  import opened Wrappers
  import opened Doc
  import Text
  import Quantity

  /** `v[p] = x` as a statement: any failing subscript raises. */
  function Write(v: Value, p: seq<Step>, x: Value): (r: Result<Value>)
    ensures r.Success? <==> Put(v, p, x).Some?
    ensures r.Success? ==> Put(v, p, x) == Some(r.value)
    ensures r.Failure? ==> r.error == BadShape
  {
    Need(Put(v, p, x), BadShape)
  }

  /** Writing what a path already holds changes nothing. */
  lemma WriteSame(v: Value, p: seq<Step>, x: Value)
    requires Get(v, p) == Some(x)
    ensures Write(v, p, x) == Success(v)
  {
    PutSame(v, p, x);
  }

  // ---------------------------------------------------------------- kwok node

  const KwokMetadata: Value :=
    Dict([Field("annotations", Dict([Field("kwok.x-k8s.io/node", Str("fake"))]))])

  /** `node.update({'metadata': {...}})`: a shallow update, so the whole
      `metadata` value (name, labels, everything) is replaced. */
  function KwokNode(node: Value): (r: Result<Value>)
    ensures r.Success? <==> node.Dict?
    ensures r.Success? ==> r.value.Dict? && Lookup(r.value.fields, "metadata") == Some(KwokMetadata)
    ensures r.Success? ==> forall k :: k != "metadata" ==> Lookup(r.value.fields, k) == Lookup(node.fields, k)
    ensures r.Success? && Lookup(node.fields, "metadata").Some? ==> Keys(r.value.fields) == Keys(node.fields)
    ensures r.Success? && Lookup(node.fields, "metadata").None? ==> Keys(r.value.fields) == Keys(node.fields) + ["metadata"]
  {
    match node
    case Dict(fs) => Success(Dict(Store(fs, "metadata", KwokMetadata)))
    case _ => Failure(BadShape)
  }

  /** The kwok patch discards the node's own name and labels. */
  lemma KwokNodeForgetsIdentity(node: Value)
    requires KwokNode(node).Success?
    ensures Get(KwokNode(node).value, [Key("metadata"), Key("name")]) == None
    ensures Get(KwokNode(node).value, [Key("metadata"), Key("labels")]) == None
    ensures Get(KwokNode(node).value, [Key("metadata"), Key("annotations"), Key("kwok.x-k8s.io/node")]) == Some(Str("fake"))
  {
    var r := KwokNode(node).value;
    assert Child(r, Key("metadata")) == Some(KwokMetadata);
    assert [Key("metadata"), Key("name")][1..] == [Key("name")];
    assert [Key("metadata"), Key("labels")][1..] == [Key("labels")];
    var p := [Key("metadata"), Key("annotations"), Key("kwok.x-k8s.io/node")];
    assert p[1..] == [Key("annotations"), Key("kwok.x-k8s.io/node")];
    assert p[1..][1..] == [Key("kwok.x-k8s.io/node")];
  }

  lemma KwokNodeIdempotent(node: Value)
    requires KwokNode(node).Success?
    ensures KwokNode(KwokNode(node).value) == KwokNode(node)
  {
    StoreSame(KwokNode(node).value.fields, "metadata", KwokMetadata);
  }

  // ---------------------------------------------------------------- hollow pod

  const ContainerPath: seq<Step> := [Key("spec"), Key("containers"), At(0)]
  const PullPolicyPath: seq<Step> := ContainerPath + [Key("imagePullPolicy")]
  const ImagePath: seq<Step> := ContainerPath + [Key("image")]
  const NamespacePath: seq<Step> := [Key("metadata"), Key("namespace")]
  const AffinityPath: seq<Step> := [Key("spec"), Key("affinity")]

  const PullPolicy: Value := Str("IfNotPresent")
  const Image: Value := Str("docker.io/busybox:latest")
  const Namespace: Value := Str("kubemark")

  /** The required node affinity that pins a pod to kubemark hollow nodes. */
  const Affinity: Value :=
    Dict([Field("nodeAffinity", Dict([
      Field("requiredDuringSchedulingIgnoredDuringExecution", Dict([
        Field("nodeSelectorTerms", List([Dict([
          Field("matchExpressions", List([Dict([
            Field("key", Str("node-role.kubernetes.io/node")),
            Field("operator", Str("In")),
            Field("values", List([Str("kubemark-node")]))
          ])]))
        ])]))
      ]))
    ]))])

  /** A path the hollow pod patch does not write, nor lies beneath. */
  predicate AwayFromPodPatch(q: seq<Step>) {
    Diverge(PullPolicyPath, q) && Diverge(ImagePath, q) &&
    Diverge(NamespacePath, q) && Diverge(AffinityPath, q)
  }

  /** `patch_hollow_pod`: container 0's pull policy and image, the
      namespace, and `spec.affinity`, written in that order. */
  function HollowPod(pod: Value): (r: Result<Value>)
    ensures r.Failure? ==> r.error == BadShape
    ensures r.Success? ==> pod.Dict? && r.value.Dict?
  {
    var a :- Write(pod, PullPolicyPath, PullPolicy);
    var b :- Write(a, ImagePath, Image);
    var c :- Write(b, NamespacePath, Namespace);
    Write(c, AffinityPath, Affinity)
  }

  /** The path reads a mapping. */
  predicate DictAt(v: Value, p: seq<Step>) {
    Get(v, p).Some? && Get(v, p).value.Dict?
  }

  /** What the four assignments of `patch_hollow_pod` need: container 0 and
      `metadata` are mappings (and so, then, is `spec`). */
  predicate PodShaped(pod: Value) {
    DictAt(pod, ContainerPath) && DictAt(pod, [Key("metadata")])
  }

  /** Assigning a key below `p` succeeds exactly when `p` reads a mapping. */
  lemma WriteKey(v: Value, p: seq<Step>, k: string, x: Value)
    ensures Write(v, p + [Key(k)], x).Success? <==> DictAt(v, p)
  {
    assert (p + [Key(k)])[..|p|] == p;
  }

  /** A successful assignment below `p` leaves a mapping at `p`. */
  lemma WriteBelowKeepsDict(v: Value, p: seq<Step>, q: seq<Step>, x: Value)
    requires |q| > 0 && DictAt(v, p)
    requires Write(v, p + q, x).Success?
    ensures DictAt(Write(v, p + q, x).value, p)
  {
    PutBelow(v, p, q, x);
  }

  /** The hollow pod patch succeeds exactly on pods of that shape; on any
      other pod one of the four subscripts raises. */
  lemma HollowPodSucceeds(pod: Value)
    ensures HollowPod(pod).Success? <==> PodShaped(pod)
  {
    PodContainerWrites(pod);
    if DictAt(pod, ContainerPath) {
      var a := Write(pod, PullPolicyPath, PullPolicy).value;
      var b := Write(a, ImagePath, Image).value;
      PodLaterWrites(b);
      assert HollowPod(pod) == (
        var c :- Write(b, NamespacePath, Namespace);
        Write(c, AffinityPath, Affinity));
    }
  }

  /** The container writes succeed exactly when container 0 is a mapping,
      and leave `spec` a mapping and `metadata` as it was. */
  lemma PodContainerWrites(pod: Value)
    ensures Write(pod, PullPolicyPath, PullPolicy).Success? <==> DictAt(pod, ContainerPath)
    ensures DictAt(pod, ContainerPath) ==>
      var a := Write(pod, PullPolicyPath, PullPolicy).value;
      Write(a, ImagePath, Image).Success? &&
      DictAt(Write(a, ImagePath, Image).value, [Key("spec")]) &&
      Get(Write(a, ImagePath, Image).value, [Key("metadata")]) == Get(pod, [Key("metadata")])
  {
    assert PullPolicyPath == ContainerPath + [Key("imagePullPolicy")];
    WriteKey(pod, ContainerPath, "imagePullPolicy", PullPolicy);
    if DictAt(pod, ContainerPath) {
      var a := Write(pod, PullPolicyPath, PullPolicy).value;
      WriteBelowKeepsDict(pod, ContainerPath, [Key("imagePullPolicy")], PullPolicy);
      assert ImagePath == ContainerPath + [Key("image")];
      WriteKey(a, ContainerPath, "image", Image);
      var b := Write(a, ImagePath, Image).value;
      PodShapedSpec(pod);
      PodWritesKeepSpec(pod, a, b);
    }
  }

  /** With `spec` a mapping, the namespace write succeeds exactly when
      `metadata` is a mapping, and the affinity write then succeeds. */
  lemma PodLaterWrites(b: Value)
    requires DictAt(b, [Key("spec")])
    ensures Write(b, NamespacePath, Namespace).Success? <==> DictAt(b, [Key("metadata")])
    ensures DictAt(b, [Key("metadata")]) ==>
      Write(Write(b, NamespacePath, Namespace).value, AffinityPath, Affinity).Success?
  {
    var spec, meta := [Key("spec")], [Key("metadata")];
    assert NamespacePath == meta + [Key("namespace")];
    WriteKey(b, meta, "namespace", Namespace);
    if DictAt(b, meta) {
      var c := Write(b, NamespacePath, Namespace).value;
      NamespaceKeepsSpec(b);
      assert AffinityPath == spec + [Key("affinity")];
      WriteKey(c, spec, "affinity", Affinity);
    }
  }

  /** The namespace write leaves `spec` as it was. */
  lemma NamespaceKeepsSpec(b: Value)
    requires Write(b, NamespacePath, Namespace).Success?
    ensures Get(Write(b, NamespacePath, Namespace).value, [Key("spec")]) == Get(b, [Key("spec")])
  {
    DivergeAt(NamespacePath, [Key("spec")], 0);
    PutOther(b, NamespacePath, Namespace, [Key("spec")]);
  }

  /** Container 0 being a mapping means `spec` is one. */
  lemma PodShapedSpec(pod: Value)
    requires DictAt(pod, ContainerPath)
    ensures DictAt(pod, [Key("spec")])
  {
    var spec := [Key("spec")];
    GetAppend(pod, spec + [Key("containers")], At(0));
    GetAppend(pod, spec, Key("containers"));
    assert spec + [Key("containers")] + [At(0)] == ContainerPath;
  }

  /** The two container writes leave `spec` a mapping and `metadata` as it
      was. */
  lemma PodWritesKeepSpec(pod: Value, a: Value, b: Value)
    requires DictAt(pod, [Key("spec")])
    requires Write(pod, PullPolicyPath, PullPolicy) == Success(a)
    requires Write(a, ImagePath, Image) == Success(b)
    ensures DictAt(b, [Key("spec")])
    ensures Get(b, [Key("metadata")]) == Get(pod, [Key("metadata")])
  {
    SpecWriteKeeps(pod, PullPolicyPath, PullPolicy);
    SpecWriteKeeps(a, ImagePath, Image);
  }

  /** A write strictly below a mapping `spec` keeps it a mapping and leaves
      `metadata` as it was. */
  lemma SpecWriteKeeps(v: Value, p: seq<Step>, x: Value)
    requires |p| > 1 && p[0] == Key("spec") && DictAt(v, [Key("spec")])
    requires Write(v, p, x).Success?
    ensures DictAt(Write(v, p, x).value, [Key("spec")])
    ensures Get(Write(v, p, x).value, [Key("metadata")]) == Get(v, [Key("metadata")])
  {
    var spec, meta := [Key("spec")], [Key("metadata")];
    assert p == spec + p[1..];
    WriteBelowKeepsDict(v, spec, p[1..], x);
    DivergeAt(p, meta, 0);
    PutOther(v, p, x, meta);
  }

  lemma PodPathsApart()
    ensures Diverge(PullPolicyPath, ImagePath) && Diverge(PullPolicyPath, NamespacePath)
    ensures Diverge(PullPolicyPath, AffinityPath) && Diverge(ImagePath, NamespacePath)
    ensures Diverge(ImagePath, AffinityPath) && Diverge(NamespacePath, AffinityPath)
    ensures Diverge(ImagePath, PullPolicyPath) && Diverge(NamespacePath, PullPolicyPath)
    ensures Diverge(AffinityPath, PullPolicyPath) && Diverge(NamespacePath, ImagePath)
    ensures Diverge(AffinityPath, ImagePath) && Diverge(AffinityPath, NamespacePath)
  {
    assert PullPolicyPath[..3] == ImagePath[..3];
    DivergeAt(PullPolicyPath, ImagePath, 3);
    DivergeAt(PullPolicyPath, NamespacePath, 0);
    assert PullPolicyPath[..1] == AffinityPath[..1];
    DivergeAt(PullPolicyPath, AffinityPath, 1);
    DivergeAt(ImagePath, NamespacePath, 0);
    assert ImagePath[..1] == AffinityPath[..1];
    DivergeAt(ImagePath, AffinityPath, 1);
    DivergeAt(NamespacePath, AffinityPath, 0);
  }

  /** The pod after the first, second and third write of a successful
      hollow pod patch. */
  function WithPolicy(pod: Value): Value
    requires HollowPod(pod).Success?
  {
    Write(pod, PullPolicyPath, PullPolicy).value
  }

  function WithImage(pod: Value): Value
    requires HollowPod(pod).Success?
  {
    Write(WithPolicy(pod), ImagePath, Image).value
  }

  function WithNamespace(pod: Value): Value
    requires HollowPod(pod).Success?
  {
    Write(WithImage(pod), NamespacePath, Namespace).value
  }

  /** A successful hollow pod patch is the four writes of the source, in
      order, each one succeeding. */
  lemma HollowPodSteps(pod: Value)
    requires HollowPod(pod).Success?
    ensures Put(pod, PullPolicyPath, PullPolicy) == Some(WithPolicy(pod))
    ensures Put(WithPolicy(pod), ImagePath, Image) == Some(WithImage(pod))
    ensures Put(WithImage(pod), NamespacePath, Namespace) == Some(WithNamespace(pod))
    ensures Put(WithNamespace(pod), AffinityPath, Affinity) == Some(HollowPod(pod).value)
  {
  }

  /** After the hollow pod patch the four fields hold their fixed values. */
  lemma HollowPodSets(pod: Value)
    requires HollowPod(pod).Success?
    ensures Get(HollowPod(pod).value, PullPolicyPath) == Some(PullPolicy)
    ensures Get(HollowPod(pod).value, ImagePath) == Some(Image)
    ensures Get(HollowPod(pod).value, NamespacePath) == Some(Namespace)
    ensures Get(HollowPod(pod).value, AffinityPath) == Some(Affinity)
  {
    HollowPodSteps(pod);
    var a, b, c, d := WithPolicy(pod), WithImage(pod), WithNamespace(pod), HollowPod(pod).value;
    SetsPullPolicy(pod, a, b, c, d);
    SetsImage(a, b, c, d);
    SetsNamespace(b, c, d);
    PutGet(c, AffinityPath, Affinity);
  }

  lemma SetsPullPolicy(pod: Value, a: Value, b: Value, c: Value, d: Value)
    requires Put(pod, PullPolicyPath, PullPolicy) == Some(a)
    requires Put(a, ImagePath, Image) == Some(b)
    requires Put(b, NamespacePath, Namespace) == Some(c)
    requires Put(c, AffinityPath, Affinity) == Some(d)
    ensures Get(d, PullPolicyPath) == Some(PullPolicy)
  {
    PodPathsApart();
    PutGet(pod, PullPolicyPath, PullPolicy);
    KeptThrough(a, b, c, d, PullPolicyPath);
  }

  lemma SetsImage(a: Value, b: Value, c: Value, d: Value)
    requires Put(a, ImagePath, Image) == Some(b)
    requires Put(b, NamespacePath, Namespace) == Some(c)
    requires Put(c, AffinityPath, Affinity) == Some(d)
    ensures Get(d, ImagePath) == Some(Image)
  {
    PodPathsApart();
    PutGet(a, ImagePath, Image);
    PutOther(b, NamespacePath, Namespace, ImagePath);
    PutOther(c, AffinityPath, Affinity, ImagePath);
  }

  lemma SetsNamespace(b: Value, c: Value, d: Value)
    requires Put(b, NamespacePath, Namespace) == Some(c)
    requires Put(c, AffinityPath, Affinity) == Some(d)
    ensures Get(d, NamespacePath) == Some(Namespace)
  {
    PodPathsApart();
    PutGet(b, NamespacePath, Namespace);
    PutOther(c, AffinityPath, Affinity, NamespacePath);
  }

  /** A path apart from the last three writes of the patch reads the same
      after them as after the first. */
  lemma KeptThrough(a: Value, b: Value, c: Value, d: Value, q: seq<Step>)
    requires Put(a, ImagePath, Image) == Some(b)
    requires Put(b, NamespacePath, Namespace) == Some(c)
    requires Put(c, AffinityPath, Affinity) == Some(d)
    requires Diverge(ImagePath, q) && Diverge(NamespacePath, q) && Diverge(AffinityPath, q)
    ensures Get(d, q) == Get(a, q)
  {
    PutOther(a, ImagePath, Image, q);
    PutOther(b, NamespacePath, Namespace, q);
    PutOther(c, AffinityPath, Affinity, q);
  }

  /** Every path away from the four patched fields reads as before. */
  lemma HollowPodKeepsOthers(pod: Value, q: seq<Step>)
    requires HollowPod(pod).Success?
    requires AwayFromPodPatch(q)
    ensures Get(HollowPod(pod).value, q) == Get(pod, q)
  {
    HollowPodSteps(pod);
    var a, b, c, d := WithPolicy(pod), WithImage(pod), WithNamespace(pod), HollowPod(pod).value;
    PutOther(pod, PullPolicyPath, PullPolicy, q);
    KeptThrough(a, b, c, d, q);
  }

  /** Patching an already patched pod changes nothing. */
  lemma HollowPodIdempotent(pod: Value)
    requires HollowPod(pod).Success?
    ensures HollowPod(HollowPod(pod).value) == HollowPod(pod)
  {
    var r := HollowPod(pod).value;
    HollowPodSets(pod);
    PutSame(r, PullPolicyPath, PullPolicy);
    PutSame(r, ImagePath, Image);
    PutSame(r, NamespacePath, Namespace);
    PutSame(r, AffinityPath, Affinity);
  }

  /** The pod's resource request is not among the patched fields, so the
      request read before the patch is the request of the patched pod. */
  lemma HollowPodKeepsRequest(pod: Value)
    requires HollowPod(pod).Success?
    ensures Quantity.Request(HollowPod(pod).value) == Quantity.Request(pod)
  {
    RequestLeafKept(pod, "cpu");
    RequestLeafKept(pod, "memory");
    Quantity.ReadPairReadsLeaves(HollowPod(pod).value, pod, Quantity.RequestsPath);
  }

  lemma RequestLeafKept(pod: Value, leaf: string)
    requires HollowPod(pod).Success?
    ensures Get(HollowPod(pod).value, Quantity.RequestsPath + [Key(leaf)]) == Get(pod, Quantity.RequestsPath + [Key(leaf)])
  {
    RequestPathAway(leaf);
    HollowPodKeepsOthers(pod, Quantity.RequestsPath + [Key(leaf)]);
  }

  lemma RequestPathAway(leaf: string)
    ensures AwayFromPodPatch(Quantity.RequestsPath + [Key(leaf)])
  {
    var q := Quantity.RequestsPath + [Key(leaf)];
    assert q[..3] == PullPolicyPath[..3] == ImagePath[..3];
    assert q[..1] == AffinityPath[..1];
    DivergeAt(PullPolicyPath, q, 3);
    DivergeAt(ImagePath, q, 3);
    DivergeAt(NamespacePath, q, 0);
    DivergeAt(AffinityPath, q, 1);
  }

  // ---------------------------------------------------------------- hollow node

  /** The token in the template's last launch argument that stands for the
      node's allocatable resources. */
  const Sentinel: string := "template_node_extended_resources"

  const NamePath: seq<Step> := [Key("metadata"), Key("name")]
  const LabelsPath: seq<Step> := [Key("metadata"), Key("labels")]
  const LabelNamePath: seq<Step> := LabelsPath + [Key("name")]
  const AllocatablePath: seq<Step> := [Key("status"), Key("allocatable")]
  const CommandPath: seq<Step> := [Key("spec"), Key("containers"), At(0), Key("command")]
  const LabelArgPath: seq<Step> := CommandPath + [At(-2)]
  const ResourceArgPath: seq<Step> := CommandPath + [At(-1)]

  function ValueAt(doc: Value, p: seq<Step>): (r: Result<Value>)
    ensures r.Success? <==> Get(doc, p).Some?
    ensures r.Success? ==> Get(doc, p) == Some(r.value)
  {
    Need(Get(doc, p), BadShape)
  }

  /** `','.join(f'{k}={v}' for k, v in doc[p].items())`. */
  function JoinAt(doc: Value, p: seq<Step>): (r: Result<string>)
    ensures r.Success? ==> Get(doc, p).Some? && Get(doc, p).value.Dict?
    ensures r.Success? ==> Join(Get(doc, p).value.fields) == Some(r.value)
    ensures r.Success? <==> Get(doc, p).Some? && Get(doc, p).value.Dict? && Join(Get(doc, p).value.fields).Some?
    ensures r.Failure? ==> (r.error == Unrendered <==> Get(doc, p).Some? && Get(doc, p).value.Dict?)
    ensures r.Failure? ==> r.error == Unrendered || r.error == BadShape
  {
    match Get(doc, p)
    case Some(Dict(fs)) => Need(Join(fs), Unrendered)
    case _ => Failure(BadShape)
  }

  function Chars(t: string): (r: seq<Value>)
    ensures |r| == |t|
    ensures forall i :: 0 <= i < |t| ==> r[i] == Str([t[i]])
  {
    seq(|t|, i requires 0 <= i < |t| => Str([t[i]]))
  }

  /** `x += suffix`: a string is concatenated; a list is extended by the
      suffix's characters; anything else raises. */
  function Extend(v: Value, suffix: string): (r: Result<Value>)
    ensures r.Success? <==> v.Str? || v.List?
    ensures v.Str? ==> r == Success(Str(v.s + suffix))
    ensures v.List? ==> r == Success(List(v.items + Chars(suffix)))
  {
    match v
    case Str(s) => Success(Str(s + suffix))
    case List(xs) => Success(List(xs + Chars(suffix)))
    case _ => Failure(BadShape)
  }

  /** What `patch_hollow_node` reads from the source node, in the order it
      reads it: the joined allocatable map, the joined labels, the name. */
  datatype NodeFacts = NodeFacts(resources: string, labels: string, name: Value)

  function ReadNode(node: Value): (r: Result<NodeFacts>)
    ensures r.Success? ==> JoinAt(node, AllocatablePath) == Success(r.value.resources)
    ensures r.Success? ==> JoinAt(node, LabelsPath) == Success(r.value.labels)
    ensures r.Success? ==> Get(node, NamePath) == Some(r.value.name)
    ensures r.Success? <==> JoinAt(node, AllocatablePath).Success? && JoinAt(node, LabelsPath).Success? && Get(node, NamePath).Some?
    ensures r.Failure? ==> r.error == Unrendered || r.error == BadShape
  {
    var resources :- JoinAt(node, AllocatablePath);
    var labels :- JoinAt(node, LabelsPath);
    var name :- ValueAt(node, NamePath);
    Success(NodeFacts(resources, labels, name))
  }

  /** The two identity writes: the node's name, as the copy's name and as
      its `name` label. */
  function Stamp(template: Value, name: Value): (r: Result<Value>)
    ensures r.Success? ==> template.Dict? && r.value.Dict?
    ensures r.Failure? ==> r.error == BadShape
  {
    var named :- Write(template, NamePath, name);
    Write(named, LabelNamePath, name)
  }

  /** The two launch-argument writes: the labels appended to the
      second-to-last argument, the resources substituted into the last. */
  function Finish(labelled: Value, labels: string, resources: string): (r: Result<Value>)
    ensures r.Success? ==> labelled.Dict? && r.value.Dict?
    ensures r.Failure? ==> r.error == BadShape
  {
    var arg :- ValueAt(labelled, LabelArgPath);
    var extended :- Extend(arg, "," + labels);
    var withLabels :- Write(labelled, LabelArgPath, extended);
    var last :- Quantity.TextAt(withLabels, ResourceArgPath);
    Write(withLabels, ResourceArgPath, Str(Text.Replace(last, Sentinel, resources)))
  }

  /** The writes `patch_hollow_node` makes to its copy of the template. */
  function Rebuild(template: Value, f: NodeFacts): (r: Result<Value>)
    ensures r.Success? ==> template.Dict? && r.value.Dict?
    ensures r.Failure? ==> r.error == BadShape
  {
    var labelled :- Stamp(template, f.name);
    Finish(labelled, f.labels, f.resources)
  }

  /** `patch_hollow_node`: a copy of the template carrying the node's name,
      its labels appended to the second-to-last launch argument and its
      allocatable resources substituted into the last one. */
  function HollowNode(template: Value, node: Value): (r: Result<Value>)
    ensures r.Success? ==> ReadNode(node).Success? && template.Dict? && r.value.Dict?
    ensures r.Failure? ==> r.error == Unrendered || r.error == BadShape
  {
    var f :- ReadNode(node);
    Rebuild(template, f)
  }

  /** A path the hollow node rebuild does not write, nor lies beneath. */
  predicate AwayFromNodePatch(q: seq<Step>) {
    Diverge(NamePath, q) && Diverge(LabelNamePath, q) &&
    Diverge(LabelArgPath, q) && Diverge(ResourceArgPath, q)
  }

  lemma NodePathsApart()
    ensures Diverge(NamePath, LabelNamePath) && Diverge(LabelNamePath, NamePath)
    ensures Diverge(NamePath, LabelArgPath) && Diverge(NamePath, ResourceArgPath)
    ensures Diverge(NamePath, CommandPath) && Diverge(LabelNamePath, CommandPath)
    ensures Diverge(LabelNamePath, LabelArgPath) && Diverge(LabelNamePath, ResourceArgPath)
    ensures Diverge(LabelArgPath, ResourceArgPath) && Diverge(ResourceArgPath, LabelArgPath)
    ensures Diverge(LabelArgPath, NamePath) && Diverge(ResourceArgPath, NamePath)
    ensures Diverge(CommandPath, NamePath) && Diverge(CommandPath, LabelNamePath)
    ensures Diverge(LabelArgPath, LabelNamePath) && Diverge(ResourceArgPath, LabelNamePath)
  {
    assert NamePath[..1] == LabelNamePath[..1];
    DivergeAt(NamePath, LabelNamePath, 1);
    DivergeAt(NamePath, LabelArgPath, 0);
    DivergeAt(NamePath, ResourceArgPath, 0);
    DivergeAt(NamePath, CommandPath, 0);
    DivergeAt(LabelNamePath, CommandPath, 0);
    DivergeAt(LabelNamePath, LabelArgPath, 0);
    DivergeAt(LabelNamePath, ResourceArgPath, 0);
    assert LabelArgPath[..4] == CommandPath == ResourceArgPath[..4];
    DivergeAt(LabelArgPath, ResourceArgPath, 4);
  }

  /** The template's two last launch arguments as `Finish` needs them: the
      second-to-last a string or a list, the last a string (so the command
      is a list of at least two items). */
  predicate ArgsShaped(t: Value) {
    Get(t, LabelArgPath).Some? && (Get(t, LabelArgPath).value.Str? || Get(t, LabelArgPath).value.List?) &&
    Get(t, ResourceArgPath).Some? && Get(t, ResourceArgPath).value.Str?
  }

  /** What the four template writes of `patch_hollow_node` need: a label
      mapping under `metadata`, and the launch arguments above. */
  predicate TemplateShaped(t: Value) {
    DictAt(t, LabelsPath) && ArgsShaped(t)
  }

  /** The identity writes succeed exactly when the template has a label
      mapping, and they leave the launch arguments alone. */
  lemma StampSucceeds(template: Value, name: Value)
    ensures Stamp(template, name).Success? <==> DictAt(template, LabelsPath)
    ensures Stamp(template, name).Success? ==>
      Get(Stamp(template, name).value, LabelArgPath) == Get(template, LabelArgPath) &&
      Get(Stamp(template, name).value, ResourceArgPath) == Get(template, ResourceArgPath)
  {
    var meta := [Key("metadata")];
    GetAppend(template, meta, Key("labels"));
    assert LabelsPath == meta + [Key("labels")];
    assert NamePath == meta + [Key("name")];
    WriteKey(template, meta, "name", name);
    if DictAt(template, meta) {
      var named := Write(template, NamePath, name).value;
      assert NamePath[..1] == LabelsPath[..1];
      DivergeAt(NamePath, LabelsPath, 1);
      PutOther(template, NamePath, name, LabelsPath);
      assert LabelNamePath == LabelsPath + [Key("name")];
      WriteKey(named, LabelsPath, "name", name);
      assert Stamp(template, name) == Write(named, LabelNamePath, name);
      if DictAt(template, LabelsPath) {
        NodePathsApart();
        PutOther(template, NamePath, name, LabelArgPath);
        PutOther(template, NamePath, name, ResourceArgPath);
        var labelled := Write(named, LabelNamePath, name).value;
        PutOther(named, LabelNamePath, name, LabelArgPath);
        PutOther(named, LabelNamePath, name, ResourceArgPath);
      }
    }
  }

  /** The label-argument write succeeds whenever the argument is there, and
      leaves the last argument alone. */
  lemma LabelArgWrite(labelled: Value, extended: Value)
    requires Get(labelled, LabelArgPath).Some?
    ensures Write(labelled, LabelArgPath, extended).Success?
    ensures Get(Write(labelled, LabelArgPath, extended).value, ResourceArgPath) == Get(labelled, ResourceArgPath)
  {
    GetAppend(labelled, CommandPath, At(-2));
    assert LabelArgPath == CommandPath + [At(-2)];
    assert LabelArgPath[..|LabelArgPath| - 1] == CommandPath;
    NodePathsApart();
    PutOther(labelled, LabelArgPath, extended, ResourceArgPath);
  }

  /** The resource-argument write succeeds whenever the argument is there. */
  lemma ResourceArgWrite(withLabels: Value, x: Value)
    requires Get(withLabels, ResourceArgPath).Some?
    ensures Write(withLabels, ResourceArgPath, x).Success?
  {
    GetAppend(withLabels, CommandPath, At(-1));
    assert ResourceArgPath == CommandPath + [At(-1)];
    assert ResourceArgPath[..|ResourceArgPath| - 1] == CommandPath;
  }

  /** The launch-argument writes succeed exactly when the arguments have the
      shape they need. */
  lemma FinishSucceeds(labelled: Value, labels: string, resources: string)
    ensures Finish(labelled, labels, resources).Success? <==> ArgsShaped(labelled)
  {
    var arg := Get(labelled, LabelArgPath);
    if arg.Some? && (arg.value.Str? || arg.value.List?) {
      var extended := Extend(arg.value, "," + labels).value;
      LabelArgWrite(labelled, extended);
      var withLabels := Write(labelled, LabelArgPath, extended).value;
      var last := Get(withLabels, ResourceArgPath);
      if last.Some? && last.value.Str? {
        ResourceArgWrite(withLabels, Str(Text.Replace(last.value.s, Sentinel, resources)));
      }
    }
  }

  /** The rebuild succeeds exactly on templates of the needed shape. */
  lemma RebuildSucceeds(template: Value, f: NodeFacts)
    ensures Rebuild(template, f).Success? <==> TemplateShaped(template)
  {
    StampSucceeds(template, f.name);
    if DictAt(template, LabelsPath) {
      FinishSucceeds(Stamp(template, f.name).value, f.labels, f.resources);
    }
  }

  /** `patch_hollow_node` succeeds exactly when the node can be read and the
      template has the shape the four writes need. */
  lemma HollowNodeSucceeds(template: Value, node: Value)
    ensures HollowNode(template, node).Success? <==> ReadNode(node).Success? && TemplateShaped(template)
  {
    if ReadNode(node).Success? {
      RebuildSucceeds(template, ReadNode(node).value);
    }
  }

  /** The documents a successful rebuild passes through, named after the
      variables of `Rebuild`: the copy after the name write, after the
      label write, and after the label-argument write, and the two launch
      arguments as written. */
  function Named(template: Value, f: NodeFacts): Value
    requires Rebuild(template, f).Success?
  {
    Write(template, NamePath, f.name).value
  }

  function Labelled(template: Value, f: NodeFacts): Value
    requires Rebuild(template, f).Success?
  {
    Stamp(template, f.name).value
  }

  function ExtendedArg(template: Value, f: NodeFacts): Value
    requires Rebuild(template, f).Success?
  {
    Extend(ValueAt(Labelled(template, f), LabelArgPath).value, "," + f.labels).value
  }

  function WithLabels(template: Value, f: NodeFacts): Value
    requires Rebuild(template, f).Success?
  {
    Write(Labelled(template, f), LabelArgPath, ExtendedArg(template, f)).value
  }

  function FilledArg(template: Value, f: NodeFacts): Value
    requires Rebuild(template, f).Success?
  {
    Str(Text.Replace(Quantity.TextAt(WithLabels(template, f), ResourceArgPath).value, Sentinel, f.resources))
  }

  /** A successful rebuild is the four template writes of the source, in
      order, each one succeeding. */
  lemma RebuildSteps(template: Value, f: NodeFacts)
    requires Rebuild(template, f).Success?
    ensures Put(template, NamePath, f.name) == Some(Named(template, f))
    ensures Put(Named(template, f), LabelNamePath, f.name) == Some(Labelled(template, f))
    ensures Get(Labelled(template, f), LabelArgPath).Some?
    ensures Extend(Get(Labelled(template, f), LabelArgPath).value, "," + f.labels) == Success(ExtendedArg(template, f))
    ensures Put(Labelled(template, f), LabelArgPath, ExtendedArg(template, f)) == Some(WithLabels(template, f))
    ensures Get(WithLabels(template, f), ResourceArgPath).Some? && Get(WithLabels(template, f), ResourceArgPath).value.Str?
    ensures FilledArg(template, f) == Str(Text.Replace(Get(WithLabels(template, f), ResourceArgPath).value.s, Sentinel, f.resources))
    ensures Put(WithLabels(template, f), ResourceArgPath, FilledArg(template, f)) == Some(Rebuild(template, f).value)
  {
  }

  /** A path apart from the two identity writes reads the same in the
      template and in the labelled copy. */
  lemma KeptByIdentityWrites(template: Value, named: Value, labelled: Value, name: Value, q: seq<Step>)
    requires Put(template, NamePath, name) == Some(named)
    requires Put(named, LabelNamePath, name) == Some(labelled)
    requires Diverge(NamePath, q) && Diverge(LabelNamePath, q)
    ensures Get(labelled, q) == Get(template, q)
  {
    PutOther(template, NamePath, name, q);
    PutOther(named, LabelNamePath, name, q);
  }

  /** The rebuilt node carries the source node's name in both identity
      fields. */
  lemma HollowNodeIdentity(template: Value, node: Value)
    requires HollowNode(template, node).Success?
    ensures Get(node, NamePath).Some?
    ensures Get(HollowNode(template, node).value, NamePath) == Get(node, NamePath)
    ensures Get(HollowNode(template, node).value, LabelNamePath) == Get(node, NamePath)
  {
    var f := ReadNode(node).value;
    RebuildSteps(template, f);
    var named, labelled, withLabels := Named(template, f), Labelled(template, f), WithLabels(template, f);
    NodePathsApart();
    PutGet(template, NamePath, f.name);
    PutOther(named, LabelNamePath, f.name, NamePath);
    PutGet(named, LabelNamePath, f.name);
    var ext := ExtendedArg(template, f);
    var out := FilledArg(template, f);
    PutOther(labelled, LabelArgPath, ext, NamePath);
    PutOther(withLabels, ResourceArgPath, out, NamePath);
    PutOther(labelled, LabelArgPath, ext, LabelNamePath);
    PutOther(withLabels, ResourceArgPath, out, LabelNamePath);
  }

  /** The second-to-last launch argument gains a comma and the node's
      labels, joined `key=value` with commas in insertion order: a string
      argument is concatenated, a list argument extended by the characters
      (see `Extend`). */
  lemma HollowNodeLabelArg(template: Value, node: Value)
    requires HollowNode(template, node).Success?
    ensures Get(template, LabelArgPath).Some? && JoinAt(node, LabelsPath).Success?
    ensures Get(HollowNode(template, node).value, LabelArgPath).Some? &&
      Extend(Get(template, LabelArgPath).value, "," + JoinAt(node, LabelsPath).value) ==
        Success(Get(HollowNode(template, node).value, LabelArgPath).value)
  {
    var f := ReadNode(node).value;
    RebuildSteps(template, f);
    var named, labelled, withLabels := Named(template, f), Labelled(template, f), WithLabels(template, f);
    NodePathsApart();
    KeptByIdentityWrites(template, named, labelled, f.name, LabelArgPath);
    var ext := ExtendedArg(template, f);
    var out := FilledArg(template, f);
    PutGet(labelled, LabelArgPath, ext);
    PutOther(withLabels, ResourceArgPath, out, LabelArgPath);
  }

  /** The last launch argument has every occurrence of the sentinel
      replaced by the node's allocatable map, joined `key=value`. */
  lemma HollowNodeResourceArg(template: Value, node: Value)
    requires HollowNode(template, node).Success?
    ensures Get(template, ResourceArgPath).Some? && Get(template, ResourceArgPath).value.Str?
    ensures JoinAt(node, AllocatablePath).Success?
    ensures Get(HollowNode(template, node).value, ResourceArgPath) ==
      Some(Str(Text.Replace(Get(template, ResourceArgPath).value.s, Sentinel, JoinAt(node, AllocatablePath).value)))
  {
    var f := ReadNode(node).value;
    RebuildSteps(template, f);
    var named, labelled, withLabels := Named(template, f), Labelled(template, f), WithLabels(template, f);
    NodePathsApart();
    KeptByIdentityWrites(template, named, labelled, f.name, ResourceArgPath);
    var ext := ExtendedArg(template, f);
    var out := FilledArg(template, f);
    PutOther(labelled, LabelArgPath, ext, ResourceArgPath);
    PutGet(withLabels, ResourceArgPath, out);
  }

  /** Everything of the template away from the four written paths is
      carried over unchanged. */
  lemma HollowNodeKeepsTemplate(template: Value, node: Value, q: seq<Step>)
    requires HollowNode(template, node).Success?
    requires AwayFromNodePatch(q)
    ensures Get(HollowNode(template, node).value, q) == Get(template, q)
  {
    var f := ReadNode(node).value;
    RebuildSteps(template, f);
    var named, labelled, withLabels := Named(template, f), Labelled(template, f), WithLabels(template, f);
    KeptByIdentityWrites(template, named, labelled, f.name, q);
    var ext := ExtendedArg(template, f);
    var out := FilledArg(template, f);
    PutOther(labelled, LabelArgPath, ext, q);
    PutOther(withLabels, ResourceArgPath, out, q);
  }

  /** The launch command keeps its length, and every argument but the last
      two is the template's. */
  lemma HollowNodeCommandShape(template: Value, node: Value)
    requires HollowNode(template, node).Success?
    ensures Get(template, CommandPath).Some? && Get(template, CommandPath).value.List?
    ensures Get(HollowNode(template, node).value, CommandPath).Some?
    ensures Get(HollowNode(template, node).value, CommandPath).value.List?
    ensures |Get(HollowNode(template, node).value, CommandPath).value.items| == |Get(template, CommandPath).value.items| >= 2
    ensures forall i :: 0 <= i < |Get(template, CommandPath).value.items| - 2 ==>
      Get(HollowNode(template, node).value, CommandPath).value.items[i] == Get(template, CommandPath).value.items[i]
  {
    var f := ReadNode(node).value;
    RebuildSteps(template, f);
    var named, labelled, withLabels := Named(template, f), Labelled(template, f), WithLabels(template, f);
    NodePathsApart();
    KeptByIdentityWrites(template, named, labelled, f.name, CommandPath);
    var ext := ExtendedArg(template, f);
    var out := FilledArg(template, f);
    PutListItem(labelled, CommandPath, -2, ext);
    PutListItem(withLabels, CommandPath, -1, out);
  }

  /** Of the source node only its name, labels and allocatable map matter:
      two nodes that agree on those rebuild to the same document. */
  lemma HollowNodeReadsOnly(template: Value, node: Value, other: Value)
    requires Get(node, NamePath) == Get(other, NamePath)
    requires Get(node, LabelsPath) == Get(other, LabelsPath)
    requires Get(node, AllocatablePath) == Get(other, AllocatablePath)
    ensures HollowNode(template, node) == HollowNode(template, other)
  {
    assert ReadNode(node) == ReadNode(other);
  }

  // ---------------------------------------------------------------- callbacks

  /** The node callback a run is configured with. */
  datatype NodeHook = KeepNode | HollowNodeHook(template: Value) | KwokNodeHook

  /** The pod callback a run is configured with. */
  datatype PodHook = KeepPod | HollowPodHook

  function PatchNode(h: NodeHook, node: Value): Result<Value> {
    match h
    case KeepNode => Success(node)
    case HollowNodeHook(t) => HollowNode(t, node)
    case KwokNodeHook => KwokNode(node)
  }

  function PatchPod(h: PodHook, pod: Value): Result<Value> {
    match h
    case KeepPod => Success(pod)
    case HollowPodHook => HollowPod(pod)
  }

  /** Every pod callback can be applied again without effect, and leaves
      the request the packing loop reads untouched. */
  lemma PatchPodStable(h: PodHook, pod: Value)
    requires PatchPod(h, pod).Success?
    ensures PatchPod(h, PatchPod(h, pod).value) == PatchPod(h, pod)
    ensures Quantity.Request(PatchPod(h, pod).value) == Quantity.Request(pod)
  {
    if h.HollowPodHook? {
      HollowPodIdempotent(pod);
      HollowPodKeepsRequest(pod);
    }
  }
}
