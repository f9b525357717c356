/** The packing loop of `generate_n_nodes` (utils/kube-gen.py lines 100-116
    and 126-127, utils/object-generator.py lines 80-95): each pending pod's
    request is read, the pod callback patches it, and it goes to the lowest
    ledger entry that still fits it; the loop stops at the first pod that
    fits nowhere. */
module Packing {
  import opened Wrappers
  import opened Doc
  import opened ResourceLedger
  import Quantity
  import Sequences

  /** A pending pod: its position in the loaded pod list, and its document. */
  datatype Pod = Pod(id: nat, doc: Value)

  function Ids(ps: seq<Pod>): (r: seq<nat>)
    ensures |r| == |ps|
    ensures forall k :: 0 <= k < |ps| ==> r[k] == ps[k].id
  {
    if |ps| == 0 then [] else [ps[0].id] + Ids(ps[1..])
  }

  function Docs(ps: seq<Pod>): (r: seq<Value>)
    ensures |r| == |ps|
    ensures forall k :: 0 <= k < |ps| ==> r[k] == ps[k].doc
  {
    if |ps| == 0 then [] else [ps[0].doc] + Docs(ps[1..])
  }

  lemma {:induction false} IdsAppend(a: seq<Pod>, b: seq<Pod>)
    ensures Ids(a + b) == Ids(a) + Ids(b)
  {
    var l, r := Ids(a + b), Ids(a) + Ids(b);
    assert |l| == |r|;
    forall k | 0 <= k < |l| ensures l[k] == r[k] {
      if k < |a| { assert (a + b)[k] == a[k]; } else { assert (a + b)[k] == b[k - |a|]; }
    }
  }

  lemma {:induction false} DocsAppend(a: seq<Pod>, b: seq<Pod>)
    ensures Docs(a + b) == Docs(a) + Docs(b)
  {
    var l, r := Docs(a + b), Docs(a) + Docs(b);
    assert |l| == |r|;
    forall k | 0 <= k < |l| ensures l[k] == r[k] {
      if k < |a| { assert (a + b)[k] == a[k]; } else { assert (a + b)[k] == b[k - |a|]; }
    }
  }

  /** Moving pods from the front of one list to the end of another keeps
      the combined id sequence. */
  lemma IdsShift(a: seq<Pod>, b: seq<Pod>, c: seq<Pod>)
    ensures Ids(a + b) + Ids(c) == Ids(a) + (Ids(b) + Ids(c))
  {
    IdsAppend(a, b);
  }

  /** The loaded pod list, each pod tagged with its position. */
  function Pool(docs: seq<Value>): (r: seq<Pod>)
    ensures Docs(r) == docs
    ensures forall k :: 0 <= k < |r| ==> r[k].id == k
  {
    var r := seq(|docs|, k requires 0 <= k < |docs| => Pod(k, docs[k]));
    assert Docs(r) == docs;
    r
  }

  // ---------------------------------------------------------------- ledger init

  /** `initialize_resources`: one capacity pair per loaded node, in order;
      the first node whose capacity cannot be read stops the load. */
  function InitLedger(nodes: seq<Value>): (r: Result<Ledger>)
    ensures r.Success? <==> forall k :: 0 <= k < |nodes| ==> Quantity.Capacity(nodes[k]).Success?
    ensures r.Success? ==> |r.value| == |nodes|
    ensures r.Success? ==> forall k :: 0 <= k < |nodes| ==> Quantity.Capacity(nodes[k]) == Success(r.value[k])
    ensures r.Failure? ==> exists k :: 0 <= k < |nodes| && Quantity.Capacity(nodes[k]) == Failure(r.error) &&
                                       forall i :: 0 <= i < k ==> Quantity.Capacity(nodes[i]).Success?
  {
    Sequences.MapResult(nodes, Quantity.Capacity)
  }

  // ---------------------------------------------------------------- the engine

  /** What first-fit packing leaves behind: the ledger, and where each placed
      request went, in placement order. */
  datatype Packed = Packed(ledger: Ledger, log: seq<Placement>)

  /** First-fit over a list of requests: each goes to the lowest fitting
      entry of the whole ledger, which is then decremented; the first
      request that fits nowhere ends the packing. */
  function Pack(l: Ledger, reqs: seq<Res>): (r: Packed)
    ensures |r.ledger| == |l|
    ensures |r.log| <= |reqs|
    ensures forall k :: 0 <= k < |r.log| ==> r.log[k].req == reqs[k] && r.log[k].node < |l|
    ensures forall j :: 0 <= j < |l| ==> r.ledger[j] == Minus(l[j], Used(r.log, j))
    ensures forall j :: 0 <= j < |l| && Touched(r.log, j) ==> NonNeg(r.ledger[j])
    ensures |r.log| < |reqs| ==> FirstFit(r.ledger, reqs[|r.log|]).None?
    decreases |reqs|
  {
    if |reqs| == 0 then Packed(l, [])
    else match FirstFit(l, reqs[0])
      case None => Packed(l, [])
      case Some(i) =>
        var rest := Pack(Allocate(l, i, reqs[0]), reqs[1..]);
        PackCons(l, i, reqs[0], rest.log);
        Packed(rest.ledger, [Placement(i, reqs[0])] + rest.log)
  }

  /** How one more placement in front of a log changes each entry's
      accounting. */
  lemma PackCons(l: Ledger, i: nat, req: Res, log: seq<Placement>)
    requires i < |l|
    ensures forall j :: 0 <= j < |l| ==>
      Minus(Allocate(l, i, req)[j], Used(log, j)) == Minus(l[j], Used([Placement(i, req)] + log, j))
    ensures forall j :: 0 <= j < |l| ==>
      (Touched([Placement(i, req)] + log, j) <==> j == i || Touched(log, j))
  {
    var log' := [Placement(i, req)] + log;
    assert log'[1..] == log;
  }

  /** Each placement went to the lowest entry that fitted its request on the
      ledger as it stood then: the input charged with the placements before
      it. */
  lemma {:induction false} PackFirstFit(l: Ledger, reqs: seq<Res>, k: nat)
    requires k < |Pack(l, reqs).log|
    ensures FirstFit(Spent(l, Pack(l, reqs).log[..k]), reqs[k]) == Some(Pack(l, reqs).log[k].node)
    ensures var before := Spent(l, Pack(l, reqs).log[..k]); var i := Pack(l, reqs).log[k].node;
      Fits(before[i], reqs[k]) && forall j :: 0 <= j < i ==> !Fits(before[j], reqs[k])
    decreases k
  {
    var p := Pack(l, reqs);
    var i := FirstFit(l, reqs[0]).value;
    var next := Allocate(l, i, reqs[0]);
    var rest := Pack(next, reqs[1..]);
    assert p.log == [Placement(i, reqs[0])] + rest.log;
    if k == 0 {
      SpentNothing(l, p.log[..0]);
    } else {
      PackFirstFit(next, reqs[1..], k - 1);
      assert p.log[..k] == [Placement(i, reqs[0])] + rest.log[..k - 1];
      SpentCons(l, i, reqs[0], rest.log[..k - 1]);
    }
  }

  lemma SpentNothing(l: Ledger, log: seq<Placement>)
    requires log == []
    ensures Spent(l, log) == l
  {
    assert forall j :: 0 <= j < |l| ==> Spent(l, log)[j] == l[j];
  }

  lemma SpentCons(l: Ledger, i: nat, req: Res, log: seq<Placement>)
    requires i < |l|
    ensures Spent(Allocate(l, i, req), log) == Spent(l, [Placement(i, req)] + log)
  {
    PackCons(l, i, req, log);
  }

  /** Packing onto a charged ledger charges it with the new placements too. */
  lemma PackCharges(capacity: Ledger, l: Ledger, earlier: seq<Placement>, reqs: seq<Res>)
    requires Charged(capacity, l, earlier)
    ensures Charged(capacity, Pack(l, reqs).ledger, earlier + Pack(l, reqs).log)
  {
    var p := Pack(l, reqs);
    ChargedAppend(capacity, l, p.ledger, earlier, p.log);
  }

  // ---------------------------------------------------------------- the pod loop

  /** A node or pod callback of `generate_n_nodes`: it rewrites one document
      in place, or raises. */
  type Callback = Value -> Result<Value>

  /** Applying the callback to `d` again changes nothing, and the result
      has the request `d` has. */
  predicate SettlesOn(hook: Callback, d: Value) {
    hook(d).Success? ==>
      hook(hook(d).value) == hook(d) && Quantity.Request(hook(d).value) == Quantity.Request(d)
  }

  /** The pod callback settles on every document. */
  ghost predicate Settles(hook: Callback) {
    forall d :: SettlesOn(hook, d)
  }

  /** The outcome of one pass of the pod loop. `reqs` holds the request of
      every pod the loop read (the placed ones, then the one that missed, if
      any); `pool` is the pending list as the loop leaves it, each pod it
      read patched in place; `placed` are the pods appended to the output. */
  datatype Pass = Pass(ledger: Ledger, log: seq<Placement>, reqs: seq<Res>, placed: seq<Pod>, pool: seq<Pod>)

  /** The `for pod in pods` loop: read the request, patch the pod, place it
      first-fit or stop. */
  function Scan(l: Ledger, pool: seq<Pod>, hook: Callback): (r: Result<Pass>)
    ensures r.Success? ==> Ids(r.value.pool) == Ids(pool)
    ensures r.Success? ==> |r.value.placed| == |r.value.log| <= |r.value.reqs| <= |pool|
    ensures r.Success? ==> |r.value.reqs| == if |r.value.placed| < |pool| then |r.value.placed| + 1 else |pool|
    decreases |pool|
  {
    if |pool| == 0 then Success(Pass(l, [], [], [], []))
    else
      var req :- Quantity.Request(pool[0].doc);
      var doc :- hook(pool[0].doc);
      var head := Pod(pool[0].id, doc);
      match FirstFit(l, req)
      case None =>
        var out := [head] + pool[1..];
        assert Ids(out) == [head.id] + Ids(pool[1..]);
        Success(Pass(l, [], [req], [], out))
      case Some(i) =>
        var rest :- Scan(Allocate(l, i, req), pool[1..], hook);
        var out := [head] + rest.pool;
        assert Ids(out) == [head.id] + Ids(rest.pool);
        Success(Pass(rest.ledger, [Placement(i, req)] + rest.log, [req] + rest.reqs, [head] + rest.placed, out))
  }

  /** The placed pods head the pending list the pass leaves. */
  lemma {:induction false} ScanPlacedPrefix(l: Ledger, pool: seq<Pod>, hook: Callback)
    requires Scan(l, pool, hook).Success?
    ensures var p := Scan(l, pool, hook).value;
      p.pool == p.placed + p.pool[|p.placed|..]
    decreases |pool|
  {
    if |pool| > 0 {
      var req := Quantity.Request(pool[0].doc).value;
      if FirstFit(l, req).Some? {
        var head := Pod(pool[0].id, hook(pool[0].doc).value);
        var rest := Scan(Allocate(l, FirstFit(l, req).value, req), pool[1..], hook).value;
        var p := Scan(l, pool, hook).value;
        ScanPlacedPrefix(Allocate(l, FirstFit(l, req).value, req), pool[1..], hook);
        assert p.placed == [head] + rest.placed && p.pool == [head] + rest.pool;
        assert p.pool[|p.placed|..] == rest.pool[|rest.placed|..];
      }
    }
  }

  /** Every pod the pass read had a readable request and was patched in
      place; the pods after the one that missed are untouched. */
  lemma {:induction false} ScanReads(l: Ledger, pool: seq<Pod>, hook: Callback)
    requires Scan(l, pool, hook).Success?
    ensures var p := Scan(l, pool, hook).value;
      forall k :: 0 <= k < |p.reqs| ==>
        Quantity.Request(pool[k].doc) == Success(p.reqs[k]) &&
        hook(pool[k].doc) == Success(p.pool[k].doc)
    ensures var p := Scan(l, pool, hook).value;
      forall k :: |p.reqs| <= k < |pool| ==> p.pool[k] == pool[k]
    decreases |pool|
  {
    if |pool| > 0 {
      var req := Quantity.Request(pool[0].doc).value;
      if FirstFit(l, req).Some? {
        ScanReads(Allocate(l, FirstFit(l, req).value, req), pool[1..], hook);
      }
    }
  }

  /** The pass places exactly what first-fit packing of the requests it read
      places, and leaves the same ledger. */
  lemma {:induction false} ScanPacks(l: Ledger, pool: seq<Pod>, hook: Callback)
    requires Scan(l, pool, hook).Success?
    ensures var p := Scan(l, pool, hook).value;
      Pack(l, p.reqs) == Packed(p.ledger, p.log)
    decreases |pool|
  {
    if |pool| > 0 {
      var p := Scan(l, pool, hook).value;
      var req := Quantity.Request(pool[0].doc).value;
      if FirstFit(l, req).Some? {
        var i := FirstFit(l, req).value;
        var rest := Scan(Allocate(l, i, req), pool[1..], hook).value;
        ScanPacks(Allocate(l, i, req), pool[1..], hook);
        assert p.reqs[1..] == rest.reqs;
      }
    }
  }

  /** Every input pod's request can be read and the pod callback accepts
      it. */
  predicate PodsReadable(docs: seq<Value>, hook: Callback) {
    forall k :: 0 <= k < |docs| ==> Quantity.Request(docs[k]).Success? && hook(docs[k]).Success?
  }

  /** A pass fails only on a pod whose request cannot be read or which the
      callback cannot patch. */
  lemma {:induction false} ScanSucceeds(l: Ledger, pool: seq<Pod>, hook: Callback)
    requires forall k :: 0 <= k < |pool| ==>
      Quantity.Request(pool[k].doc).Success? && hook(pool[k].doc).Success?
    ensures Scan(l, pool, hook).Success?
    decreases |pool|
  {
    if |pool| > 0 {
      var req := Quantity.Request(pool[0].doc).value;
      if FirstFit(l, req).Some? {
        assert forall k :: 1 <= k < |pool| ==> pool[1..][k - 1] == pool[k];
        ScanSucceeds(Allocate(l, FirstFit(l, req).value, req), pool[1..], hook);
      }
    }
  }

  // ---------------------------------------------------------------- pool removal

  /** Where `list.remove` looks: the first pending pod whose document equals
      `d`. */
  function Find(pool: seq<Pod>, d: Value): (r: Option<nat>)
    ensures r.Some? ==> r.value < |pool| && pool[r.value].doc == d
    ensures r.Some? ==> forall j :: 0 <= j < r.value ==> pool[j].doc != d
    ensures r.None? <==> forall j :: 0 <= j < |pool| ==> pool[j].doc != d
    ensures r.Some? <==> exists j :: 0 <= j < |pool| && pool[j].doc == d
  {
    if |pool| == 0 then None
    else if pool[0].doc == d then Some(0)
    else match Find(pool[1..], d)
      case None => None
      case Some(i) => Some(i + 1)
  }

  /** `pods.remove(pod)`: drops the first pending pod whose document equals
      the given one, keeping the others in order; raises when there is none. */
  function Remove(pool: seq<Pod>, p: Pod): (r: Result<seq<Pod>>)
    ensures r.Success? <==> exists k :: 0 <= k < |pool| && pool[k].doc == p.doc
    ensures r.Success? <==> Find(pool, p.doc).Some?
    ensures r.Success? ==> var k := Find(pool, p.doc).value; r.value == pool[..k] + pool[k + 1..]
    ensures r.Success? ==> var k := Find(pool, p.doc).value;
      |r.value| == |pool| - 1 &&
      (forall j :: 0 <= j < k ==> r.value[j] == pool[j]) &&
      (forall j :: k <= j < |r.value| ==> r.value[j] == pool[j + 1])
    ensures r.Failure? ==> r.error == NotInList
  {
    match Find(pool, p.doc)
    case None => Failure(NotInList)
    case Some(k) => DropAt(pool, k); Success(pool[..k] + pool[k + 1..])
  }

  /** Dropping index `k` shifts every later element down by one. */
  lemma DropAt<T>(s: seq<T>, k: nat)
    requires k < |s|
    ensures var t := s[..k] + s[k + 1..];
      |t| == |s| - 1 &&
      (forall j :: 0 <= j < k ==> t[j] == s[j]) &&
      (forall j :: k <= j < |t| ==> t[j] == s[j + 1])
  {
  }

  /** `for pod in pods_to_remove: pods.remove(pod)`: every removal must find
      its pod, and each takes exactly one pod out. */
  function RemoveEach(pool: seq<Pod>, gone: seq<Pod>): (r: Result<seq<Pod>>)
    ensures r.Success? ==> |gone| <= |pool| && |r.value| == |pool| - |gone|
    ensures |gone| > 0 && r.Success? ==> Remove(pool, gone[0]).Success?
    ensures r.Failure? ==> r.error == NotInList
    decreases |gone|
  {
    if |gone| == 0 then Success(pool)
    else
      var next :- Remove(pool, gone[0]);
      RemoveEach(next, gone[1..])
  }

  /** Removing the placed pods, in placement order, from a pool they head
      leaves exactly the pods after them: each removal finds its pod first. */
  lemma {:induction false} RemoveEachPrefix(gone: seq<Pod>, rest: seq<Pod>)
    ensures RemoveEach(gone + rest, gone) == Success(rest)
    decreases |gone|
  {
    if |gone| > 0 {
      var pool := gone + rest;
      assert pool[0] == gone[0];
      assert pool[..0] + pool[1..] == pool[1..];
      assert Remove(pool, gone[0]) == Success(pool[1..]);
      assert pool[1..] == gone[1..] + rest;
      RemoveEachPrefix(gone[1..], rest);
    } else {
      assert gone + rest == rest;
    }
  }

  /** After a pass the pending list is what follows the placed pods: the pod
      that missed (patched) and the pods never read. */
  lemma ScanThenRemove(l: Ledger, pool: seq<Pod>, hook: Callback, p: Pass)
    requires Scan(l, pool, hook) == Success(p)
    ensures RemoveEach(p.pool, p.placed) == Success(p.pool[|p.placed|..])
    ensures Ids(p.placed) + Ids(p.pool[|p.placed|..]) == Ids(pool)
  {
    ScanPlacedPrefix(l, pool, hook);
    RemoveEachPrefix(p.placed, p.pool[|p.placed|..]);
    IdsAppend(p.placed, p.pool[|p.placed|..]);
  }
}
