/** The resource ledger: one `(cpu, memory)` pair of remaining capacity per
    loaded node, positionally aligned with the node list, and the first-fit
    search the packing loop runs over it (utils/kube-gen.py, lines 106-112). */
module ResourceLedger {
  import opened Wrappers

  datatype Res = Res(cpu: int, mem: int)

  type Ledger = seq<Res>

  const Zero := Res(0, 0)

  function Plus(a: Res, b: Res): Res {
    Res(a.cpu + b.cpu, a.mem + b.mem)
  }

  function Minus(a: Res, b: Res): Res {
    Res(a.cpu - b.cpu, a.mem - b.mem)
  }

  predicate NonNeg(r: Res) {
    r.cpu >= 0 && r.mem >= 0
  }

  /** The placement test of the scripts: both `remaining - request >= 0`. */
  predicate Fits(remaining: Res, req: Res) {
    remaining.cpu - req.cpu >= 0 && remaining.mem - req.mem >= 0
  }

  /** First index at or after `from` whose entry fits the request. */
  function FirstFitFrom(l: Ledger, req: Res, from: nat): (r: Option<nat>)
    ensures r.Some? ==> from <= r.value < |l| && Fits(l[r.value], req)
    ensures r.Some? ==> forall j :: from <= j < r.value ==> !Fits(l[j], req)
    ensures r.None? <==> forall j :: from <= j < |l| ==> !Fits(l[j], req)
    decreases |l| - from
  {
    if from >= |l| then None
    else if Fits(l[from], req) then Some(from)
    else FirstFitFrom(l, req, from + 1)
  }

  /** `next(idx for idx, rem in enumerate(ledger) if fits, None)`: the lowest
      index of the whole ledger whose entry fits, or none. */
  function FirstFit(l: Ledger, req: Res): (r: Option<nat>)
    ensures r.Some? ==> r.value < |l| && Fits(l[r.value], req)
    ensures r.Some? ==> forall j :: 0 <= j < r.value ==> !Fits(l[j], req)
    ensures r.None? <==> forall j :: 0 <= j < |l| ==> !Fits(l[j], req)
  {
    FirstFitFrom(l, req, 0)
  }

  /** Subtracts a request from entry `i`; no other entry moves. */
  function Allocate(l: Ledger, i: nat, req: Res): (r: Ledger)
    requires i < |l|
    ensures |r| == |l|
    ensures r[i] == Minus(l[i], req)
    ensures forall j :: 0 <= j < |l| && j != i ==> r[j] == l[j]
    ensures Fits(l[i], req) ==> NonNeg(r[i])
  {
    l[i := Minus(l[i], req)]
  }

  /** Where one placed pod went and what it requested. The scripts compute
      the index and discard it; the model keeps it to state the accounting. */
  datatype Placement = Placement(node: nat, req: Res)

  /** Some placement went to node `j`. */
  predicate Touched(ps: seq<Placement>, j: nat) {
    |ps| > 0 && (ps[0].node == j || Touched(ps[1..], j))
  }

  /** Summed requests of the placements on node `j`. */
  function Used(ps: seq<Placement>, j: nat): (r: Res)
    ensures !Touched(ps, j) ==> r == Zero
  {
    if |ps| == 0 then Zero
    else if ps[0].node == j then Plus(ps[0].req, Used(ps[1..], j))
    else Used(ps[1..], j)
  }

  lemma {:induction false} UsedAppend(a: seq<Placement>, b: seq<Placement>, j: nat)
    ensures Used(a + b, j) == Plus(Used(a, j), Used(b, j))
    decreases |a|
  {
    if |a| == 0 {
      assert a + b == b;
      PlusZero(Used(b, j));
    } else {
      UsedAppend(a[1..], b, j);
      UsedConsAppend(a, b, j);
    }
  }

  /** The inductive step of `UsedAppend`: the head placement is counted once,
      before either part. */
  lemma UsedConsAppend(a: seq<Placement>, b: seq<Placement>, j: nat)
    requires |a| > 0
    requires Used(a[1..] + b, j) == Plus(Used(a[1..], j), Used(b, j))
    ensures Used(a + b, j) == Plus(Used(a, j), Used(b, j))
  {
    ConsAppend(a, b);
    if a[0].node == j {
      PlusAssoc(a[0].req, Used(a[1..], j), Used(b, j));
    }
  }

  lemma ConsAppend(a: seq<Placement>, b: seq<Placement>)
    requires |a| > 0
    ensures (a + b)[0] == a[0] && (a + b)[1..] == a[1..] + b
  {
  }

  lemma PlusZero(x: Res)
    ensures Plus(Zero, x) == x
  {
  }

  lemma PlusAssoc(x: Res, y: Res, z: Res)
    ensures Plus(x, Plus(y, z)) == Plus(Plus(x, y), z)
  {
  }

  lemma {:induction false} TouchedAppend(a: seq<Placement>, b: seq<Placement>, j: nat)
    ensures Touched(a + b, j) <==> Touched(a, j) || Touched(b, j)
    decreases |a|
  {
    if |a| == 0 {
      assert a + b == b;
    } else {
      assert (a + b)[0] == a[0];
      assert (a + b)[1..] == a[1..] + b;
      TouchedAppend(a[1..], b, j);
    }
  }

  /** `capacity` with every placement of `log` subtracted from its entry. */
  function Spent(capacity: Ledger, log: seq<Placement>): (r: Ledger)
    ensures |r| == |capacity|
    ensures forall j :: 0 <= j < |capacity| ==> r[j] == Minus(capacity[j], Used(log, j))
  {
    seq(|capacity|, j requires 0 <= j < |capacity| => Minus(capacity[j], Used(log, j)))
  }

  /** `l` is `capacity` charged with the placements of `log`, and no entry a
      placement went to is overdrawn. */
  predicate Charged(capacity: Ledger, l: Ledger, log: seq<Placement>) {
    |l| == |capacity| &&
    (forall j :: 0 <= j < |capacity| ==> l[j] == Minus(capacity[j], Used(log, j))) &&
    (forall j :: 0 <= j < |capacity| && Touched(log, j) ==> NonNeg(l[j]))
  }

  /** Charging in two rounds is charging with both logs. */
  lemma ChargedAppend(capacity: Ledger, mid: Ledger, after: Ledger, a: seq<Placement>, b: seq<Placement>)
    requires Charged(capacity, mid, a)
    requires |after| == |mid|
    requires forall j :: 0 <= j < |mid| ==> after[j] == Minus(mid[j], Used(b, j))
    requires forall j :: 0 <= j < |mid| && Touched(b, j) ==> NonNeg(after[j])
    ensures Charged(capacity, after, a + b)
  {
    forall j | 0 <= j < |capacity|
      ensures after[j] == Minus(capacity[j], Used(a + b, j))
    {
      UsedAppend(a, b, j);
      ChargedStep(capacity[j], mid[j], after[j], Used(a, j), Used(b, j), Touched(a, j), Touched(b, j));
    }
    forall j | 0 <= j < |capacity| && Touched(a + b, j)
      ensures NonNeg(after[j])
    {
      TouchedAppend(a, b, j);
      ChargedStep(capacity[j], mid[j], after[j], Used(a, j), Used(b, j), Touched(a, j), Touched(b, j));
    }
  }

  lemma ChargedStep(c: Res, m: Res, x: Res, ua: Res, ub: Res, ta: bool, tb: bool)
    requires m == Minus(c, ua) && (ta ==> NonNeg(m))
    requires x == Minus(m, ub) && (tb ==> NonNeg(x)) && (!tb ==> ub == Zero)
    ensures x == Minus(c, Plus(ua, ub))
    ensures ta || tb ==> NonNeg(x)
  {
  }
}
