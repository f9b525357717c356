/** How a first-fit pass of utils/kube-gen.py (lines 100-116) unfolds one
    request at a time, and how it ends at the first request that fits
    nowhere, whatever follows. */
module Scenarios {
  import opened Wrappers
  import opened ResourceLedger
  import opened Packing

  /** One placement, then the rest of the pass on the charged ledger. */
  lemma PackPlaces(l: Ledger, reqs: seq<Res>, i: nat, after: Ledger)
    requires |reqs| > 0 && FirstFit(l, reqs[0]) == Some(i)
    requires Allocate(l, i, reqs[0]) == after
    ensures Pack(l, reqs).ledger == Pack(after, reqs[1..]).ledger
    ensures Pack(l, reqs).log == [Placement(i, reqs[0])] + Pack(after, reqs[1..]).log
  {
  }

  /** A request that fits nowhere ends the pass with nothing placed. */
  lemma PackMisses(l: Ledger, reqs: seq<Res>)
    requires |reqs| > 0 && forall j :: 0 <= j < |l| ==> !Fits(l[j], reqs[0])
    ensures Pack(l, reqs) == Packed(l, [])
  {
    assert FirstFit(l, reqs[0]).None?;
  }

  /** Three placements and then a miss: the pass ends there, and none of
      the requests after the miss is placed, even one that would fit. */
  lemma PackThreeThenMiss(l0: Ledger, reqs: seq<Res>, i0: nat, i1: nat, i2: nat, l1: Ledger, l2: Ledger, l3: Ledger)
    requires |reqs| >= 4
    requires FirstFit(l0, reqs[0]) == Some(i0) && Allocate(l0, i0, reqs[0]) == l1
    requires FirstFit(l1, reqs[1]) == Some(i1) && Allocate(l1, i1, reqs[1]) == l2
    requires FirstFit(l2, reqs[2]) == Some(i2) && Allocate(l2, i2, reqs[2]) == l3
    requires forall j :: 0 <= j < |l3| ==> !Fits(l3[j], reqs[3])
    ensures Pack(l0, reqs).ledger == l3
    ensures |Pack(l0, reqs).log| == 3
    ensures Pack(l0, reqs).log[0] == Placement(i0, reqs[0])
    ensures Pack(l0, reqs).log[1] == Placement(i1, reqs[1])
    ensures Pack(l0, reqs).log[2] == Placement(i2, reqs[2])
  {
    var r1 := reqs[1..];
    var r2 := r1[1..];
    PackMisses(l3, r2[1..]);
    PackPlaces(l2, r2, i2, l3);
    PackPlaces(l1, r1, i1, l2);
    PackPlaces(l0, reqs, i0, l1);
  }
}
