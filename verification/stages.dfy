/** The stage loop of utils/kube-gen.py (lines 168 and 192-204): with step
    `K`, stage `i` covers nodes `[i*K, (i+1)*K)` until the first stage whose
    nominal size `(i+1)*K` is within `K` of the loaded node count `L`; that
    stage is stretched or shrunk to end at `L` and is the last. At most
    `N // K` stages run. */
module Stages {
  datatype Stage = Stage(start: nat, end: nat)

  function Abs(x: int): nat {
    if x < 0 then -x else x
  }

  /** `increment if increment > 0 else node_count`. */
  function StepSize(count: nat, increment: int): (k: nat)
    requires count > 0
    ensures k > 0
    ensures k == increment || k == count
    ensures increment > 0 <==> k == increment
  {
    if increment > 0 then increment else count
  }

  /** `abs(node_qty - loaded_nodes_qty) <= increment`: the stage whose
      nominal end is `nominal` is the last one. */
  predicate Snaps(nominal: nat, k: nat, loaded: nat) {
    Abs(nominal - loaded) <= k
  }

  /** Every stage but the last is a full step long, did not snap, and is
      followed by a stage starting where it ends. */
  predicate Chained(r: seq<Stage>, k: nat, loaded: nat) {
    |r| <= 1 ||
    (!Snaps(r[0].start + k, k, loaded) && r[0].end == r[0].start + k == r[1].start &&
     Chained(r[1..], k, loaded))
  }

  lemma {:induction false} ChainedAt(r: seq<Stage>, k: nat, loaded: nat, j: nat)
    requires Chained(r, k, loaded) && j + 1 < |r|
    ensures !Snaps(r[j].start + k, k, loaded) && r[j].end == r[j].start + k == r[j + 1].start
  {
    if j > 0 {
      ChainedAt(r[1..], k, loaded, j - 1);
    }
  }

  /** Stages `i`, `i+1`, ... of a run with `steps` iterations, stage `i`
      starting at `start` (which is `i * K`). */
  function PlanFrom(i: nat, start: nat, steps: nat, k: nat, loaded: nat): (r: seq<Stage>)
    ensures i >= steps <==> |r| == 0
    ensures |r| == 0 || i + |r| <= steps
    ensures |r| > 0 ==> r[0].start == start
    ensures Chained(r, k, loaded)
    decreases steps - i
  {
    if i >= steps then []
    else if Snaps(start + k, k, loaded) then [Stage(start, loaded)]
    else
      var rest := PlanFrom(i + 1, start + k, steps, k, loaded);
      var r := [Stage(start, start + k)] + rest;
      assert r[1..] == rest;
      r
  }

  /** The `(start_pos, end_pos)` of every stage the loop runs. */
  function Plan(count: nat, k: nat, loaded: nat): (r: seq<Stage>)
    requires k > 0
    ensures |r| <= count / k
  {
    PlanFrom(0, 0, count / k, k, loaded)
  }

  /** Stage `j` starts at `j * K`, where the previous one ended. */
  lemma PlanStarts(count: nat, k: nat, loaded: nat)
    requires k > 0
    ensures var p := Plan(count, k, loaded);
      (forall j :: 0 <= j < |p| ==> p[j].start == j * k) &&
      (forall j :: 0 <= j < |p| - 1 ==> p[j + 1].start == p[j].end)
  {
    var p := Plan(count, k, loaded);
    forall j | 0 <= j < |p| ensures p[j].start == j * k {
      PlanStartsUpTo(p, k, loaded, j);
    }
    forall j | 0 <= j < |p| - 1 ensures p[j + 1].start == p[j].end {
      ChainedAt(p, k, loaded, j);
    }
  }

  lemma {:induction false} PlanStartsUpTo(p: seq<Stage>, k: nat, loaded: nat, j: nat)
    requires j < |p| && p[0].start == 0
    requires Chained(p, k, loaded)
    ensures p[j].start == j * k
  {
    if j > 0 {
      PlanStartsUpTo(p, k, loaded, j - 1);
      ChainedAt(p, k, loaded, j - 1);
      assert j * k == (j - 1) * k + k;
    }
  }

  /** `n * k` by repeated addition, which keeps the plan proofs linear. */
  function Times(n: nat, k: nat): nat {
    if n == 0 then 0 else Times(n - 1, k) + k
  }

  lemma {:induction false} TimesIsProduct(n: nat, k: nat)
    ensures Times(n, k) == n * k
  {
    if n > 0 {
      TimesIsProduct(n - 1, k);
      assert n * k == (n - 1) * k + k;
    }
  }

  /** The stages are not empty, each lies within the first `loaded` nodes,
      and the last ends at `loaded`. */
  predicate Covers(p: seq<Stage>, loaded: nat) {
    |p| > 0 && p[|p| - 1].end == loaded &&
    forall j :: 0 <= j < |p| ==> p[j].start <= p[j].end <= loaded
  }

  /** From a stage that starts within the loaded nodes, when the loaded count
      is below the nominal end of one stage past the last iteration, the
      remaining stages stay within the loaded nodes and the last ends at
      the loaded count. */
  lemma {:induction false} PlanFromCovers(i: nat, start: nat, steps: nat, k: nat, loaded: nat)
    requires 0 < k && i < steps
    requires start <= loaded < start + Times(steps - i, k) + k
    ensures Covers(PlanFrom(i, start, steps, k, loaded), loaded)
    decreases steps - i
  {
    if !Snaps(start + k, k, loaded) {
      assert loaded > start + k + k;
      if i + 1 == steps {
        assert false;
      }
      PlanFromCovers(i + 1, start + k, steps, k, loaded);
      CoversCons(Stage(start, start + k), PlanFrom(i + 1, start + k, steps, k, loaded), loaded);
    }
  }

  lemma CoversCons(s: Stage, rest: seq<Stage>, loaded: nat)
    requires s.start <= s.end <= loaded && Covers(rest, loaded)
    ensures Covers([s] + rest, loaded)
  {
    var p := [s] + rest;
    forall j | 0 <= j < |p| ensures p[j].start <= p[j].end <= loaded {
      if j > 0 {
        assert p[j] == rest[j - 1];
      }
    }
  }

  /** With a step no larger than the requested count and at most that many
      nodes loaded, the plan is not empty, every stage lies within the
      loaded nodes, and the last stage ends exactly at the loaded count: the
      stages cover `[0, L)`. */
  lemma PlanCovers(count: nat, k: nat, loaded: nat)
    requires 0 < k <= count
    requires loaded <= count
    ensures Covers(Plan(count, k, loaded), loaded)
  {
    var steps := count / k;
    assert steps * k + count % k == count;
    TimesIsProduct(steps, k);
    PlanFromCovers(0, 0, steps, k, loaded);
  }

  /** A step larger than the requested count runs no stage at all. */
  lemma PlanEmpty(count: nat, k: nat, loaded: nat)
    requires count < k
    ensures Plan(count, k, loaded) == []
  {
  }

  /** Requested and loaded 1000 nodes with step 300: three stages, the last
      stretched to 400 nodes, instead of a fourth stage `[900, 1000)`. */
  lemma PlanThousandByThreeHundred()
    ensures Plan(1000, 300, 1000) == [Stage(0, 300), Stage(300, 600), Stage(600, 1000)]
  {
    assert !Snaps(300, 300, 1000) && !Snaps(600, 300, 1000) && Snaps(900, 300, 1000);
  }

  /** With step 500 the very first stage already snaps. */
  lemma PlanThousandByFiveHundred()
    ensures Plan(1000, 500, 1000) == [Stage(0, 1000)]
  {
    assert Snaps(500, 500, 1000);
  }

  /** Without an increment the step is the whole count: one stage. */
  lemma PlanWithoutIncrement()
    ensures Plan(1000, StepSize(1000, 0), 1000) == [Stage(0, 1000)]
  {
    assert Snaps(1000, 1000, 1000);
  }

  /** Fewer nodes loaded than requested: the first stage is within a step of
      the loaded count and ends there. */
  lemma PlanShortLoad()
    ensures Plan(1000, 300, 400) == [Stage(0, 400)]
  {
    assert Snaps(300, 300, 400);
  }

  /** The stages tile `[from, bound)` from the left: the first starts at
      `from`, each ends within `bound` no earlier than it starts, and the
      next starts where it ends. */
  predicate Tiles(plan: seq<Stage>, from: nat, bound: nat): (b: bool)
    ensures b ==> forall j :: 0 <= j < |plan| ==> from <= plan[j].start <= plan[j].end <= bound
  {
    if |plan| == 0 then true
    else
      var b := plan[0].start == from && from <= plan[0].end <= bound && Tiles(plan[1..], plan[0].end, bound);
      assert b ==> forall j :: 1 <= j < |plan| ==> plan[j] == plan[1..][j - 1];
      b
  }

  lemma {:induction false} ChainedTiles(p: seq<Stage>, k: nat, loaded: nat, from: nat)
    requires |p| > 0 && p[0].start == from
    requires Chained(p, k, loaded)
    requires forall j :: 0 <= j < |p| ==> p[j].start <= p[j].end <= loaded
    ensures Tiles(p, from, loaded)
  {
    if |p| > 1 {
      assert p[1..][0] == p[1];
      ChainedTiles(p[1..], k, loaded, p[0].end);
    }
  }

  /** Every plan run with at most `count` nodes loaded tiles the loaded
      nodes from 0 (and is empty when the step exceeds the count). */
  lemma PlanTiles(count: nat, k: nat, loaded: nat)
    requires k > 0 && loaded <= count
    ensures Tiles(Plan(count, k, loaded), 0, loaded)
  {
    if k <= count {
      PlanCovers(count, k, loaded);
      ChainedTiles(Plan(count, k, loaded), k, loaded, 0);
    }
  }
}
