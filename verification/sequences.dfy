/** Mapping a fallible step over a list, stopping at the first failure:
    the shape of every `for x in xs: f(x)` loop whose body may raise. */
module Sequences {
  import opened Wrappers

  function Last<T>(xs: seq<T>): T
    requires |xs| > 0
  {
    xs[|xs| - 1]
  }

  function MapResult<T, U>(xs: seq<T>, f: T -> Result<U>): (r: Result<seq<U>>)
    ensures r.Success? <==> forall k :: 0 <= k < |xs| ==> f(xs[k]).Success?
    ensures r.Success? ==> |r.value| == |xs|
    ensures r.Success? ==> forall k :: 0 <= k < |xs| ==> f(xs[k]) == Success(r.value[k])
    ensures r.Failure? ==> exists k :: 0 <= k < |xs| && f(xs[k]) == Failure(r.error) &&
                                       forall i :: 0 <= i < k ==> f(xs[i]).Success?
  {
    if |xs| == 0 then Success([])
    else
      var first :- f(xs[0]);
      var rest :- MapResult(xs[1..], f);
      assert forall k :: 1 <= k < |xs| ==> xs[k] == xs[1..][k - 1];
      Success([first] + rest)
  }

  /** Mapping over a concatenation maps each part and concatenates. */
  lemma MapResultAppend<T, U>(a: seq<T>, b: seq<T>, f: T -> Result<U>)
    requires MapResult(a, f).Success? && MapResult(b, f).Success?
    ensures MapResult(a + b, f) == Success(MapResult(a, f).value + MapResult(b, f).value)
  {
    var x, y := MapResult(a, f).value, MapResult(b, f).value;
    assert |x| == |a| && |y| == |b|;
    forall k | 0 <= k < |a + b| ensures f((a + b)[k]) == Success((x + y)[k]) {
      if k < |a| {
        assert (a + b)[k] == a[k] && (x + y)[k] == x[k];
      } else {
        assert (a + b)[k] == b[k - |a|] && (x + y)[k] == y[k - |a|];
      }
    }
    var r := MapResult(a + b, f);
    assert r.Success?;
    assert |r.value| == |x + y|;
    assert forall k :: 0 <= k < |a + b| ==> r.value[k] == (x + y)[k];
    assert r.value == x + y;
  }

  /** Mapping the next slice of a list extends the mapping of its prefix. */
  lemma MapResultExtend<T, U>(xs: seq<T>, from: nat, end: nat, f: T -> Result<U>, prior: seq<U>, added: seq<U>)
    requires from <= end <= |xs|
    requires MapResult(xs[..from], f) == Success(prior)
    requires MapResult(xs[from..end], f) == Success(added)
    ensures MapResult(xs[..end], f) == Success(prior + added)
  {
    SliceJoin(xs, from, end);
    MapResultAppend(xs[..from], xs[from..end], f);
  }

  lemma SliceJoin<T>(xs: seq<T>, from: nat, end: nat)
    requires from <= end <= |xs|
    ensures xs[..from] + xs[from..end] == xs[..end]
  {
  }
}
