/** The loaded YAML documents (nodes, pods, the hollow-node template) as
    values. Mappings keep insertion order, as Python dicts do, because the
    generator serialises label and allocatable maps in that order.
    Subscript paths follow Python: `d[k]` on a mapping, `l[i]` on a list with
    negative indices counted from the end. */
module Doc {
  import opened Wrappers
  import Text

  datatype Value =
    | Str(s: string)
    | Int(n: int)
    | Bool(b: bool)
    | Null
    | List(items: seq<Value>)
    | Dict(fields: seq<Field>)

  datatype Field = Field(key: string, val: Value)

  /** One subscript: a mapping key or a (possibly negative) list index. */
  datatype Step = Key(k: string) | At(i: int)

  function Keys(fields: seq<Field>): (ks: seq<string>)
    ensures |ks| == |fields|
    ensures forall i :: 0 <= i < |fields| ==> ks[i] == fields[i].key
  {
    seq(|fields|, i requires 0 <= i < |fields| => fields[i].key)
  }

  /** Position of the first field with key `k`. */
  function KeyIndex(fields: seq<Field>, k: string): (r: Option<nat>)
    ensures r.Some? ==> r.value < |fields| && fields[r.value].key == k
    ensures r.Some? ==> forall j :: 0 <= j < r.value ==> fields[j].key != k
    ensures r.None? <==> forall j :: 0 <= j < |fields| ==> fields[j].key != k
  {
    if |fields| == 0 then None
    else if fields[0].key == k then Some(0)
    else match KeyIndex(fields[1..], k)
      case None => None
      case Some(j) => Some(j + 1)
  }

  /** `d[k]` on a mapping; `None` is a KeyError. */
  function Lookup(fields: seq<Field>, k: string): Option<Value> {
    match KeyIndex(fields, k)
    case None => None
    case Some(i) => Some(fields[i].val)
  }

  /** `d[k] = v`: an existing key keeps its position, a new one is appended. */
  function Store(fields: seq<Field>, k: string, v: Value): (r: seq<Field>)
    ensures Lookup(r, k) == Some(v)
    ensures forall k' :: k' != k ==> Lookup(r, k') == Lookup(fields, k')
    ensures KeyIndex(fields, k).Some? ==> Keys(r) == Keys(fields)
    ensures KeyIndex(fields, k).None? ==> Keys(r) == Keys(fields) + [k]
  {
    match KeyIndex(fields, k)
    case Some(i) =>
      var r := fields[i := Field(k, v)];
      KeyIndexFirst(r, k, i);
      forall k' | k' != k
        ensures Lookup(r, k') == Lookup(fields, k')
      {
        KeyIndexAgree(fields, r, k');
      }
      r
    case None =>
      var r := fields + [Field(k, v)];
      KeyIndexFirst(r, k, |fields|);
      forall k' | k' != k
        ensures Lookup(r, k') == Lookup(fields, k')
      {
        KeyIndexAppend(fields, Field(k, v), k');
      }
      r
  }

  /** The first field carrying a key is the one `KeyIndex` finds. */
  lemma KeyIndexFirst(fields: seq<Field>, k: string, i: nat)
    requires i < |fields| && fields[i].key == k
    requires forall j :: 0 <= j < i ==> fields[j].key != k
    ensures KeyIndex(fields, k) == Some(i)
  {
    assert fields[i].key == k;
  }

  lemma KeyIndexAgree(a: seq<Field>, b: seq<Field>, k: string)
    requires |a| == |b|
    requires forall i :: 0 <= i < |a| ==> (a[i].key == k <==> b[i].key == k)
    ensures KeyIndex(a, k) == KeyIndex(b, k)
  {
    match KeyIndex(a, k)
    case None =>
    case Some(i) => KeyIndexFirst(b, k, i);
  }

  lemma KeyIndexAppend(a: seq<Field>, f: Field, k: string)
    requires f.key != k
    ensures KeyIndex(a + [f], k) == KeyIndex(a, k)
  {
    assert forall i :: 0 <= i < |a| ==> (a + [f])[i] == a[i];
    match KeyIndex(a, k)
    case None =>
    case Some(i) => KeyIndexFirst(a + [f], k, i);
  }

  /** Storing the value a key already holds leaves the mapping as it was. */
  lemma StoreSame(fields: seq<Field>, k: string, v: Value)
    requires Lookup(fields, k) == Some(v)
    ensures Store(fields, k, v) == fields
  {
    var i := KeyIndex(fields, k).value;
    assert fields[i] == Field(k, v);
  }

  /** Python's subscript normalisation: `l[i]` for `-|l| <= i < |l|`. */
  function Index(len: nat, i: int): (r: Option<nat>)
    ensures r.Some? <==> -(len as int) <= i < len
    ensures r.Some? ==> r.value < len && (r.value == i || r.value == len + i)
  {
    if 0 <= i < len then Some(i)
    else if -(len as int) <= i < 0 then Some(len + i)
    else None
  }

  /** Reading one subscript. The modelled scripts never subscript a string,
      so only mappings and lists have children. */
  function Child(v: Value, st: Step): Option<Value> {
    match (v, st)
    case (Dict(fs), Key(k)) => Lookup(fs, k)
    case (List(xs), At(i)) =>
      (match Index(|xs|, i)
       case None => None
       case Some(j) => Some(xs[j]))
    case _ => None
  }

  /** Assigning one subscript. A missing key is inserted; a list index must
      already exist; anything else raises. */
  function SetChild(v: Value, st: Step, x: Value): (r: Option<Value>)
    ensures r.Some? ==> Child(r.value, st) == Some(x)
    ensures r.Some? <==> (v.Dict? && st.Key?) || Child(v, st).Some?
    ensures r.Some? ==> (v.Dict? <==> r.value.Dict?) && (v.List? <==> r.value.List?)
    ensures r.Some? && v.List? ==> |r.value.items| == |v.items|
  {
    match (v, st)
    case (Dict(fs), Key(k)) => Some(Dict(Store(fs, k, x)))
    case (List(xs), At(i)) =>
      (match Index(|xs|, i)
       case None => None
       case Some(j) => Some(List(xs[j := x])))
    case _ => None
  }

  /** `v[p0][p1]...[pn]` as an expression. */
  function Get(v: Value, p: seq<Step>): (r: Option<Value>)
    ensures p == [] ==> r == Some(v)
    ensures |p| > 0 && r.Some? ==> (p[0].Key? ==> v.Dict?) && (p[0].At? ==> v.List?)
    decreases |p|
  {
    if |p| == 0 then Some(v)
    else match Child(v, p[0])
      case None => None
      case Some(c) => Get(c, p[1..])
  }

  /** `v[p0]...[pn] = x` as a statement, returning the updated document:
      every step but the last must already exist. */
  function Put(v: Value, p: seq<Step>, x: Value): (r: Option<Value>)
    ensures |p| > 0 ==> var parent := Get(v, p[..|p| - 1]);
      (r.Some? <==> parent.Some? && SetChild(parent.value, p[|p| - 1], x).Some?)
    ensures |p| > 0 && r.Some? ==> (v.Dict? <==> r.value.Dict?) && (v.List? <==> r.value.List?)
    ensures |p| > 0 && r.Some? && v.List? ==> |r.value.items| == |v.items|
    decreases |p|
  {
    if |p| == 0 then Some(x)
    else if |p| == 1 then
      assert Get(v, p[..0]) == Some(v);
      SetChild(v, p[0], x)
    else match Child(v, p[0])
      case None => None
      case Some(c) =>
        assert p[..|p| - 1][0] == p[0] && p[..|p| - 1][1..] == p[1..][..|p| - 2];
        assert p[|p| - 1] == p[1..][|p| - 2];
        match Put(c, p[1..], x)
        case None => None
        case Some(c') => SetChild(v, p[0], c')
  }

  /** Two subscripts that can never denote the same child: different keys,
      a key against an index, or two distinct indices of the same sign
      (a negative and a non-negative index may alias). */
  predicate Apart(a: Step, b: Step) {
    a != b && !(a.At? && b.At? && (a.i < 0) != (b.i < 0))
  }

  /** Two paths that share a prefix and then step apart. */
  predicate Diverge(p: seq<Step>, q: seq<Step>)
    decreases |p|
  {
    |p| > 0 && |q| > 0 &&
    (Apart(p[0], q[0]) || (p[0] == q[0] && Diverge(p[1..], q[1..])))
  }

  /** Paths that agree on their first `n` steps and then step apart diverge. */
  lemma {:induction false} DivergeAt(p: seq<Step>, q: seq<Step>, n: nat)
    requires n < |p| && n < |q|
    requires p[..n] == q[..n]
    requires Apart(p[n], q[n])
    ensures Diverge(p, q) && Diverge(q, p)
    decreases n
  {
    if n > 0 {
      assert p[0] == p[..n][0] == q[..n][0] == q[0];
      assert p[1..][..n - 1] == p[1..n] == q[1..n] == q[1..][..n - 1];
      DivergeAt(p[1..], q[1..], n - 1);
    }
  }

  lemma SetChildOther(v: Value, a: Step, x: Value, b: Step)
    requires SetChild(v, a, x).Some?
    requires Apart(a, b)
    ensures Child(SetChild(v, a, x).value, b) == Child(v, b)
  {
    match (v, a)
    case (Dict(fs), Key(k)) =>
    case (List(xs), At(i)) =>
      if b.At? {
        var j := Index(|xs|, i).value;
        var j' := Index(|xs|, b.i);
        assert j'.Some? ==> j'.value != j;
      }
  }

  /** After a successful assignment, the path reads back the assigned value. */
  lemma {:induction false} PutGet(v: Value, p: seq<Step>, x: Value)
    requires Put(v, p, x).Some?
    ensures Get(Put(v, p, x).value, p) == Some(x)
    decreases |p|
  {
    if |p| == 1 {
      assert p[1..] == [];
    } else if |p| > 1 {
      var c := Child(v, p[0]).value;
      PutGet(c, p[1..], x);
    }
  }

  /** An assignment leaves every path that diverges from it unchanged. */
  lemma {:induction false} PutOther(v: Value, p: seq<Step>, x: Value, q: seq<Step>)
    requires Put(v, p, x).Some?
    requires Diverge(p, q)
    ensures Get(Put(v, p, x).value, q) == Get(v, q)
    decreases |p|
  {
    var w := Put(v, p, x).value;
    if Apart(p[0], q[0]) {
      if |p| == 1 {
        SetChildOther(v, p[0], x, q[0]);
      } else {
        var c := Child(v, p[0]).value;
        SetChildOther(v, p[0], Put(c, p[1..], x).value, q[0]);
      }
    } else {
      assert p[0] == q[0] && Diverge(p[1..], q[1..]);
      assert |p| > 1;
      var c := Child(v, p[0]).value;
      var c' := Put(c, p[1..], x).value;
      assert Child(w, q[0]) == Some(c');
      PutOther(c, p[1..], x, q[1..]);
    }
  }

  /** Assigning the value a path already holds is the identity. */
  lemma {:induction false} PutSame(v: Value, p: seq<Step>, x: Value)
    requires Get(v, p) == Some(x)
    ensures Put(v, p, x) == Some(v)
    decreases |p|
  {
    if |p| > 0 {
      var c := Child(v, p[0]).value;
      if |p| == 1 {
        assert c == x;
      } else {
        PutSame(c, p[1..], x);
      }
      match (v, p[0])
      case (Dict(fs), Key(k)) => StoreSame(fs, k, c);
      case (List(xs), At(i)) =>
        var j := Index(|xs|, i).value;
        assert xs[j := c] == xs;
    }
  }

  /** Assigning below a prefix `p` reads, at `p`, as the assignment of the
      rest of the path into the child found there. */
  lemma {:induction false} PutBelow(v: Value, p: seq<Step>, q: seq<Step>, x: Value)
    requires |q| > 0
    requires Put(v, p + q, x).Some?
    ensures Get(v, p).Some?
    ensures Put(Get(v, p).value, q, x).Some?
    ensures Get(Put(v, p + q, x).value, p) == Put(Get(v, p).value, q, x)
    decreases |p|
  {
    if |p| > 0 {
      var c := Child(v, p[0]).value;
      assert (p + q)[1..] == p[1..] + q;
      assert (p + q)[0] == p[0];
      PutBelow(c, p[1..], q, x);
    } else {
      assert p + q == q;
    }
  }

  /** Assigning one list item below `p`: the list at `p` is the old one
      with that item replaced. */
  lemma PutListItem(v: Value, p: seq<Step>, i: int, x: Value)
    requires Put(v, p + [At(i)], x).Some?
    ensures Get(v, p).Some? && Get(v, p).value.List?
    ensures Index(|Get(v, p).value.items|, i).Some?
    ensures Get(Put(v, p + [At(i)], x).value, p) ==
      Some(List(Get(v, p).value.items[Index(|Get(v, p).value.items|, i).value := x]))
  {
    PutBelow(v, p, [At(i)], x);
    assert Put(Get(v, p).value, [At(i)], x) == SetChild(Get(v, p).value, At(i), x);
  }

  /** Reading one step further than `p` reads that step of whatever `p`
      reads, and nothing when `p` reads nothing. */
  lemma {:induction false} GetAppend(v: Value, p: seq<Step>, st: Step)
    ensures Get(v, p + [st]) == if Get(v, p).Some? then Child(Get(v, p).value, st) else None
    decreases |p|
  {
    if |p| == 0 {
      assert p + [st] == [st] && [st][1..] == [];
    } else {
      assert (p + [st])[0] == p[0] && (p + [st])[1..] == p[1..] + [st];
      match Child(v, p[0])
      case None =>
      case Some(c) => GetAppend(c, p[1..], st);
    }
  }

  /** `str(v)` for a YAML scalar; containers are not rendered. */
  function Scalar(v: Value): Option<string> {
    match v
    case Str(s) => Some(s)
    case Int(n) => Some(Text.IntToString(n))
    case Bool(b) => Some(if b then "True" else "False")
    case Null => Some("None")
    case _ => None
  }

  /** `f'{key}={value}'` for one mapping entry. */
  function Pair(f: Field): Option<string> {
    match Scalar(f.val)
    case None => None
    case Some(t) => Some(f.key + "=" + t)
  }

  /** `','.join(f'{k}={v}' for k, v in d.items())`, in insertion order. */
  function Join(fields: seq<Field>): (r: Option<string>)
    ensures r.Some? <==> forall i :: 0 <= i < |fields| ==> Pair(fields[i]).Some?
    ensures |fields| == 0 ==> r == Some("")
  {
    if |fields| == 0 then Some("")
    else match Pair(fields[0])
      case None => None
      case Some(head) =>
        if |fields| == 1 then Some(head)
        else match Join(fields[1..])
          case None => None
          case Some(tail) => Some(head + "," + tail)
  }

  /** Joining a concatenation joins the parts with one comma between them. */
  lemma {:induction false} JoinAppend(a: seq<Field>, b: seq<Field>)
    requires |a| > 0 && |b| > 0
    requires Join(a).Some? && Join(b).Some?
    ensures Join(a + b) == Some(Join(a).value + "," + Join(b).value)
    decreases |a|
  {
    assert (a + b)[0] == a[0];
    assert (a + b)[1..] == a[1..] + b;
    if |a| > 1 {
      JoinAppend(a[1..], b);
      var head, mid, tail := Pair(a[0]).value, Join(a[1..]).value, Join(b).value;
      assert Join(a) == Some(head + "," + mid);
      assert Join(a + b) == Some(head + "," + (mid + "," + tail));
      assert head + "," + (mid + "," + tail) == (head + "," + mid) + "," + tail;
    } else {
      assert (a + b)[1..] == b;
      assert Join(a) == Pair(a[0]);
      assert Join(a + b) == Some(Pair(a[0]).value + "," + Join(b).value);
    }
  }

  /** A single entry joins to its own `key=value` text. */
  lemma JoinSingle(f: Field)
    requires Pair(f).Some?
    ensures Join([f]) == Some(f.key + "=" + Scalar(f.val).value)
  {
  }
}
