/** The flattener `AppFiguresBase.traverse_nested_dicts`: leaves of a response nested
    two, three or four mappings deep. `None` stands for the error the source raises when
    a node it calls `.values()` on is not a mapping. */
module Flatten {
  import opened Common

  /** `node.values()`, or `None` when `node` is not a mapping. */
  function Children(node: Value): Option<seq<Value>> {
    if node.Obj? then Some(Values(node.fields)) else None
  }

  /** The sequence of `yield a` for the truthy `a` only. */
  function KeepTruthy(vs: seq<Value>): (r: seq<Value>)
    ensures forall v :: v in r <==> v in vs && Truthy(v)
    ensures |r| <= |vs|
  {
    if vs == [] then []
    else if Truthy(vs[0]) then [vs[0]] + KeepTruthy(vs[1..])
    else KeepTruthy(vs[1..])
  }

  /** Joins two partial results: the concatenation when both succeeded. */
  function Cat(a: Option<seq<Value>>, b: Option<seq<Value>>): Option<seq<Value>> {
    if a.Some? && b.Some? then Some(a.value + b.value) else None
  }

  // ---- The generator as written: one function per `for` loop. ----

  /** The innermost loop: `for z in y.values()`. */
  function OverZ(zs: seq<Value>, levels: int): Option<seq<Value>> {
    if zs == [] then Some([])
    else
      var here := if levels == 4 then
                    (match Children(zs[0])
                     case None => None
                     case Some(leaves) => Some(KeepTruthy(leaves)))
                  else Some([zs[0]]);
      Cat(here, OverZ(zs[1..], levels))
  }

  /** The middle loop: `for y in x.values()`. */
  function OverY(ys: seq<Value>, levels: int): Option<seq<Value>> {
    if ys == [] then Some([])
    else
      var here := if levels >= 3 then
                    (match Children(ys[0])
                     case None => None
                     case Some(zs) => OverZ(zs, levels))
                  else Some([ys[0]]);
      Cat(here, OverY(ys[1..], levels))
  }

  /** The outer loop: `for x in dict_.values()`. */
  function OverX(xs: seq<Value>, levels: int): Option<seq<Value>> {
    if xs == [] then Some([])
    else
      var here := match Children(xs[0])
                  case None => None
                  case Some(ys) => OverY(ys, levels);
      Cat(here, OverX(xs[1..], levels))
  }

  /** `traverse_nested_dicts(dict_, levels)`, all yielded values in order. */
  function Traverse(response: Value, levels: int): Option<seq<Value>> {
    match Children(response)
    case None => None
    case Some(xs) => OverX(xs, levels)
  }

  // ---- A reference definition: descend a number of levels, then filter. ----

  /** How many `.values()` steps the generator takes for a declared depth. */
  function Depth(levels: int): (n: nat)
    ensures 2 <= n <= 4
    ensures n == 4 <==> levels == 4
    ensures n == 2 <==> levels < 3
  {
    if levels >= 3 then (if levels == 4 then 4 else 3) else 2
  }

  /** All children of all nodes, in order. */
  function Level(nodes: seq<Value>): Option<seq<Value>> {
    if nodes == [] then Some([]) else Cat(Children(nodes[0]), Level(nodes[1..]))
  }

  /** The nodes `n` levels below `nodes`, in nested iteration order. */
  function Descend(nodes: seq<Value>, n: nat): Option<seq<Value>>
    decreases n
  {
    if n == 0 then Some(nodes)
    else
      match Level(nodes)
      case None => None
      case Some(below) => Descend(below, n - 1)
  }

  /** Falsy leaves are dropped only at depth four. */
  function Post(r: Option<seq<Value>>, levels: int): Option<seq<Value>> {
    match r
    case None => None
    case Some(ls) => Some(if levels == 4 then KeepTruthy(ls) else ls)
  }

  /** The leaves `Depth(levels)` levels below the response, filtered at depth four. */
  function Leaves(response: Value, levels: int): Option<seq<Value>> {
    Post(Descend([response], Depth(levels)), levels)
  }

  // ---- Algebra of the reference definition. ----

  lemma {:induction false} KeepTruthyAppend(a: seq<Value>, b: seq<Value>)
    ensures KeepTruthy(a + b) == KeepTruthy(a) + KeepTruthy(b)
    decreases |a|
  {
    if a != [] {
      assert (a + b)[1..] == a[1..] + b;
      KeepTruthyAppend(a[1..], b);
    } else {
      assert a + b == b;
    }
  }

  lemma CatAssoc(a: Option<seq<Value>>, b: Option<seq<Value>>, c: Option<seq<Value>>)
    ensures Cat(Cat(a, b), c) == Cat(a, Cat(b, c))
  {
    if a.Some? && b.Some? && c.Some? {
      assert (a.value + b.value) + c.value == a.value + (b.value + c.value);
    }
  }

  lemma {:induction false} LevelAppend(a: seq<Value>, b: seq<Value>)
    ensures Level(a + b) == Cat(Level(a), Level(b))
    decreases |a|
  {
    if a == [] {
      assert a + b == b;
      if Level(b).Some? {
        assert [] + Level(b).value == Level(b).value;
      }
    } else {
      assert (a + b)[0] == a[0];
      assert (a + b)[1..] == a[1..] + b;
      LevelAppend(a[1..], b);
      CatAssoc(Children(a[0]), Level(a[1..]), Level(b));
    }
  }

  lemma {:induction false} DescendAppend(a: seq<Value>, b: seq<Value>, n: nat)
    ensures Descend(a + b, n) == Cat(Descend(a, n), Descend(b, n))
    decreases n
  {
    if n > 0 {
      LevelAppend(a, b);
      if Level(a).Some? && Level(b).Some? {
        DescendAppend(Level(a).value, Level(b).value, n - 1);
      }
    }
  }

  lemma PostCat(a: Option<seq<Value>>, b: Option<seq<Value>>, levels: int)
    ensures Post(Cat(a, b), levels) == Cat(Post(a, levels), Post(b, levels))
  {
    if a.Some? && b.Some? && levels == 4 {
      KeepTruthyAppend(a.value, b.value);
    }
  }

  /** One node descended `n + 1` levels is its children descended `n` levels. */
  lemma DescendOne(node: Value, n: nat)
    ensures Descend([node], n + 1) ==
            match Children(node) case None => None case Some(c) => Descend(c, n)
  {
    assert [node][1..] == [];
    assert Level([node]) == Cat(Children(node), Level([]));
    if Children(node).Some? {
      assert Children(node).value + [] == Children(node).value;
      assert Level([node]) == Children(node);
    }
  }

  // ---- The generator equals the reference definition. ----

  lemma {:induction false} OverZIsLeaves(zs: seq<Value>, levels: int)
    requires levels >= 3
    ensures OverZ(zs, levels) == Post(Descend(zs, Depth(levels) - 3), levels)
    decreases |zs|
  {
    if zs == [] {
      if levels == 4 {
        assert Level([]) == Some([]);
      }
    } else {
      OverZIsLeaves(zs[1..], levels);
      assert zs == [zs[0]] + zs[1..];
      DescendAppend([zs[0]], zs[1..], Depth(levels) - 3);
      PostCat(Descend([zs[0]], Depth(levels) - 3), Descend(zs[1..], Depth(levels) - 3), levels);
      if levels == 4 {
        DescendOne(zs[0], 0);
      }
    }
  }

  lemma {:induction false} OverYIsLeaves(ys: seq<Value>, levels: int)
    ensures OverY(ys, levels) == Post(Descend(ys, Depth(levels) - 2), levels)
    decreases |ys|
  {
    if ys != [] {
      OverYIsLeaves(ys[1..], levels);
      assert ys == [ys[0]] + ys[1..];
      DescendAppend([ys[0]], ys[1..], Depth(levels) - 2);
      PostCat(Descend([ys[0]], Depth(levels) - 2), Descend(ys[1..], Depth(levels) - 2), levels);
      if levels >= 3 {
        DescendOne(ys[0], Depth(levels) - 3);
        if Children(ys[0]).Some? {
          OverZIsLeaves(Children(ys[0]).value, levels);
        }
      }
    }
  }

  lemma {:induction false} OverXIsLeaves(xs: seq<Value>, levels: int)
    ensures OverX(xs, levels) == Post(Descend(xs, Depth(levels) - 1), levels)
    decreases |xs|
  {
    if xs != [] {
      OverXIsLeaves(xs[1..], levels);
      assert xs == [xs[0]] + xs[1..];
      DescendAppend([xs[0]], xs[1..], Depth(levels) - 1);
      PostCat(Descend([xs[0]], Depth(levels) - 1), Descend(xs[1..], Depth(levels) - 1), levels);
      DescendOne(xs[0], Depth(levels) - 2);
      if Children(xs[0]).Some? {
        OverYIsLeaves(Children(xs[0]).value, levels);
      }
    }
  }

  /** The generator yields exactly the nodes `Depth(levels)` levels down, in nested
      iteration order, with falsy ones dropped only when `levels == 4`. */
  lemma TraverseIsLeaves(response: Value, levels: int)
    ensures Traverse(response, levels) == Leaves(response, levels)
  {
    DescendOne(response, Depth(levels) - 1);
    if Children(response).Some? {
      OverXIsLeaves(Children(response).value, levels);
    }
  }
  // ---- Sizes of regular responses. ----

  /** Every node `k` levels down has exactly `dims[k]` children, for each `k < |dims|`. */
  ghost predicate Shaped(nodes: seq<Value>, dims: seq<nat>)
    decreases |dims|
  {
    dims == [] ||
    forall i :: 0 <= i < |nodes| ==>
      nodes[i].Obj? && |nodes[i].fields| == dims[0] && Shaped(Values(nodes[i].fields), dims[1..])
  }

  function Product(dims: seq<nat>): nat {
    if dims == [] then 1 else dims[0] * Product(dims[1..])
  }

  lemma {:induction false} LevelOfShaped(nodes: seq<Value>, dims: seq<nat>)
    requires dims != [] && Shaped(nodes, dims)
    ensures Level(nodes).Some?
    ensures |Level(nodes).value| == |nodes| * dims[0]
    ensures Shaped(Level(nodes).value, dims[1..])
    decreases |nodes|
  {
    if nodes != [] {
      assert Shaped(nodes[1..], dims) by {
        forall i | 0 <= i < |nodes[1..]|
          ensures nodes[1..][i].Obj? && |nodes[1..][i].fields| == dims[0]
                  && Shaped(Values(nodes[1..][i].fields), dims[1..])
        {
          assert nodes[1..][i] == nodes[i + 1];
        }
      }
      LevelOfShaped(nodes[1..], dims);
      var here := Values(nodes[0].fields);
      var rest := Level(nodes[1..]).value;
      assert Level(nodes) == Some(here + rest);
      assert |here + rest| == dims[0] + (|nodes| - 1) * dims[0];
      ShapedAppend(here, rest, dims[1..]);
    }
  }

  lemma ShapedAppend(a: seq<Value>, b: seq<Value>, dims: seq<nat>)
    requires Shaped(a, dims) && Shaped(b, dims)
    ensures Shaped(a + b, dims)
  {
    if dims != [] {
      forall i | 0 <= i < |a + b|
        ensures (a + b)[i].Obj? && |(a + b)[i].fields| == dims[0]
                && Shaped(Values((a + b)[i].fields), dims[1..])
      {
        if i < |a| {
          assert (a + b)[i] == a[i];
        } else {
          assert (a + b)[i] == b[i - |a|];
        }
      }
    }
  }

  lemma MulAssoc(a: nat, b: nat, c: nat)
    ensures (a * b) * c == a * (b * c)
  {
  }

  lemma {:induction false} DescendShaped(nodes: seq<Value>, dims: seq<nat>)
    requires Shaped(nodes, dims)
    ensures Descend(nodes, |dims|).Some?
    ensures |Descend(nodes, |dims|).value| == |nodes| * Product(dims)
    decreases |dims|
  {
    if dims != [] {
      LevelOfShaped(nodes, dims);
      var below := Level(nodes).value;
      DescendShaped(below, dims[1..]);
      assert Descend(nodes, |dims|) == Descend(below, |dims[1..]|);
      MulAssoc(|nodes|, dims[0], Product(dims[1..]));
    }
  }

  /** Away from depth four nothing is dropped: a response whose mappings have `dims[k]`
      entries at each level `k` yields the product of the `dims` (N*M*K at depth three). */
  lemma TraverseShapedCount(response: Value, levels: int, dims: seq<nat>)
    requires levels != 4 && |dims| == Depth(levels)
    requires Shaped([response], dims)
    ensures Traverse(response, levels).Some?
    ensures |Traverse(response, levels).value| == Product(dims)
  {
    TraverseIsLeaves(response, levels);
    DescendShaped([response], dims);
  }

  /** At depth three, an N x M x K response yields N * M * K leaves. */
  lemma TraverseGridCount(response: Value, n: nat, m: nat, k: nat)
    requires Shaped([response], [n, m, k])
    ensures Traverse(response, 3).Some?
    ensures |Traverse(response, 3).value| == n * m * k
  {
    TraverseShapedCount(response, 3, [n, m, k]);
    assert [n, m, k][1..] == [m, k] && [m, k][1..] == [k] && [k][1..] == [];
    assert Product([]) == 1;
    assert Product([k]) == k * Product([]);
    assert Product([m, k]) == m * Product([k]);
    assert Product([n, m, k]) == n * Product([m, k]);
    assert n * (m * k) == n * m * k;
  }
}
