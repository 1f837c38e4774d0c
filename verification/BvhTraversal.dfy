/** The stackless walks of `LBvhView` over the finished arrays. */
module BvhTraversal {
  import opened Boxes
  import opened BvhTrees
  import opened BvhPreOrder

  /** What the walks rely on: levels and escape indices of the pre-order of `t`, and boxes that
      contain the boxes of both children. */
  ghost predicate Walkable(t: Tree, levels: seq<int>, aux: seq<int>, bvs: seq<Box>)
  {
    var nodes := PreOrder(t);
    && Consecutive(t)
    && |levels| == |aux| == |bvs| == |nodes|
    && (forall p :: 0 <= p < |nodes| ==> levels[p] == Level(nodes[p]))
    && (forall p :: 0 <= p < |nodes| && nodes[p].Trunk? ==>
          aux[p] == if p + Size(nodes[p]) == |nodes| then -1 else p + Size(nodes[p]))
    && (forall p :: 0 <= p < |nodes| && nodes[p].Trunk? ==> Nested(t, bvs, p))
  }

  ghost predicate Nested(t: Tree, bvs: seq<Box>, p: nat)
    requires |bvs| == Size(t) && p < Size(t) && PreOrder(t)[p].Trunk?
  {
    var r := p + 1 + Size(PreOrder(t)[p].left);
    r < |bvs| && Inside(bvs[p + 1], bvs[p]) && Inside(bvs[r], bvs[p])
  }

  /** The calls that a scan over the places `a..b` makes: one for each leaf whose own box
      overlaps the query, in order. */
  ghost function Matches(t: Tree, aux: seq<int>, bvs: seq<Box>, q: Box, a: nat, b: nat): seq<int>
    requires |aux| == |bvs| == Size(t) && b <= Size(t)
    decreases b
  {
    if a >= b then []
    else
      Matches(t, aux, bvs, q, a, b - 1)
      + if PreOrder(t)[b - 1].Leaf? && Overlaps(bvs[b - 1], q) then [aux[b - 1]] else []
  }

  lemma NoMatches(t: Tree, aux: seq<int>, bvs: seq<Box>, q: Box, a: nat)
    requires |aux| == |bvs| == Size(t) && a <= Size(t)
    ensures Matches(t, aux, bvs, q, a, a) == []
  {
  }

  lemma MatchesStep(t: Tree, aux: seq<int>, bvs: seq<Box>, q: Box, a: nat, p: nat)
    requires |aux| == |bvs| == Size(t) && a <= p < Size(t)
    ensures Matches(t, aux, bvs, q, a, a) == []
    ensures Matches(t, aux, bvs, q, a, p + 1) == Matches(t, aux, bvs, q, a, p)
            + if PreOrder(t)[p].Leaf? && Overlaps(bvs[p], q) then [aux[p]] else []
  {
  }

  lemma {:induction false} MatchesNone(t: Tree, aux: seq<int>, bvs: seq<Box>, q: Box, a: nat, b: nat, c: nat)
    requires |aux| == |bvs| == Size(t) && a <= b <= c <= Size(t)
    requires forall p :: b <= p < c && PreOrder(t)[p].Leaf? ==> !Overlaps(bvs[p], q)
    ensures Matches(t, aux, bvs, q, a, c) == Matches(t, aux, bvs, q, a, b)
    decreases c
  {
    if b < c {
      MatchesNone(t, aux, bvs, q, a, b, c - 1);
    }
  }

  /** Boxes of a whole subtree lie inside the box of its top. */
  lemma {:induction false} BlockInside(t: Tree, levels: seq<int>, aux: seq<int>, bvs: seq<Box>, p: nat, r: nat)
    requires Walkable(t, levels, aux, bvs) && p < Size(t) && p <= r < p + Size(PreOrder(t)[p])
    ensures r < Size(t) && (p < r ==> Inside(bvs[r], bvs[p]))
    decreases r - p
  {
    hide PreOrder;
    Block(t, p);
    if p < r {
      BlockChildren(t, p);
      var v := PreOrder(t)[p];
      assert Nested(t, bvs, p);
      if r < p + 1 + Size(v.left) {
        BlockInside(t, levels, aux, bvs, p + 1, r);
      } else {
        BlockInside(t, levels, aux, bvs, p + 1 + Size(v.left), r);
      }
    }
  }

  /** A node that misses the query may be skipped with everything below it. */
  lemma SkipBlock(t: Tree, levels: seq<int>, aux: seq<int>, bvs: seq<Box>, q: Box, a: nat, p: nat)
    requires Walkable(t, levels, aux, bvs) && a <= p < Size(t) && !Overlaps(bvs[p], q)
    ensures p + Size(PreOrder(t)[p]) <= Size(t)
    ensures Matches(t, aux, bvs, q, a, p + Size(PreOrder(t)[p])) == Matches(t, aux, bvs, q, a, p)
  {
    hide PreOrder, Overlaps, Inside;
    Block(t, p);
    var e := p + Size(PreOrder(t)[p]);
    forall r | p <= r < e
      ensures !Overlaps(bvs[r], q)
    {
      BlockInside(t, levels, aux, bvs, p, r);
      if p < r && Overlaps(bvs[r], q) {
        InsideOverlaps(bvs[r], bvs[p], q);
      }
    }
    MatchesNone(t, aux, bvs, q, a, p, e);
  }

  lemma Sizes(t: Tree, levels: seq<int>, aux: seq<int>, bvs: seq<Box>)
    requires Walkable(t, levels, aux, bvs)
    ensures |levels| == |aux| == |bvs| == Size(t) && Consecutive(t)
  {
  }

  lemma StepDown(t: Tree, levels: seq<int>, aux: seq<int>, bvs: seq<Box>, p: nat)
    requires Walkable(t, levels, aux, bvs) && p < Size(t)
    ensures levels[p] >= 0 && (levels[p] == 0 <==> PreOrder(t)[p].Leaf?)
    ensures levels[p] > 0 ==> p + 1 < Size(t) && levels[p + 1] == levels[p] - 1
  {
    hide PreOrder;
    var v := PreOrder(t)[p];
    if v.Trunk? {
      BlockChildren(t, p);
    }
  }

  lemma {:induction false} MatchesPrefix(t: Tree, aux: seq<int>, bvs: seq<Box>, q: Box, a: nat, b: nat, c: nat)
    requires |aux| == |bvs| == Size(t) && b <= c <= Size(t)
    ensures Matches(t, aux, bvs, q, a, b) <= Matches(t, aux, bvs, q, a, c)
    decreases c
  {
    if b < c {
      MatchesPrefix(t, aux, bvs, q, a, b, c - 1);
    }
  }

  /** The calls of a scan that ends early, at the first call that asks for it. */
  function UpTo(s: seq<int>, stop: int -> bool): seq<int>
  {
    if s == [] then []
    else if stop(s[0]) then [s[0]]
    else [s[0]] + UpTo(s[1..], stop)
  }

  lemma {:induction false} UpToStops(s: seq<int>, pre: seq<int>, x: int, stop: int -> bool)
    requires pre + [x] <= s && stop(x) && forall k :: 0 <= k < |pre| ==> !stop(pre[k])
    ensures UpTo(s, stop) == pre + [x]
  {
    if pre != [] {
      assert pre[0] == s[0] && pre[1..] + [x] <= s[1..];
      UpToStops(s[1..], pre[1..], x, stop);
    }
  }

  lemma {:induction false} UpToAll(s: seq<int>, stop: int -> bool)
    requires forall k :: 0 <= k < |s| ==> !stop(s[k])
    ensures UpTo(s, stop) == s
  {
    if s != [] {
      assert s == [s[0]] + s[1..];
      UpToAll(s[1..], stop);
    }
  }

  /** The place a cursor stands at; the escape index -1 stands for the end. */
  function Pos(node: int, numNodes: nat): int
  {
    if node == -1 then numNodes else node
  }

  /** `ed` is the end of the subtree at `start`, or the end of all nodes. */
  ghost predicate EndOf(t: Tree, levels: seq<int>, aux: seq<int>, start: nat, ed: int)
    requires |levels| == |aux| == Size(t)
  {
    || ed == -1
    || (start < Size(t) && ed == if levels[start] != 0 then aux[start] else start + 1)
  }

  lemma {:induction false} BlocksNest(t: Tree, p: nat, r: nat)
    requires p < Size(t) && p <= r < p + Size(PreOrder(t)[p])
    ensures r < Size(t) && r + Size(PreOrder(t)[r]) <= p + Size(PreOrder(t)[p]) <= Size(t)
    decreases r - p
  {
    hide PreOrder;
    Block(t, p);
    if p < r {
      BlockChildren(t, p);
      var v := PreOrder(t)[p];
      if r < p + 1 + Size(v.left) {
        BlocksNest(t, p + 1, r);
      } else {
        BlocksNest(t, p + 1 + Size(v.left), r);
      }
    }
  }

  /** From a node before the end, the escape index never jumps over the end. */
  lemma Escape(t: Tree, levels: seq<int>, aux: seq<int>, bvs: seq<Box>, start: nat, ed: int, p: nat)
    requires Walkable(t, levels, aux, bvs) && EndOf(t, levels, aux, start, ed)
    requires start <= p < Pos(ed, |levels|) && p < Size(t)
    ensures p + Size(PreOrder(t)[p]) <= Pos(ed, |levels|) <= |levels|
    ensures levels[p] > 0 ==> Pos(aux[p], |levels|) == p + Size(PreOrder(t)[p]) && p < Pos(aux[p], |levels|)
    ensures levels[p] > 0 && aux[p] == -1 ==> ed == -1
    ensures levels[p] == 0 ==> Size(PreOrder(t)[p]) == 1
  {
    hide PreOrder;
    StepDown(t, levels, aux, bvs, p);
    Block(t, p);
    if ed != -1 {
      StepDown(t, levels, aux, bvs, start);
      BlocksNest(t, start, p);
    }
  }

  /** The inner loop of every walk: down the left chain while boxes overlap. Level and node
      stay in sync, and no leaf is passed. */
  method Descend(levels: seq<int>, aux: seq<int>, bvs: seq<Box>, q: Box, from: nat, ghost start: nat, ghost ed: int,
      ghost t: Tree)
    returns (node: nat, level: int)
    requires Walkable(t, levels, aux, bvs) && EndOf(t, levels, aux, start, ed)
    requires start <= from < Pos(ed, |levels|) <= |levels|
    ensures from <= node < Pos(ed, |levels|) && level == levels[node] >= 0
    ensures level == 0 <==> PreOrder(t)[node].Leaf?
    ensures level != 0 ==> !Overlaps(bvs[node], q)
    ensures Lo(PreOrder(t)[node]) == Lo(PreOrder(t)[from])
    ensures Matches(t, aux, bvs, q, start, node) == Matches(t, aux, bvs, q, start, from)
    ensures forall x :: from <= x < node ==> PreOrder(t)[x].Trunk? && Overlaps(bvs[x], q)
  {
    hide PreOrder, Overlaps, Inside, Walkable, Matches;
    Sizes(t, levels, aux, bvs);
    StepDown(t, levels, aux, bvs, from);
    node, level := from, levels[from];
    while level != 0 && Overlaps(bvs[node], q)
      invariant from <= node < Pos(ed, |levels|) && level == levels[node] >= 0
      invariant Lo(PreOrder(t)[node]) == Lo(PreOrder(t)[from])
      invariant Matches(t, aux, bvs, q, start, node) == Matches(t, aux, bvs, q, start, from)
      invariant forall x :: from <= x < node ==> PreOrder(t)[x].Trunk? && Overlaps(bvs[x], q)
      decreases level
    {
      Escape(t, levels, aux, bvs, start, ed, node);
      StepDown(t, levels, aux, bvs, node);
      BlockChildren(t, node);
      MatchesStep(t, aux, bvs, q, start, node);
      level := level - 1;
      node := node + 1;
    }
    StepDown(t, levels, aux, bvs, node);
  }

  /** The walk shared by the neighbour queries: from place `start` to the end `ed`. */
  method Walk(levels: seq<int>, aux: seq<int>, bvs: seq<Box>, q: Box, start: nat, ed: int, stop: int -> bool,
      ghost t: Tree)
    returns (calls: seq<int>)
    requires Walkable(t, levels, aux, bvs) && EndOf(t, levels, aux, start, ed)
    requires start <= Pos(ed, |levels|) <= |levels|
    ensures calls == UpTo(Matches(t, aux, bvs, q, start, Pos(ed, |levels|)), stop)
  {
    hide PreOrder, Overlaps, Inside, UpTo, Walkable, Matches, Size, EndOf;
    Sizes(t, levels, aux, bvs);
    var numNodes := |levels|;
    var node: int := start;
    calls := [];
    NoMatches(t, aux, bvs, q, start);
    while node != ed && node != numNodes
      invariant start <= Pos(node, numNodes) <= Pos(ed, numNodes)
      invariant node == -1 ==> ed == -1
      invariant calls == Matches(t, aux, bvs, q, start, Pos(node, numNodes))
      invariant forall k :: 0 <= k < |calls| ==> !stop(calls[k])
      decreases numNodes - Pos(node, numNodes)
    {
      var level;
      node, level := Descend(levels, aux, bvs, q, node, start, ed, t);
      Escape(t, levels, aux, bvs, start, ed, node);
      if level == 0 {
        MatchesStep(t, aux, bvs, q, start, node);
        if Overlaps(bvs[node], q) {
          calls := calls + [aux[node]];
          if stop(aux[node]) {
            MatchesPrefix(t, aux, bvs, q, start, node + 1, Pos(ed, numNodes));
            UpToStops(Matches(t, aux, bvs, q, start, Pos(ed, numNodes)), calls[..|calls| - 1], aux[node], stop);
            return;
          }
        }
        node := node + 1;
      } else {
        SkipBlock(t, levels, aux, bvs, q, start, node);
        node := aux[node];
      }
    }
    UpToAll(calls, stop);
  }

  // From the scan over places to the scan over primitives.

  ghost predicate InRange(prims: seq<int>, n: nat)
  {
    forall k :: 0 <= k < |prims| ==> 0 <= prims[k] < n
  }

  lemma Cancel<T>(a: seq<T>, b: seq<T>, c: seq<T>)
    requires a + c == b + c
    ensures a == b
  {
    assert |a + c| == |b + c|;
    assert a == (a + c)[..|a|] && b == (b + c)[..|b|];
  }

  /** The brute-force answer over the leaves `i..j`: the primitives whose own box overlaps. */
  function BruteForce(prims: seq<int>, primBvs: seq<Box>, q: Box, i: nat, j: nat): seq<int>
    requires j <= |prims| && InRange(prims, |primBvs|)
    decreases j - i
  {
    if i >= j then []
    else (if Overlaps(primBvs[prims[i]], q) then [prims[i]] else []) + BruteForce(prims, primBvs, q, i + 1, j)
  }

  lemma {:induction false} BruteForceSplit(prims: seq<int>, primBvs: seq<Box>, q: Box, i: nat, j: nat, k: nat)
    requires i <= j <= k <= |prims| && InRange(prims, |primBvs|)
    ensures BruteForce(prims, primBvs, q, i, k)
         == BruteForce(prims, primBvs, q, i, j) + BruteForce(prims, primBvs, q, j, k)
    decreases j - i
  {
    if i < j {
      BruteForceSplit(prims, primBvs, q, i + 1, j, k);
    }
  }

  lemma {:induction false} MatchesSplit(t: Tree, aux: seq<int>, bvs: seq<Box>, q: Box, a: nat, b: nat, c: nat)
    requires |aux| == |bvs| == Size(t) && a <= b <= c <= Size(t)
    ensures Matches(t, aux, bvs, q, a, c) == Matches(t, aux, bvs, q, a, b) + Matches(t, aux, bvs, q, b, c)
    decreases c
  {
    if b < c {
      MatchesSplit(t, aux, bvs, q, a, b, c - 1);
    }
  }

  lemma {:induction false} LastBlock(t: Tree, p: nat)
    requires p < Size(t) && p + Size(PreOrder(t)[p]) == Size(t)
    ensures Hi(PreOrder(t)[p]) == Hi(t)
  {
    hide PreOrder;
    PreOrderAt(t, p);
    if p > 0 {
      if p <= Size(t.left) {
        Block(t.left, p - 1);
        assert false;
      } else {
        LastBlock(t.right, p - 1 - Size(t.left));
      }
    }
  }

  /** The node after a subtree starts at the leaf after that subtree. */
  lemma {:induction false} NextBlock(t: Tree, p: nat)
    requires Consecutive(t) && p < Size(t) && p + Size(PreOrder(t)[p]) < Size(t)
    ensures Lo(PreOrder(t)[p + Size(PreOrder(t)[p])]) == Hi(PreOrder(t)[p]) + 1
  {
    hide PreOrder;
    PreOrderAt(t, p);
    var v := PreOrder(t)[p];
    var e := p + Size(v);
    PreOrderAt(t, e);
    if p > 0 {
      if p <= Size(t.left) {
        Block(t.left, p - 1);
        if e <= Size(t.left) {
          NextBlock(t.left, p - 1);
        } else {
          LastBlock(t.left, p - 1);
          PreOrderAt(t.right, 0);
        }
      } else {
        NextBlock(t.right, p - 1 - Size(t.left));
      }
    }
  }

  /** A finished tree over the primitives `prims`: walkable, with each leaf holding the box of
      its primitive and `leafInds` finding the leaves. */
  datatype View = View(levels: seq<int>, aux: seq<int>, leafInds: seq<int>, bvs: seq<Box>)

  ghost predicate Serves(view: View, t: Tree, prims: seq<int>, primBvs: seq<Box>)
  {
    && Walkable(t, view.levels, view.aux, view.bvs)
    && Lo(t) == 0 && |prims| == |view.leafInds| == Hi(t) + 1
    && (InRange(prims, |primBvs|))
    && forall p :: 0 <= p < Size(t) && PreOrder(t)[p].Leaf? ==> LeafServes(view, t, prims, primBvs, p)
  }

  ghost predicate LeafServes(view: View, t: Tree, prims: seq<int>, primBvs: seq<Box>, p: nat)
    requires p < Size(t) && PreOrder(t)[p].Leaf? && |view.aux| == |view.bvs| == Size(t)
  {
    var k := PreOrder(t)[p].at;
    && k < |prims| && k < |view.leafInds| && 0 <= prims[k] < |primBvs|
    && view.leafInds[k] == p && view.aux[p] == prims[k] && view.bvs[p] == primBvs[prims[k]]
  }

  /** Scanning the places from a node on is the brute-force scan from its first leaf on. */
  lemma {:induction false} ScanIsBruteForce(view: View, t: Tree, prims: seq<int>, primBvs: seq<Box>, q: Box, p: nat)
    requires Serves(view, t, prims, primBvs) && p < Size(t)
    ensures Lo(PreOrder(t)[p]) <= |prims|
    ensures Matches(t, view.aux, view.bvs, q, p, Size(t))
         == BruteForce(prims, primBvs, q, Lo(PreOrder(t)[p]), |prims|)
    decreases Size(t) - p
  {
    hide PreOrder, Overlaps, Inside;
    var n := Size(t);
    var v := PreOrder(t)[p];
    MatchesSplit(t, view.aux, view.bvs, q, p, p + 1, n);
    assert Matches(t, view.aux, view.bvs, q, p, p) == [];
    Block(t, p);
    if v.Trunk? {
      BlockChildren(t, p);
      ScanIsBruteForce(view, t, prims, primBvs, q, p + 1);
    } else {
      assert LeafServes(view, t, prims, primBvs, p);
      if p + 1 < n {
        NextBlock(t, p);
        ScanIsBruteForce(view, t, prims, primBvs, q, p + 1);
      } else {
        LastBlock(t, p);
      }
    }
  }

  /** Scanning one subtree is the brute-force scan of its leaves. */
  lemma SubtreeIsBruteForce(view: View, t: Tree, prims: seq<int>, primBvs: seq<Box>, q: Box, p: nat)
    requires Serves(view, t, prims, primBvs) && p < Size(t)
    ensures p + Size(PreOrder(t)[p]) <= Size(t) && Hi(PreOrder(t)[p]) < |prims|
    ensures Matches(t, view.aux, view.bvs, q, p, p + Size(PreOrder(t)[p]))
         == BruteForce(prims, primBvs, q, Lo(PreOrder(t)[p]), Hi(PreOrder(t)[p]) + 1)
  {
    hide PreOrder, Overlaps, Inside, Matches, BruteForce;
    var n := Size(t);
    var v := PreOrder(t)[p];
    var e := p + Size(v);
    Block(t, p);
    NodeInside(t, p);
    ScanIsBruteForce(view, t, prims, primBvs, q, p);
    if e < n {
      NextBlock(t, p);
      ScanIsBruteForce(view, t, prims, primBvs, q, e);
      MatchesSplit(t, view.aux, view.bvs, q, p, e, n);
      BruteForceSplit(prims, primBvs, q, Lo(v), Hi(v) + 1, |prims|);
      Cancel(Matches(t, view.aux, view.bvs, q, p, e), BruteForce(prims, primBvs, q, Lo(v), Hi(v) + 1),
             BruteForce(prims, primBvs, q, Hi(v) + 1, |prims|));
    } else {
      LastBlock(t, p);
    }
  }

  lemma {:induction false} NodeInside(t: Tree, p: nat)
    requires Consecutive(t) && p < Size(t)
    ensures var v := PreOrder(t)[p]; Consecutive(v) && Lo(t) <= Lo(v) <= Hi(v) <= Hi(t)
  {
    hide PreOrder;
    PreOrderAt(t, p);
    Extent(t);
    if p > 0 {
      Extent(t.left);
      Extent(t.right);
      if p <= Size(t.left) {
        NodeInside(t.left, p - 1);
      } else {
        NodeInside(t.right, p - 1 - Size(t.left));
      }
    }
  }

  // The queries.

  /** `iter_neighbors(bv, f)`: the calls of `f` are those of the brute-force scan over all
      primitives in leaf order, cut after the first call that asks to stop. */
  method IterNeighbors(view: View, q: Box, stop: int -> bool, ghost t: Tree, ghost prims: seq<int>,
      ghost primBvs: seq<Box>)
    returns (calls: seq<int>)
    requires Serves(view, t, prims, primBvs)
    ensures calls == UpTo(BruteForce(prims, primBvs, q, 0, |prims|), stop)
  {
    hide PreOrder, Overlaps, Inside, Matches, BruteForce, UpTo;
    calls := Walk(view.levels, view.aux, view.bvs, q, 0, -1, stop, t);
    ScanIsBruteForce(view, t, prims, primBvs, q, 0);
    PreOrderAt(t, 0);
  }

  /** `self_iter_neighbors(leafId, f)`: the same from leaf `leafId` on, with that leaf's box. */
  method SelfIterNeighbors(view: View, leafId: nat, stop: int -> bool, ghost t: Tree, ghost prims: seq<int>,
      ghost primBvs: seq<Box>)
    returns (calls: seq<int>)
    requires Serves(view, t, prims, primBvs) && leafId < |view.leafInds|
    ensures calls == UpTo(BruteForce(prims, primBvs, primBvs[prims[leafId]], leafId, |prims|), stop)
  {
    hide PreOrder, Overlaps, Inside, Matches, BruteForce, UpTo;
    ghost var p := PlaceOfLeaf(t, leafId);
    assert LeafServes(view, t, prims, primBvs, p);
    var node := view.leafInds[leafId];
    var bv := view.bvs[node];
    calls := Walk(view.levels, view.aux, view.bvs, bv, node, -1, stop, t);
    ScanIsBruteForce(view, t, prims, primBvs, bv, p);
  }

  /** `iter_neighbors(bv, node, f)`: exactly the overlapping leaves of the treelet at `node`. */
  method IterTreelet(view: View, q: Box, node: nat, ghost t: Tree, ghost prims: seq<int>, ghost primBvs: seq<Box>)
    returns (calls: seq<int>)
    requires Serves(view, t, prims, primBvs) && node < Size(t)
    ensures Hi(PreOrder(t)[node]) < |prims|
    ensures calls == BruteForce(prims, primBvs, q, Lo(PreOrder(t)[node]), Hi(PreOrder(t)[node]) + 1)
  {
    hide PreOrder, Overlaps, Inside, Matches, BruteForce, UpTo;
    var ed := if view.levels[node] != 0 then view.aux[node] else node + 1;
    StepDown(t, view.levels, view.aux, view.bvs, node);
    Block(t, node);
    calls := Walk(view.levels, view.aux, view.bvs, q, node, ed, _ => false, t);
    UpToAll(Matches(t, view.aux, view.bvs, q, node, Pos(ed, |view.levels|)), _ => false);
    SubtreeIsBruteForce(view, t, prims, primBvs, q, node);
  }

  /** With every primitive on one leaf, a query reports each overlapping primitive once. */
  lemma {:induction false} ReportedOnce(prims: seq<int>, primBvs: seq<Box>, q: Box, i: nat, x: int)
    requires i <= |prims| && InRange(prims, |primBvs|)
    requires forall a, b :: 0 <= a < b < |prims| ==> prims[a] != prims[b]
    ensures multiset(BruteForce(prims, primBvs, q, i, |prims|))[x]
         == if x in prims[i..] && Overlaps(primBvs[x], q) then 1 else 0
    decreases |prims| - i
  {
    if i < |prims| {
      ReportedOnce(prims, primBvs, q, i + 1, x);
      assert prims[i..] == [prims[i]] + prims[i + 1..];
    }
  }
}
