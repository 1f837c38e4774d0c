/** `buildRefit` from the sorted codes to the queries: the bottom-up pass of the leaf threads, then the
    layout passes, which also put the boxes in their places. */
module BvhBuildRefit {
  import opened Boxes
  import opened MortonCodes
  import opened BvhTrees
  import opened BvhSplits
  import opened BvhChains
  import opened BvhPreOrder
  import opened BvhBuild
  import opened BvhLayout
  import opened BvhTraversal
  import BvhBottomUp

  ghost predicate LeafBoxed(l: Layout, bvs: array<Box>, primBvs: seq<Box>, k: nat)
    requires l.Valid() && k < l.n
    reads bvs
  {
    var p := l.LeafPlace(k);
    0 <= p < bvs.Length && 0 <= l.pInds[k] < |primBvs| && bvs[p] == primBvs[l.pInds[k]]
  }

  ghost predicate TrunkBoxed(l: Layout, t: Tree, bvs: array<Box>, tBvs: seq<Box>, id: nat)
    requires l.Valid() && l.Describes(t) && id < l.n - 1
    reads bvs
  {
    var p := Place(t, l.lDepths, id);
    0 <= p < bvs.Length && id < |tBvs| && bvs[p] == tBvs[id]
  }

  /** The body of `_build_reorder_leaf_with_bv` over all leaves, in any order. */
  method LeavesWithBvs(l: Layout, order: seq<nat>, primBvs: seq<Box>, bvs: array<Box>, ghost t: Tree)
    requires l.Valid() && l.Describes(t) && l.Scanned() && Schedule(order, l.n)
    requires forall id: nat :: id < l.n - 1 ==> l.tDst[id] == Place(t, l.lDepths, id)
    requires forall k: nat :: k < l.n ==> l.ChainLevels(k)
    requires bvs.Length == 2 * l.n - 1 && InRange(l.pInds, |primBvs|)
    modifies l.auxIndices, l.parents, l.levels, l.leafInds, bvs
    ensures forall k: nat :: k < l.n ==> l.LeafPlaced(t, k) && l.ChainLevels(k) && LeafBoxed(l, bvs, primBvs, k)
  {
    hide Layout.LeafPlaced, Layout.ChainLevels, LeafBoxed, Place;
    for m := 0 to |order|
      invariant forall k: nat :: k < l.n ==> l.ChainLevels(k)
      invariant forall k :: k in order[..m] ==> l.LeafPlaced(t, k) && LeafBoxed(l, bvs, primBvs, k)
    {
      l.ReorderLeaf(order[m], t);
      LeafBox(l, order[m], primBvs, bvs, t);
    }
    assert order[..|order|] == order;
  }

  method LeafBox(l: Layout, idx: nat, primBvs: seq<Box>, bvs: array<Box>, ghost t: Tree)
    requires l.Valid() && l.Describes(t) && l.Scanned() && idx < l.n
    requires bvs.Length == 2 * l.n - 1 && InRange(l.pInds, |primBvs|)
    modifies bvs
    ensures LeafBoxed(l, bvs, primBvs, idx)
    ensures forall k: nat :: k < l.n && old(LeafBoxed(l, bvs, primBvs, k)) ==> LeafBoxed(l, bvs, primBvs, k)
  {
    hide ScanSum, Layout.Describes;
    l.LeafAt(t, idx);
    bvs[l.lOffsets[idx + 1] - 1] := primBvs[l.pInds[idx]];
    forall k: nat | k < l.n && old(LeafBoxed(l, bvs, primBvs, k))
      ensures LeafBoxed(l, bvs, primBvs, k)
    {
      l.LeafAt(t, k);
    }
  }

  /** The body of `_build_reorder_trunk_with_bv` over all trunk nodes, in any order. */
  method TrunksWithBvs(l: Layout, order: seq<nat>, junk: int, primBvs: seq<Box>, tBvs: seq<Box>, bvs: array<Box>,
      ghost t: Tree) returns (inBounds: bool)
    requires l.Valid() && l.Describes(t) && l.Scanned() && Schedule(order, l.n - 1)
    requires forall id: nat :: id < l.n - 1 ==> l.tDst[id] == Place(t, l.lDepths, id)
    requires forall k: nat :: k < l.n ==> l.lLcas[k] == Ref(Top(t, k), l.n - 1)
    requires bvs.Length == 2 * l.n - 1 && |tBvs| == l.n - 1
    requires forall k: nat :: k < l.n ==> l.LeafPlaced(t, k) && LeafBoxed(l, bvs, primBvs, k)
    modifies l.auxIndices, l.parents, bvs
    ensures inBounds <==> t.id == 0
    ensures forall k: nat :: k < l.n ==> l.LeafPlaced(t, k) && LeafBoxed(l, bvs, primBvs, k)
    ensures forall id: nat :: id < l.n - 1 ==>
              l.TrunkPlaced(t, id) && l.TrunkLinked(t, id) && TrunkBoxed(l, t, bvs, tBvs, id)
  {
    hide Layout.LeafPlaced, Layout.TrunkPlaced, Layout.TrunkLinked, LeafBoxed, TrunkBoxed, Place, Ref, Top;
    l.RootNumber(t);
    inBounds := true;
    for m := 0 to |order|
      invariant inBounds <==> t.id == 0 || t.id !in order[..m]
      invariant forall k: nat :: k < l.n ==> l.LeafPlaced(t, k) && LeafBoxed(l, bvs, primBvs, k)
      invariant forall id :: id in order[..m] ==>
                  l.TrunkPlaced(t, id) && l.TrunkLinked(t, id) && TrunkBoxed(l, t, bvs, tBvs, id)
    {
      var ok := l.ReorderTrunk(order[m], junk, t);
      TrunkBox(l, order[m], primBvs, tBvs, bvs, t);
      inBounds := inBounds && ok;
      assert order[..m + 1] == order[..m] + [order[m]];
    }
    assert order[..|order|] == order;
  }

  method TrunkBox(l: Layout, idx: nat, ghost primBvs: seq<Box>, tBvs: seq<Box>, bvs: array<Box>, ghost t: Tree)
    requires l.Valid() && l.Describes(t) && idx < l.n - 1 && bvs.Length == 2 * l.n - 1 && |tBvs| == l.n - 1
    requires forall id: nat :: id < l.n - 1 ==> l.tDst[id] == Place(t, l.lDepths, id)
    modifies bvs
    ensures TrunkBoxed(l, t, bvs, tBvs, idx)
    ensures forall id: nat :: id < l.n - 1 && old(TrunkBoxed(l, t, bvs, tBvs, id)) ==> TrunkBoxed(l, t, bvs, tBvs, id)
    ensures forall k: nat :: k < l.n && old(LeafBoxed(l, bvs, primBvs, k)) ==> LeafBoxed(l, bvs, primBvs, k)
  {
    hide ScanSum, Layout.Describes, Place;
    l.TrunkAt(t, idx);
    bvs[l.tDst[idx]] := tBvs[idx];
    forall id: nat | id < l.n - 1 && old(TrunkBoxed(l, t, bvs, tBvs, id))
      ensures TrunkBoxed(l, t, bvs, tBvs, id)
    {
      l.TrunkAt(t, id);
    }
    forall k: nat | k < l.n && old(LeafBoxed(l, bvs, primBvs, k))
      ensures LeafBoxed(l, bvs, primBvs, k)
    {
      l.LeafAt(t, k);
    }
  }

  /** The boxes of the leaves in the order of their codes. */
  function LeafBvs(prims: seq<int>, primBvs: seq<Box>): (r: seq<Box>)
    requires InRange(prims, |primBvs|)
  {
    seq(|prims|, k requires 0 <= k < |prims| => primBvs[prims[k]])
  }

  ghost predicate AllShaped(bvs: seq<Box>, dim: nat)
  {
    forall k :: 0 <= k < |bvs| ==> Shaped(bvs[k], dim)
  }

  /** Every place has the merged box of its node. */
  lemma BoxAtPlace(l: Layout, t: Tree, bvs: array<Box>, primBvs: seq<Box>, tBvs: seq<Box>, dim: nat, p: nat)
    requires l.Valid() && l.Describes(t) && p < 2 * l.n - 1 == bvs.Length && InRange(l.pInds, |primBvs|)
    requires AllShaped(primBvs, dim) && |tBvs| == l.n - 1
    requires forall k: nat :: k < l.n ==> LeafBoxed(l, bvs, primBvs, k)
    requires forall id: nat :: id < l.n - 1 ==> TrunkBoxed(l, t, bvs, tBvs, id)
    requires forall id: nat :: id < l.n - 1 ==>
               tBvs[id] == BvhBottomUp.BoxOf(Sub(t, id), LeafBvs(l.pInds, primBvs), dim)
    ensures p < Size(t) && bvs[p] == BvhBottomUp.BoxOf(PreOrder(t)[p], LeafBvs(l.pInds, primBvs), dim)
  {
    hide PreOrder, Place, ScanSum, Sub, Layout.Describes;
    l.AtPlace(t, p);
    var v := PreOrder(t)[p];
    if v.Leaf? {
      assert LeafBoxed(l, bvs, primBvs, v.at);
    } else {
      assert TrunkBoxed(l, t, bvs, tBvs, v.id);
    }
  }

  /** Merged boxes of children lie inside that of their parent. */
  lemma BoxesNest(t: Tree, bvs: seq<Box>, leafBvs: seq<Box>, dim: nat, p: nat)
    requires |bvs| == Size(t) && p < Size(t) && PreOrder(t)[p].Trunk? && AllShaped(leafBvs, dim)
    requires forall x: nat :: x < Size(t) ==> bvs[x] == BvhBottomUp.BoxOf(PreOrder(t)[x], leafBvs, dim)
    ensures Nested(t, bvs, p)
  {
    hide PreOrder;
    BlockChildren(t, p);
    var v := PreOrder(t)[p];
    var (a, b) := (BvhBottomUp.BoxOf(v.left, leafBvs, dim), BvhBottomUp.BoxOf(v.right, leafBvs, dim));
    BvhBottomUp.JoinInside(a, b, dim, BvhBottomUp.Join(a, b, dim));
  }

  lemma ArrangedServes(t: Tree, view: View, prims: seq<int>, primBvs: seq<Box>, dim: nat)
    requires Consecutive(t) && Lo(t) == 0 && InRange(prims, |primBvs|) && AllShaped(primBvs, dim)
    requires Arranged(t, prims, view.levels, view.aux, view.leafInds) && |view.bvs| == Size(t)
    requires forall x: nat :: x < Size(t) ==>
               view.bvs[x] == BvhBottomUp.BoxOf(PreOrder(t)[x], LeafBvs(prims, primBvs), dim)
    ensures Serves(view, t, prims, primBvs)
  {
    hide PreOrder, Nested, LeafServes;
    forall p: nat | p < Size(t) && PreOrder(t)[p].Trunk?
      ensures Nested(t, view.bvs, p)
    {
      BoxesNest(t, view.bvs, LeafBvs(prims, primBvs), dim, p);
    }
    forall p: nat | p < Size(t) && PreOrder(t)[p].Leaf?
      ensures LeafServes(view, t, prims, primBvs, p)
    {
      LeafAnswers(t, view, prims, primBvs, dim, p);
    }
  }

  lemma LeafAnswers(t: Tree, view: View, prims: seq<int>, primBvs: seq<Box>, dim: nat, p: nat)
    requires InRange(prims, |primBvs|) && AllShaped(primBvs, dim)
    requires Arranged(t, prims, view.levels, view.aux, view.leafInds) && |view.bvs| == Size(t)
    requires forall x: nat :: x < Size(t) ==>
               view.bvs[x] == BvhBottomUp.BoxOf(PreOrder(t)[x], LeafBvs(prims, primBvs), dim)
    requires p < Size(t) && PreOrder(t)[p].Leaf?
    ensures LeafServes(view, t, prims, primBvs, p)
  {
    hide PreOrder;
  }

  /** The scratch arrays after a complete run of the bottom-up pass. */
  ghost predicate Ran(mcs: seq<Code>, prims: seq<int>, primBvs: seq<Box>, dim: nat, start: BvhBottomUp.State,
      schedule: seq<nat>, r: BvhBottomUp.State)
  {
    && |mcs| == |prims| >= 3 && InRange(prims, |primBvs|) && AllShaped(primBvs, dim)
    && BvhBottomUp.Begun(BvhBottomUp.PlanOf(Splits(mcs), LeafBvs(prims, primBvs), dim), start)
    && (forall k :: 0 <= k < |schedule| ==> schedule[k] < |mcs|)
    && (BvhBottomUp.BuildRefitDone(mcs, LeafBvs(prims, primBvs), dim, start, schedule);
        r == BvhBottomUp.Run(BvhBottomUp.PlanOf(Splits(mcs), LeafBvs(prims, primBvs), dim), start, schedule)
        && BvhBottomUp.Finished(r))
  }

  ghost function TreeOf(mcs: seq<Code>): Tree
    requires |mcs| > 0
  {
    Cartesian(Splits(mcs), 0, |mcs| - 1)
  }

  lemma RanRecorded(mcs: seq<Code>, prims: seq<int>, primBvs: seq<Box>, dim: nat, start: BvhBottomUp.State,
      schedule: seq<nat>, r: BvhBottomUp.State)
    requires Ran(mcs, prims, primBvs, dim, start, schedule, r)
    ensures |mcs| == |prims| >= 3 && InRange(prims, |primBvs|) && AllShaped(primBvs, dim)
    ensures Recorded(TreeOf(mcs), |mcs|, r.tPars, r.tLcs, r.tRcs, r.tLs, r.tRs, r.lPars, r.lDepths)
    ensures |r.tBvs| == |mcs| - 1 && forall u: nat :: u < |mcs| - 1 ==>
              u in Ids(TreeOf(mcs)) && r.tBvs[u] == BvhBottomUp.BoxOf(Sub(TreeOf(mcs), u), LeafBvs(prims, primBvs), dim)
  {
    hide BvhBottomUp.Run, BvhBottomUp.Begun, BvhBottomUp.Finished, BvhBottomUp.BoxOf, Recorded, Splits, Cartesian, Sub,
        Ids;
    BvhBottomUp.BuildRefitDone(mcs, LeafBvs(prims, primBvs), dim, start, schedule);
  }

  lemma AsDescribed(l: Layout, t: Tree, tLcs: seq<int>, tRcs: seq<int>, tLs: seq<int>)
    requires l.Valid() && Recorded(t, l.n, l.tPars, tLcs, tRcs, tLs, l.tRs, l.lPars, l.lDepths)
    ensures l.Describes(t)
  {
    hide Consecutive, UniqueIds, Ids, Sub, TrunkParent, LeafParent, Level, Top, Lo, Hi, Ref;
  }

  /** The code takes trunk node 0 for the root, which it is exactly if no split is larger than the
      first. */
  lemma RootFirst(mcs: seq<Code>)
    requires |mcs| >= 3
    ensures TreeOf(mcs).Trunk?
    ensures TreeOf(mcs).id == 0 <==> forall k :: 0 <= k < |mcs| - 1 ==> Splits(mcs)[k] <= Splits(mcs)[0]
  {
    var s := Splits(mcs);
    var g := Leftmost(s, 0, |mcs| - 1);
    assert g != 0 ==> s[0] < s[g];
  }

  /** `buildRefit` from a complete run of its threads on, with the orders of the layout passes: the
      arrays serve queries, whatever the interleaving and the orders. The parents are right, and
      all accesses in bounds, exactly if no split is larger than the first. */
  method BuildRefit(mcs: seq<Code>, prims: seq<int>, primBvs: seq<Box>, ghost dim: nat, ghost start: BvhBottomUp.State,
      ghost schedule: seq<nat>, r: BvhBottomUp.State, chains: seq<nat>, leaves: seq<nat>, trunks: seq<nat>, junk: int)
    returns (view: View, parents: seq<int>, inBounds: bool)
    requires Ran(mcs, prims, primBvs, dim, start, schedule, r)
    requires Schedule(chains, |mcs|) && Schedule(leaves, |mcs|) && Schedule(trunks, |mcs| - 1)
    ensures |mcs| >= 3 && Serves(view, TreeOf(mcs), prims, primBvs)
    ensures var first := forall k :: 0 <= k < |mcs| - 1 ==> Splits(mcs)[k] <= Splits(mcs)[0];
            (inBounds <==> first) && (ParentsRight(TreeOf(mcs), parents) <==> first)
  {
    hide Ran, Recorded, Serves, Arranged, ParentsRight, BvhBottomUp.BoxOf, TreeOf, Splits, Layout.LeafPlaced,
        Layout.TrunkPlaced, Layout.TrunkLinked, Layout.ChainLevels, Place, Top, Ref, LeafBoxed, TrunkBoxed, PreOrder,
        Layout.Describes, Sub, Schedule;
    RanRecorded(mcs, prims, primBvs, dim, start, schedule, r);
    ghost var t := TreeOf(mcs);
    Lengths(t, |mcs|, r.tPars, r.tLcs, r.tRcs, r.tLs, r.tRs, r.lPars, r.lDepths);
    var l := new Layout(|mcs|, r.tPars, r.tRs, r.lPars, r.lDepths, prims);
    AsDescribed(l, t, r.tLcs, r.tRcs, r.tLs);
    var bvs := new Box[2 * |mcs| - 1];
    l.Scan();
    l.SuppAll(chains, t);
    l.AllPlaced(t);
    LeavesWithBvs(l, leaves, primBvs, bvs, t);
    inBounds := TrunksWithBvs(l, trunks, junk, primBvs, r.tBvs, bvs, t);
    l.Conclude(t);
    parents, view := l.parents[..], View(l.levels[..], l.auxIndices[..], l.leafInds[..], bvs[..]);
    RootFirst(mcs);
    if t.id == 0 {
      l.ConcludeParents(t);
    } else {
      l.ParentsWrong(t);
    }
    l.RootStands(t);
    forall x: nat | x < Size(t)
      ensures bvs[x] == BvhBottomUp.BoxOf(PreOrder(t)[x], LeafBvs(prims, primBvs), dim)
    {
      BoxAtPlace(l, t, bvs, primBvs, r.tBvs, dim, x);
    }
    ArrangedServes(t, view, prims, primBvs, dim);
  }

  lemma Lengths(t: Tree, n: nat, tPars: seq<int>, tLcs: seq<int>, tRcs: seq<int>, tLs: seq<int>, tRs: seq<int>,
      lPars: seq<int>, lDepths: seq<int>)
    requires Recorded(t, n, tPars, tLcs, tRcs, tLs, tRs, lPars, lDepths)
    ensures |tPars| == |tRs| == n - 1 && |lPars| == n && |lDepths| == n + 1 && Consecutive(t) && Lo(t) == 0
  {
  }

  /** After `buildRefit`, whatever the interleaving of its threads, a query calls back for exactly the
      primitives that a brute-force scan finds, up to the one that asks to stop. */
  method NeighborsAfterBuildRefit(mcs: seq<Code>, prims: seq<int>, primBvs: seq<Box>, ghost dim: nat,
      ghost start: BvhBottomUp.State, ghost schedule: seq<nat>, r: BvhBottomUp.State, chains: seq<nat>,
      leaves: seq<nat>, trunks: seq<nat>, junk: int, q: Box, stop: int -> bool) returns (calls: seq<int>)
    requires Ran(mcs, prims, primBvs, dim, start, schedule, r)
    requires Schedule(chains, |mcs|) && Schedule(leaves, |mcs|) && Schedule(trunks, |mcs| - 1)
    ensures InRange(prims, |primBvs|) && calls == UpTo(BruteForce(prims, primBvs, q, 0, |prims|), stop)
  {
    hide Ran, Serves, TreeOf, ParentsRight, Schedule, BruteForce, UpTo;
    RanRecorded(mcs, prims, primBvs, dim, start, schedule, r);
    var view, parents, inBounds :=
      BuildRefit(mcs, prims, primBvs, dim, start, schedule, r, chains, leaves, trunks, junk);
    calls := IterNeighbors(view, q, stop, TreeOf(mcs), prims, primBvs);
  }

  /** An input for the wrong parents: three codes whose second split is the larger. */
  lemma RootSecond()
    ensures TreeOf([0, 1, 4]).id == 1
  {
    SmallCodes();
    hide Common;
    var mcs: seq<Code> := [0, 1, 4];
    assert Splits(mcs)[0] == 1 && Splits(mcs)[1] == 3;
    LeftmostUnique(Splits(mcs), 0, 2, 1);
  }

  lemma SmallCodes()
    ensures Common(0, 1) == 31 && Common(1, 4) == 29
  {
    assert Xor(0, 1) == 1 && Xor(1, 4) == 5;
    assert BitLength(1) == 1 && BitLength(5) == 3;
  }
}
