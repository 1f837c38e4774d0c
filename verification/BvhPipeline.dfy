/** Build, refit and query together. */
module BvhPipeline {
  import opened Boxes
  import opened BvhTrees
  import opened BvhPreOrder
  import opened BvhTraversal
  import BvhLayout
  import BvhRefit

  lemma ChildrenOf(t: Tree, prims: seq<int>, c: BvhRefit.Config, p: nat)
    requires BvhLayout.LaidOut(t, prims, c.levels, c.aux, c.parents, c.leafInds)
    requires p < Size(t)
    ensures BvhRefit.IsTrunk(c, p) <==> PreOrder(t)[p].Trunk?
    ensures PreOrder(t)[p].Trunk? ==> p + 1 < BvhRefit.Right(c, p) == p + 1 + Size(PreOrder(t)[p].left) < Size(t)
    ensures PreOrder(t)[p].Trunk? ==> c.parents[p + 1] == p == c.parents[BvhRefit.Right(c, p)]
  {
    hide PreOrder;
    if PreOrder(t)[p].Trunk? {
      BlockChildren(t, p);
    }
  }

  /** The laid out arrays form the tree that refit expects. */
  lemma LayoutLinked(t: Tree, prims: seq<int>, c: BvhRefit.Config)
    requires BvhLayout.LaidOut(t, prims, c.levels, c.aux, c.parents, c.leafInds)
    requires Consecutive(t) && Lo(t) == 0 && InRange(prims, |c.primBvs|)
    ensures BvhRefit.Linked(c)
  {
    hide PreOrder;
    forall u | BvhRefit.IsTrunk(c, u)
      ensures u < BvhRefit.Left(u) < BvhRefit.Right(c, u) < |c.levels|
      ensures c.parents[BvhRefit.Left(u)] == u && c.parents[BvhRefit.Right(c, u)] == u
    {
      ChildrenOf(t, prims, c, u);
    }
    forall x | BvhRefit.IsNode(c, x) && x > 0
      ensures BvhRefit.IsTrunk(c, c.parents[x])
      ensures x == BvhRefit.Left(c.parents[x]) || x == BvhRefit.Right(c, c.parents[x])
    {
      var p := BvhLayout.ParentPlace(t, x);
      ChildrenOf(t, prims, c, p);
    }
    forall k | 0 <= k < |c.leafInds|
      ensures BvhRefit.IsNode(c, c.leafInds[k]) && !BvhRefit.IsTrunk(c, c.leafInds[k])
      ensures 0 <= c.aux[c.leafInds[k]] < |c.primBvs| && PreOrder(t)[c.leafInds[k]] == Leaf(k)
    {
      var p := PlaceOfLeaf(t, k);
      ChildrenOf(t, prims, c, p);
    }
    forall x | BvhRefit.IsNode(c, x) && !BvhRefit.IsTrunk(c, x)
      ensures x in c.leafInds
    {
      ChildrenOf(t, prims, c, x);
      assert c.leafInds[PreOrder(t)[x].at] == x;
    }
  }

  /** Arrays whose boxes are the unions of the primitives below serve queries. */
  lemma UnionNests(t: Tree, prims: seq<int>, c: BvhRefit.Config, dim: nat, bvs: seq<Box>, p: nat)
    requires BvhLayout.LaidOut(t, prims, c.levels, c.aux, c.parents, c.leafInds)
    requires Consecutive(t) && Lo(t) == 0 && InRange(prims, |c.primBvs|)
    requires BvhRefit.Linked(c) && BvhRefit.Proper(c, dim) && |bvs| == |c.levels|
    requires forall x: nat :: x < |c.levels| ==> bvs[x] == BvhRefit.Final(c, dim, x)
    requires p < Size(t) && PreOrder(t)[p].Trunk?
    ensures |bvs| == Size(t) && Nested(t, bvs, p)
  {
    hide PreOrder, BvhRefit.Final, BvhRefit.Linked, BvhRefit.Proper, Merge;
    ChildrenOf(t, prims, c, p);
    BvhRefit.FinalNode(c, dim, p);
    MergeIsUnion(BvhRefit.Final(c, dim, p + 1), BvhRefit.Final(c, dim, BvhRefit.Right(c, p)));
  }

  lemma UnionLeaf(t: Tree, prims: seq<int>, c: BvhRefit.Config, dim: nat, bvs: seq<Box>, p: nat)
    requires BvhLayout.LaidOut(t, prims, c.levels, c.aux, c.parents, c.leafInds)
    requires Consecutive(t) && Lo(t) == 0 && InRange(prims, |c.primBvs|)
    requires BvhRefit.Linked(c) && BvhRefit.Proper(c, dim) && |bvs| == |c.levels|
    requires forall x: nat :: x < |c.levels| ==> bvs[x] == BvhRefit.Final(c, dim, x)
    requires p < Size(t) && PreOrder(t)[p].Leaf?
    ensures LeafServes(View(c.levels, c.aux, c.leafInds, bvs), t, prims, c.primBvs, p)
  {
    hide PreOrder, BvhRefit.Final, BvhRefit.Linked, BvhRefit.Proper, Merge;
    ChildrenOf(t, prims, c, p);
    BvhRefit.FinalNode(c, dim, p);
  }

  lemma UnionsServe(t: Tree, prims: seq<int>, c: BvhRefit.Config, dim: nat, bvs: seq<Box>)
    requires BvhLayout.LaidOut(t, prims, c.levels, c.aux, c.parents, c.leafInds)
    requires Consecutive(t) && Lo(t) == 0 && InRange(prims, |c.primBvs|)
    requires BvhRefit.Linked(c) && BvhRefit.Proper(c, dim) && |bvs| == |c.levels|
    requires forall x: nat :: x < |c.levels| ==> bvs[x] == BvhRefit.Final(c, dim, x)
    ensures Serves(View(c.levels, c.aux, c.leafInds, bvs), t, prims, c.primBvs)
  {
    hide PreOrder, BvhRefit.Final, BvhRefit.Linked, BvhRefit.Proper, Merge, Nested, LeafServes;
    forall p: nat | p < Size(t) && PreOrder(t)[p].Trunk?
      ensures Nested(t, bvs, p)
    {
      UnionNests(t, prims, c, dim, bvs, p);
    }
    forall p: nat | p < Size(t) && PreOrder(t)[p].Leaf?
      ensures LeafServes(View(c.levels, c.aux, c.leafInds, bvs), t, prims, c.primBvs, p)
    {
      UnionLeaf(t, prims, c, dim, bvs, p);
    }
  }

  /** After `build` and any complete run of `refit` the queries answer like a brute-force scan. */
  lemma RefittedServes(t: Tree, prims: seq<int>, c: BvhRefit.Config, dim: nat, bvs: seq<Box>, schedule: seq<nat>)
    requires BvhLayout.LaidOut(t, prims, c.levels, c.aux, c.parents, c.leafInds)
    requires Consecutive(t) && Lo(t) == 0 && InRange(prims, |c.primBvs|)
    requires BvhRefit.Proper(c, dim) && |bvs| == |c.levels|
    requires forall k :: 0 <= k < |schedule| ==> schedule[k] < |c.leafInds|
    ensures BvhRefit.Linked(c) && BvhRefit.Inv(c, dim, BvhRefit.Init(c, bvs))
    ensures var r := BvhRefit.Run(c, dim, BvhRefit.Init(c, bvs), schedule);
            BvhRefit.Finished(r) ==> Serves(View(c.levels, c.aux, c.leafInds, r.bvs), t, prims, c.primBvs)
  {
    hide PreOrder, BvhRefit.Inv, BvhRefit.Final, BvhLayout.LaidOut, Serves, BvhRefit.Run, BvhRefit.Finished;
    LayoutLinked(t, prims, c);
    BvhRefit.RefitFinal(c, dim, bvs, schedule);
    var r := BvhRefit.Run(c, dim, BvhRefit.Init(c, bvs), schedule);
    if BvhRefit.Finished(r) {
      UnionsServe(t, prims, c, dim, r.bvs);
    }
  }
}
