/** The passes of `build` after the topology: scan, levels, and the reordering into pre-order. */
module BvhLayout {
  import opened MortonCodes
  import opened BvhTrees
  import opened BvhSplits
  import opened BvhChains
  import opened BvhPreOrder
  import opened BvhBuild

  /** Where trunk node `id` of `t` goes, by the counters of the chains. */
  ghost function Place(t: Tree, d: seq<int>, id: nat): int
    requires id in Ids(t)
  {
    ScanSum(d, Lo(Sub(t, id)) + 1) - 1 - Level(Sub(t, id))
  }

  /** The arrays that queries read, against the pre-order of `t`: a node's level is the length of its
      left chain; a leaf names its primitive, a trunk node the place after its subtree, or -1 at the
      end; `leafInds` finds the leaves. */
  ghost predicate Arranged(t: Tree, prims: seq<int>, levels: seq<int>, aux: seq<int>, leafInds: seq<int>)
  {
    var nodes := PreOrder(t);
    && |levels| == |aux| == |nodes|
    && |leafInds| == |prims| == Hi(t) + 1
    && (forall p :: 0 <= p < |nodes| ==> levels[p] == Level(nodes[p]))
    && (forall p :: 0 <= p < |nodes| && nodes[p].Leaf? ==>
          nodes[p].at < |prims| && aux[p] == prims[nodes[p].at] && leafInds[nodes[p].at] == p)
    && (forall p :: 0 <= p < |nodes| && nodes[p].Trunk? ==>
          aux[p] == if p + Size(nodes[p]) == |nodes| then -1 else p + Size(nodes[p]))
  }

  /** Parents are places, and the root has none. */
  ghost predicate ParentsRight(t: Tree, parents: seq<int>)
  {
    var nodes := PreOrder(t);
    && |parents| == |nodes| && parents[0] == -1
    && (forall p :: 0 <= p < |nodes| && nodes[p].Trunk? ==>
          p + 1 + Size(nodes[p].left) < |nodes| && parents[p + 1] == p && parents[p + 1 + Size(nodes[p].left)] == p)
  }

  /** The arrays of the finished tree. */
  ghost predicate LaidOut(t: Tree, prims: seq<int>, levels: seq<int>, aux: seq<int>,
                          parents: seq<int>, leafInds: seq<int>)
  {
    Arranged(t, prims, levels, aux, leafInds) && ParentsRight(t, parents)
  }

  lemma {:induction false} SumMonotone(d: seq<int>, a: nat, b: nat)
    requires a <= b <= |d| && forall k :: 0 <= k < |d| ==> d[k] >= 0
    ensures 0 <= ScanSum(d, a) <= ScanSum(d, b)
    decreases b
  {
    if a < b {
      SumMonotone(d, a, b - 1);
    } else if a > 0 {
      SumMonotone(d, a - 1, b - 1);
    }
  }

  lemma CountedTree(t: Tree, d: seq<int>)
    requires Consecutive(t) && Lo(t) == 0 && |d| == Hi(t) + 2 && d[Hi(t) + 1] == 0
    requires forall k: nat :: k <= Hi(t) ==> d[k] == 1 + Level(Top(t, k))
    ensures Counted(t, d) && StandsAt(t, d, 0) && ScanSum(d, 1) == 1 + Level(t)
    ensures forall k :: 0 <= k < |d| ==> d[k] >= 0
  {
    hide Top, Level;
    assert d[0] == 1 + Level(Top(t, 0)) by {
      Extent(t);
    }
    TopFirst(t);
    ScanStep(d, 0);
  }

  lemma TopFirst(t: Tree)
    ensures Top(t, Lo(t)) == t
  {
  }

  class Layout {
    const n: nat
    const tPars: seq<int>
    const tRs: seq<int>
    const lPars: seq<int>
    const lDepths: seq<int>
    const pInds: seq<int>
    const lOffsets: array<int>
    const tDst: array<int>
    const lLcas: array<int>
    const levels: array<int>
    const auxIndices: array<int>
    const parents: array<int>
    const leafInds: array<int>

    ghost predicate Valid()
    {
      && n >= 3 && |tPars| == |tRs| == n - 1 && |lPars| == |pInds| == n && |lDepths| == n + 1
      && lOffsets.Length == n + 1 && tDst.Length == n - 1 && lLcas.Length == n && leafInds.Length == n
      && levels.Length == auxIndices.Length == parents.Length == 2 * n - 1
      && lOffsets != tDst && lOffsets != lLcas && lOffsets != levels && lOffsets != auxIndices
      && lOffsets != parents && lOffsets != leafInds
      && tDst != lLcas && tDst != levels && tDst != auxIndices && tDst != parents && tDst != leafInds
      && lLcas != levels && lLcas != auxIndices && lLcas != parents && lLcas != leafInds
      && levels != auxIndices && levels != parents && levels != leafInds
      && auxIndices != parents && auxIndices != leafInds && parents != leafInds
    }

    constructor (n: nat, tPars: seq<int>, tRs: seq<int>, lPars: seq<int>, lDepths: seq<int>, pInds: seq<int>)
      requires n >= 3 && |tPars| == |tRs| == n - 1 && |lPars| == |pInds| == n && |lDepths| == n + 1
      ensures Valid() && this.n == n && this.tPars == tPars && this.tRs == tRs && this.lPars == lPars
      ensures this.lDepths == lDepths && this.pInds == pInds
      ensures fresh(lOffsets) && fresh(tDst) && fresh(lLcas) && fresh(levels)
      ensures fresh(auxIndices) && fresh(parents) && fresh(leafInds)
    {
      this.n, this.tPars, this.tRs, this.lPars, this.lDepths, this.pInds := n, tPars, tRs, lPars, lDepths, pInds;
      lOffsets := new int[n + 1];
      tDst := new int[n - 1];
      lLcas := new int[n];
      levels := new int[2 * n - 1];
      auxIndices := new int[2 * n - 1];
      parents := new int[2 * n - 1];
      leafInds := new int[n];
    }

    /** The tables the passes read describe the tree `t`. */
    ghost predicate Describes(t: Tree)
      requires Valid()
    {
      && t.Trunk? && Consecutive(t) && UniqueIds(t) && Lo(t) == 0 && Hi(t) == n - 1
      && (forall id: nat :: id in Ids(t) <==> id < n - 1)
      && (forall id: nat :: id in Ids(t) ==> tPars[id] == TrunkParent(t, id) && tRs[id] == Hi(Sub(t, id)))
      && (forall k: nat :: k < n ==> lPars[k] == LeafParent(t, k))
      && (forall k: nat :: k < n ==> lDepths[k] == 1 + Level(Top(t, k)))
      && lDepths[n] == 0
    }

    /** The root stands at place 0, and the last prefix sum is the number of nodes. */
    lemma RootStands(t: Tree)
      requires Valid() && Describes(t)
      ensures StandsAt(t, lDepths, 0) && ScanSum(lDepths, n) == Size(t) == 2 * n - 1
      ensures forall k :: 0 <= k < |lDepths| ==> lDepths[k] >= 0
    {
      hide *;
      Deep(t);
      CountedTree(t, lDepths);
      Extent(t);
      ChainSum(t, lDepths);
    }

    lemma Deep(t: Tree)
      requires Valid() && Describes(t)
      ensures Consecutive(t) && t.Trunk? && Lo(t) == 0 && Hi(t) == n - 1 && n >= 3 && |lDepths| == n + 1
              && lDepths[n] == 0
      ensures forall k: nat :: k < n ==> lDepths[k] == 1 + Level(Top(t, k))
    {
    }

    /** The places of leaf `idx` and of the chain above it. */
    lemma ChainPlaces(t: Tree, idx: nat)
      requires Valid() && Describes(t) && idx < n
      ensures 0 <= ScanSum(lDepths, idx) && ScanSum(lDepths, idx + 1) <= 2 * n - 1
      ensures ScanSum(lDepths, idx + 1) == ScanSum(lDepths, idx) + 1 + Level(Top(t, idx))
      ensures forall id: nat :: id < n - 1 && Lo(Sub(t, id)) == idx ==>
                && Level(Sub(t, id)) <= Level(Top(t, idx))
                && Sub(t, id) == Link(Top(t, idx), Level(Sub(t, id)))
      ensures var c := Top(t, idx);
              && (Level(c) > 0 ==> LeafParent(t, idx) == Link(c, 1).id)
              && Ref(c, n - 1) == if Level(c) == 0 then idx + (n - 1) else Link(c, Level(c)).id
    {
      hide Link, Top, Sub;
      TopStart(t, idx);
      LinkEnds(Top(t, idx));
      if Level(Top(t, idx)) > 0 {
        LinkOf(t, idx, 1);
      }
      RootStands(t);
      SumMonotone(lDepths, 0, idx);
      SumMonotone(lDepths, idx + 1, n);
      ScanStep(lDepths, idx);
      forall id: nat | id < n - 1 && Lo(Sub(t, id)) == idx
        ensures Level(Sub(t, id)) <= Level(Top(t, idx)) && Sub(t, id) == Link(Top(t, idx), Level(Sub(t, id)))
      {
        LinkIs(t, id);
      }
    }

    /** The exclusive scan of the chain lengths. */
    method Scan()
      requires Valid()
      modifies lOffsets
      ensures Scanned()
    {
      var total := 0;
      for k := 0 to n + 1
        invariant total == ScanSum(lDepths, k)
        invariant forall p: nat :: p < k ==> lOffsets[p] == ScanSum(lDepths, p)
      {
        lOffsets[k] := total;
        total := total + lDepths[k];
      }
    }

    ghost predicate Scanned()
      requires Valid()
      reads lOffsets
    {
      forall p: nat :: p <= n ==> lOffsets[p] == ScanSum(lDepths, p)
    }

    /** `_build_supp_topo` for leaf `idx`: climbs its left chain, numbering places and levels. */
    method SuppTopo(idx: nat, ghost t: Tree)
      requires Valid() && Describes(t) && Scanned() && idx < n
      modifies tDst, lLcas, levels
      ensures lLcas[..] == old(lLcas[..])[idx := Ref(Top(t, idx), n - 1)]
      ensures forall id: nat :: id < n - 1 ==>
                tDst[id] == if Lo(Sub(t, id)) == idx then Place(t, lDepths, id) else old(tDst[id])
      ensures forall p :: 0 <= p < 2 * n - 1 ==>
                levels[p] == if lOffsets[idx] <= p < lOffsets[idx + 1] - 1 then lOffsets[idx + 1] - 1 - p
                             else old(levels[p])
    {
      hide Link, Top, Sub, Lo, Level, ScanSum, Ref, Consecutive, UniqueIds, Ids;
      ghost var c := Top(t, idx);
      ChainPlaces(t, idx);
      var depth := lOffsets[idx + 1] - lOffsets[idx];
      var dst := lOffsets[idx + 1] - 2;
      var node, ch := lPars[idx], idx + (n - 1);
      var level := 0;
      depth := depth - 1;
      while depth != 0
        invariant lLcas[..] == old(lLcas[..])
        invariant 0 <= level <= Level(c) && depth == Level(c) - level
        invariant dst == lOffsets[idx + 1] - 2 - level
        invariant level < Level(c) ==> node == Link(c, level + 1).id
        invariant ch == if level == 0 then idx + (n - 1) else Link(c, level).id
        invariant forall id: nat :: id < n - 1 ==>
                    tDst[id] == if Lo(Sub(t, id)) == idx && Level(Sub(t, id)) <= level
                                then Place(t, lDepths, id) else old(tDst[id])
        invariant forall p :: 0 <= p < 2 * n - 1 ==>
                    levels[p] == if dst < p < lOffsets[idx + 1] - 1 then lOffsets[idx + 1] - 1 - p
                                 else old(levels[p])
      {
        LinkOf(t, idx, level + 1);
        tDst[node] := dst;
        level := level + 1;
        levels[dst] := level;
        ch := node;
        node := tPars[node];
        dst := dst - 1;
        depth := depth - 1;
      }
      lLcas[idx] := ch;
    }

    // Each fact below is about one body of a pass; a pass is finished when it holds for all.

    ghost predicate ChainPlaced(t: Tree, k: nat)
      requires Valid() && Describes(t) && k < n
      reads tDst, lLcas
    {
      && lLcas[k] == Ref(Top(t, k), n - 1)
      && forall id: nat :: id < n - 1 && Lo(Sub(t, id)) == k ==> tDst[id] == Place(t, lDepths, id)
    }

    ghost predicate ChainLevels(k: nat)
      requires Valid() && k < n
      reads levels
    {
      forall p :: 0 <= p < 2 * n - 1 && ScanSum(lDepths, k) <= p < ScanSum(lDepths, k + 1) - 1 ==>
        levels[p] == ScanSum(lDepths, k + 1) - 1 - p
    }

    ghost function LeafPlace(k: nat): int
      requires Valid() && k < n
    {
      ScanSum(lDepths, k + 1) - 1
    }

    ghost predicate LeafPlaced(t: Tree, k: nat)
      requires Valid() && Describes(t) && k < n
      reads auxIndices, parents, levels, leafInds
    {
      var p := LeafPlace(k);
      && 0 <= p < 2 * n - 1 && 0 <= LeafParent(t, k) < n - 1
      && auxIndices[p] == pInds[k] && levels[p] == 0 && leafInds[k] == p
      && parents[p] == Place(t, lDepths, LeafParent(t, k))
    }

    ghost predicate TrunkPlaced(t: Tree, id: nat)
      requires Valid() && Describes(t) && id < n - 1
      reads auxIndices
    {
      var p := Place(t, lDepths, id);
      var r := Hi(Sub(t, id));
      && 0 <= p < 2 * n - 1 && r < n
      && auxIndices[p] == if r != n - 1 then ScanSum(lDepths, r + 1) else -1
    }

    /** What the code writes into `parents` for a trunk node: it takes number 0 for the root. */
    ghost predicate TrunkLinked(t: Tree, id: nat)
      requires Valid() && Describes(t) && id < n - 1
      reads parents
    {
      var p := Place(t, lDepths, id);
      && 0 <= p < 2 * n - 1
      && -1 <= TrunkParent(t, id) < n - 1 && (TrunkParent(t, id) == -1 <==> id == t.id)
      && (id == 0 ==> parents[p] == -1)
      && (id != 0 && id != t.id ==> parents[p] == Place(t, lDepths, TrunkParent(t, id)))
    }

    lemma Apart(t: Tree, k: nat, l: nat)
      requires Valid() && Describes(t) && k < l < n
      ensures ScanSum(lDepths, k + 1) <= ScanSum(lDepths, l)
    {
      RootStands(t);
      SumMonotone(lDepths, k + 1, l);
    }

    /** Every number and every leaf has its own place in pre-order. */
    lemma TrunkAt(t: Tree, id: nat)
      requires Valid() && Describes(t) && id < n - 1
      ensures var p := Place(t, lDepths, id);
              0 <= p < 2 * n - 1 == Size(t) && PreOrder(t)[p] == Sub(t, id)
    {
      hide PreOrder, Sub;
      RootStands(t);
      var p := PlaceOfTrunk(t, id);
      PlaceOf(t, lDepths, 0, p);
    }

    lemma LeafAt(t: Tree, k: nat)
      requires Valid() && Describes(t) && k < n
      ensures 0 <= LeafPlace(k) < 2 * n - 1 == Size(t) && PreOrder(t)[LeafPlace(k)] == Leaf(k)
    {
      hide PreOrder;
      RootStands(t);
      var p := PlaceOfLeaf(t, k);
      PlaceOf(t, lDepths, 0, p);
    }

    lemma ParentNumbers(t: Tree, k: nat, id: nat)
      requires Valid() && Describes(t) && k < n && id < n - 1
      ensures 0 <= LeafParent(t, k) < n - 1
      ensures -1 <= TrunkParent(t, id) < n - 1 && (TrunkParent(t, id) == -1 <==> id == t.id)
      ensures Hi(Sub(t, id)) < n
    {
      LeafParentIsOwner(t, k);
      ParentIsOwner(t, id);
      SubInside(t, id);
    }

    /** `_build_reorder_leaf` for leaf `idx`. */
    method ReorderLeaf(idx: nat, ghost t: Tree)
      requires Valid() && Describes(t) && Scanned() && idx < n
      requires forall id: nat :: id < n - 1 ==> tDst[id] == Place(t, lDepths, id)
      modifies auxIndices, parents, levels, leafInds
      ensures LeafPlaced(t, idx)
      ensures forall k: nat :: k < n && k != idx && old(LeafPlaced(t, k)) ==> LeafPlaced(t, k)
      ensures forall k: nat :: k < n && old(ChainLevels(k)) ==> ChainLevels(k)
    {
      hide Place, ScanSum, Sub, Top, Level, Link;
      LeafAt(t, idx);
      ParentNumbers(t, idx, 0);
      var dst := lOffsets[idx + 1] - 1;
      auxIndices[dst] := pInds[idx];
      parents[dst] := tDst[lPars[idx]];
      levels[dst] := 0;
      leafInds[idx] := dst;
      forall k: nat | k < n && k != idx && old(LeafPlaced(t, k))
        ensures LeafPlaced(t, k)
      {
        LeafAt(t, k);
      }
      forall k: nat | k < n && old(ChainLevels(k))
        ensures ChainLevels(k)
      {
        if k < idx {
          Apart(t, k, idx);
          SumStepAt(idx);
        } else if idx < k {
          Apart(t, idx, k);
        }
      }
    }

    lemma SumStepAt(k: nat)
      requires Valid() && k < n
      ensures ScanSum(lDepths, k + 1) == ScanSum(lDepths, k) + lDepths[k]
    {
    }

    /** `_build_reorder_trunk` for trunk node `idx`. For a root with a number other than 0 the code
        reads in front of `tDst`; `junk` is what it finds there. */
    method ReorderTrunk(idx: nat, junk: int, ghost t: Tree) returns (inBounds: bool)
      requires Valid() && Describes(t) && Scanned() && idx < n - 1
      requires forall id: nat :: id < n - 1 ==> tDst[id] == Place(t, lDepths, id)
      requires forall k: nat :: k < n ==> lLcas[k] == Ref(Top(t, k), n - 1)
      modifies auxIndices, parents
      ensures inBounds <==> idx == 0 || idx != t.id
      ensures TrunkPlaced(t, idx) && TrunkLinked(t, idx)
      ensures forall id: nat :: id < n - 1 && id != idx && old(TrunkPlaced(t, id)) ==> TrunkPlaced(t, id)
      ensures forall id: nat :: id < n - 1 && id != idx && old(TrunkLinked(t, id)) ==> TrunkLinked(t, id)
      ensures forall k: nat :: k < n && old(LeafPlaced(t, k)) ==> LeafPlaced(t, k)
    {
      hide Place, ScanSum, Sub, Top, Level, Link, Ids, Ref;
      TrunkAt(t, idx);
      ParentNumbers(t, 0, idx);
      var numTrunk := n - 1;
      var dst := tDst[idx];
      var r := tRs[idx];
      if r != numTrunk {
        EscapePlace(t, r + 1);
        var lca := lLcas[r + 1];
        auxIndices[dst] := if lca < numTrunk then tDst[lca] else lOffsets[r + 1];
      } else {
        auxIndices[dst] := -1;
      }
      inBounds := true;
      if idx != 0 {
        inBounds := 0 <= tPars[idx] < numTrunk;
        parents[dst] := if inBounds then tDst[tPars[idx]] else junk;
      } else {
        parents[dst] := -1;
      }
      forall id: nat | id < n - 1 && id != idx && old(TrunkPlaced(t, id))
        ensures TrunkPlaced(t, id)
      {
        TrunkAt(t, id);
      }
      forall id: nat | id < n - 1 && id != idx && old(TrunkLinked(t, id))
        ensures TrunkLinked(t, id)
      {
        TrunkAt(t, id);
      }
      forall k: nat | k < n && old(LeafPlaced(t, k))
        ensures LeafPlaced(t, k)
      {
        LeafAt(t, k);
      }
    }

    /** The topmost node that starts at leaf `k` stands where the scan puts leaf `k`. */
    lemma EscapePlace(t: Tree, k: nat)
      requires Valid() && Describes(t) && k < n
      ensures var lca := Ref(Top(t, k), n - 1);
              lca < n - 1 ==> lca in Ids(t) && Place(t, lDepths, lca) == ScanSum(lDepths, k)
    {
      hide Link;
      ScanStep(lDepths, k);
      var c := Top(t, k);
      TopStart(t, k);
      if c.Trunk? {
        LinkEnds(c);
        LinkOf(t, k, Level(c));
      }
    }

    /** `_build_supp_topo` over all leaves, in any order. */
    method SuppAll(order: seq<nat>, ghost t: Tree)
      requires Valid() && Describes(t) && Scanned() && Schedule(order, n)
      modifies tDst, lLcas, levels
      ensures forall k: nat :: k < n ==> ChainPlaced(t, k) && ChainLevels(k)
    {
      hide ChainPlaced, ChainLevels;
      for m := 0 to |order|
        invariant forall k :: k in order[..m] ==> ChainPlaced(t, k) && ChainLevels(k)
      {
        SuppNext(order[m], t);
      }
      assert order[..|order|] == order;
    }

    method SuppNext(idx: nat, ghost t: Tree)
      requires Valid() && Describes(t) && Scanned() && idx < n
      modifies tDst, lLcas, levels
      ensures ChainPlaced(t, idx) && ChainLevels(idx)
      ensures forall k: nat :: k < n && old(ChainPlaced(t, k)) ==> ChainPlaced(t, k)
      ensures forall k: nat :: k < n && old(ChainLevels(k)) ==> ChainLevels(k)
    {
      hide Place, Sub, ScanSum, Top, Link, Level, Ids, Ref;
      SuppTopo(idx, t);
      forall k: nat | k < n && old(ChainLevels(k))
        ensures ChainLevels(k)
      {
        SumStepAt(idx);
        if k < idx {
          Apart(t, k, idx);
        } else if idx < k {
          Apart(t, idx, k);
        }
      }
    }

    method LeavesAll(order: seq<nat>, ghost t: Tree)
      requires Valid() && Describes(t) && Scanned() && Schedule(order, n)
      requires forall id: nat :: id < n - 1 ==> tDst[id] == Place(t, lDepths, id)
      requires forall k: nat :: k < n ==> ChainLevels(k)
      modifies auxIndices, parents, levels, leafInds
      ensures forall k: nat :: k < n ==> LeafPlaced(t, k) && ChainLevels(k)
    {
      hide LeafPlaced, ChainLevels, Place;
      for m := 0 to |order|
        invariant forall k: nat :: k < n ==> ChainLevels(k)
        invariant forall k :: k in order[..m] ==> LeafPlaced(t, k)
      {
        ReorderLeaf(order[m], t);
      }
      assert order[..|order|] == order;
    }

    method TrunksAll(order: seq<nat>, junk: int, ghost t: Tree) returns (inBounds: bool)
      requires Valid() && Describes(t) && Scanned() && Schedule(order, n - 1)
      requires forall id: nat :: id < n - 1 ==> tDst[id] == Place(t, lDepths, id)
      requires forall k: nat :: k < n ==> lLcas[k] == Ref(Top(t, k), n - 1)
      requires forall k: nat :: k < n ==> LeafPlaced(t, k)
      modifies auxIndices, parents
      ensures inBounds <==> t.id == 0
      ensures forall k: nat :: k < n ==> LeafPlaced(t, k)
      ensures forall id: nat :: id < n - 1 ==> TrunkPlaced(t, id) && TrunkLinked(t, id)
    {
      hide LeafPlaced, TrunkPlaced, TrunkLinked, Place, Ref;
      RootNumber(t);
      inBounds := true;
      for m := 0 to |order|
        invariant inBounds <==> t.id == 0 || t.id !in order[..m]
        invariant forall k: nat :: k < n ==> LeafPlaced(t, k)
        invariant forall id :: id in order[..m] ==> TrunkPlaced(t, id) && TrunkLinked(t, id)
      {
        var ok := ReorderTrunk(order[m], junk, t);
        inBounds := inBounds && ok;
        assert order[..m + 1] == order[..m] + [order[m]];
      }
      assert order[..|order|] == order;
    }

    lemma RootNumber(t: Tree)
      requires Valid() && Describes(t)
      ensures t.id < n - 1
    {
      assert t.id in Ids(t);
    }

    lemma AllPlaced(t: Tree)
      requires Valid() && Describes(t)
      requires forall k: nat :: k < n ==> ChainPlaced(t, k)
      ensures forall id: nat :: id < n - 1 ==> tDst[id] == Place(t, lDepths, id)
      ensures forall k: nat :: k < n ==> lLcas[k] == Ref(Top(t, k), n - 1)
    {
      hide Place, Top, Ref, Sub;
      forall id: nat | id < n - 1
        ensures tDst[id] == Place(t, lDepths, id)
      {
        LinkIs(t, id);
        assert ChainPlaced(t, Lo(Sub(t, id)));
      }
      forall k: nat | k < n
        ensures lLcas[k] == Ref(Top(t, k), n - 1)
      {
        assert ChainPlaced(t, k);
      }
    }

    /** What stands at place `p` of pre-order, and what the chains say about it. */
    lemma AtPlace(t: Tree, p: nat)
      requires Valid() && Describes(t) && p < 2 * n - 1
      ensures p < Size(t) == 2 * n - 1
      ensures var v := PreOrder(t)[p];
              && Lo(v) <= Hi(v) < n && p + Size(v) == ScanSum(lDepths, Hi(v) + 1)
              && ScanSum(lDepths, Lo(v)) <= p && p + Level(v) + 1 == ScanSum(lDepths, Lo(v) + 1)
              && (v.Leaf? ==> p == LeafPlace(v.at))
              && (v.Trunk? ==> v.id < n - 1 && Sub(t, v.id) == v && p == Place(t, lDepths, v.id))
              && (v.Trunk? ==> Lo(v) < Hi(v) && Level(v) > 0)
    {
      hide PreOrder, Top;
      RootStands(t);
      PlaceOf(t, lDepths, 0, p);
      var v := PreOrder(t)[p];
      Extent(v);
      ScanStep(lDepths, Lo(v));
      ChainPlaces(t, Lo(v));
      if v.Trunk? {
        NodeNumbered(t, p);
      } else {
        LinkEnds(v);
      }
    }

    lemma ChildParents(t: Tree, p: nat)
      requires Valid() && Describes(t) && t.id == 0 && p < Size(t) == 2 * n - 1 && PreOrder(t)[p].Trunk?
      requires forall k: nat :: k < n ==> LeafPlaced(t, k)
      requires forall id: nat :: id < n - 1 ==> TrunkLinked(t, id)
      ensures var v := PreOrder(t)[p];
              && p + 1 + Size(v.left) < 2 * n - 1
              && parents[p + 1] == p && parents[p + 1 + Size(v.left)] == p
    {
      hide PreOrder, Place, ScanSum, Level;
      AtPlace(t, p);
      BlockChildren(t, p);
      var v := PreOrder(t)[p];
      AtPlace(t, p + 1);
      AtPlace(t, p + 1 + Size(v.left));
      OwnerIsParent(t, v.id);
      OwnerIsLeafParent(t, v.id);
      assert v.left.Leaf? ==> LeafPlaced(t, v.left.at);
      assert v.right.Leaf? ==> LeafPlaced(t, v.right.at);
      assert v.left.Trunk? ==> TrunkLinked(t, v.left.id);
      assert v.right.Trunk? ==> TrunkLinked(t, v.right.id);
    }

    lemma Conclude(t: Tree)
      requires Valid() && Describes(t)
      requires forall k: nat :: k < n ==> LeafPlaced(t, k) && ChainLevels(k)
      requires forall id: nat :: id < n - 1 ==> TrunkPlaced(t, id)
      ensures Arranged(t, pInds, levels[..], auxIndices[..], leafInds[..])
    {
      hide PreOrder, Place, Top, Sub, LeafPlaced, TrunkPlaced, ChainLevels;
      RootStands(t);
      var nodes := PreOrder(t);
      forall p | 0 <= p < |nodes|
        ensures levels[p] == Level(nodes[p])
        ensures nodes[p].Leaf? ==> nodes[p].at < n && auxIndices[p] == pInds[nodes[p].at] && leafInds[nodes[p].at] == p
        ensures nodes[p].Trunk? ==> auxIndices[p] == if p + Size(nodes[p]) == |nodes| then -1 else p + Size(nodes[p])
      {
        NodeRow(t, p);
      }
    }

    lemma ConcludeParents(t: Tree)
      requires Valid() && Describes(t) && t.id == 0
      requires forall k: nat :: k < n ==> LeafPlaced(t, k)
      requires forall id: nat :: id < n - 1 ==> TrunkLinked(t, id)
      ensures ParentsRight(t, parents[..])
    {
      hide PreOrder, Place, Top, Sub, LeafPlaced, TrunkLinked, ChainLevels;
      RootStands(t);
      var nodes := PreOrder(t);
      forall p | 0 <= p < |nodes| && nodes[p].Trunk?
        ensures p + 1 + Size(nodes[p].left) < |nodes| && parents[p + 1] == p
                && parents[p + 1 + Size(nodes[p].left)] == p
      {
        ChildParents(t, p);
      }
      RootRow(t);
    }

    /** If the root has another number than 0, node 0 has a parent, but is given none. */
    lemma ParentsWrong(t: Tree)
      requires Valid() && Describes(t) && t.id != 0
      requires forall id: nat :: id < n - 1 ==> TrunkLinked(t, id)
      ensures !ParentsRight(t, parents[..])
    {
      hide PreOrder, ScanSum, Level;
      RootStands(t);
      TrunkAt(t, 0);
      var p := Place(t, lDepths, 0);
      assert TrunkLinked(t, 0) && parents[p] == -1;
      OwnNode(t, p);
    }

    /** A node that is not the root has a parent place. */
    lemma OwnNode(t: Tree, p: nat)
      requires Valid() && Describes(t) && t.id != 0 && p < Size(t) == 2 * n - 1
      requires PreOrder(t)[p] == Sub(t, 0) && parents[p] == -1
      ensures !ParentsRight(t, parents[..])
    {
      hide PreOrder, ScanSum, Level, Sub;
      NotRoot(t);
      PreOrderAt(t, 0);
      var q := ParentPlace(t, p);
      BlockChildren(t, q);
    }

    lemma NotRoot(t: Tree)
      requires Valid() && Describes(t) && t.id != 0
      ensures Sub(t, 0) != t
    {
      assert 0 in Ids(t);
    }

    lemma RootRow(t: Tree)
      requires Valid() && Describes(t) && t.id == 0
      requires forall id: nat :: id < n - 1 ==> TrunkLinked(t, id)
      ensures parents[0] == -1
    {
      AtPlace(t, 0);
      assert TrunkLinked(t, t.id);
    }

    lemma NodeRow(t: Tree, p: nat)
      requires Valid() && Describes(t) && p < Size(t) == 2 * n - 1
      requires forall k: nat :: k < n ==> LeafPlaced(t, k) && ChainLevels(k)
      requires forall id: nat :: id < n - 1 ==> TrunkPlaced(t, id)
      ensures var v := PreOrder(t)[p];
              && levels[p] == Level(v)
              && (v.Leaf? ==> v.at < n && auxIndices[p] == pInds[v.at] && leafInds[v.at] == p)
              && (v.Trunk? ==> auxIndices[p] == if p + Size(v) == 2 * n - 1 then -1 else p + Size(v))
    {
      hide PreOrder, Place, ScanSum, Describes, Sub, Size, LeafParent, TrunkParent;
      AtPlace(t, p);
      var v := PreOrder(t)[p];
      if v.Leaf? {
        assert LeafPlaced(t, v.at);
      } else {
        assert ChainLevels(Lo(v));
        assert TrunkPlaced(t, v.id);
        hide Lo, Hi, Level, LeafPlaced, ChainLevels;
        EndOfNode(t, p);
      }
    }

    /** A node ends with the last place exactly when it ends with the last leaf. */
    lemma EndOfNode(t: Tree, p: nat)
      requires Valid() && Describes(t) && p < Size(t) == 2 * n - 1 && PreOrder(t)[p].Trunk?
      ensures var v := PreOrder(t)[p];
              Hi(v) < n && p + Size(v) == ScanSum(lDepths, Hi(v) + 1) && (p + Size(v) == 2 * n - 1 <==> Hi(v) == n - 1)
    {
      hide PreOrder, Place, ScanSum, Sub, Size, Lo, Hi, Level, StandsAt;
      RootStands(t);
      AtPlace(t, p);
      var v := PreOrder(t)[p];
      if Hi(v) < n - 1 {
        Apart(t, Hi(v), n - 1);
        ChainPlaces(t, n - 1);
      }
    }

    /** All passes, each in an order of its own: the arrays that queries read hold the pre-order of
        the tree. The parents are right, and no access out of bounds, exactly if the root has
        number 0. */
    method Reorder(chains: seq<nat>, leaves: seq<nat>, trunks: seq<nat>, junk: int,
        ghost t: Tree) returns (inBounds: bool)
      requires Valid() && Describes(t)
      requires Schedule(chains, n) && Schedule(leaves, n) && Schedule(trunks, n - 1)
      modifies lOffsets, tDst, lLcas, levels, auxIndices, parents, leafInds
      ensures Arranged(t, pInds, levels[..], auxIndices[..], leafInds[..])
      ensures inBounds <==> t.id == 0
      ensures ParentsRight(t, parents[..]) <==> t.id == 0
    {
      hide LeafPlaced, TrunkPlaced, TrunkLinked, Place, Ref, ChainLevels, Arranged, ParentsRight, ScanSum, Top;
      Scan();
      SuppAll(chains, t);
      AllPlaced(t);
      LeavesAll(leaves, t);
      inBounds := TrunksAll(trunks, junk, t);
      Conclude(t);
      if t.id == 0 {
        ConcludeParents(t);
      } else {
        ParentsWrong(t);
      }
    }
  }

  /** The place of the parent of a node that is not the root. */
  lemma {:induction false} ParentPlace(t: Tree, x: nat) returns (p: nat)
    requires 0 < x < Size(t)
    ensures p < x && PreOrder(t)[p].Trunk?
    ensures x == p + 1 || x == p + 1 + Size(PreOrder(t)[p].left)
  {
    hide PreOrder;
    PreOrderAt(t, 0);
    if x == 1 || x == 1 + Size(t.left) {
      p := 0;
    } else if x <= Size(t.left) {
      var q := ParentPlace(t.left, x - 1);
      p := 1 + q;
      PreOrderAt(t, p);
    } else {
      var q := ParentPlace(t.right, x - 1 - Size(t.left));
      p := 1 + Size(t.left) + q;
      PreOrderAt(t, p);
    }
  }

  /** `build` from the sorted codes on: whatever the order inside each parallel pass, the
      result is the pre-order of the one Karras tree of the codes. */
  method Build(mcs: seq<Code>, sortedIndices: seq<int>, topo: seq<nat>, chains: seq<nat>, leaves: seq<nat>,
      trunks: seq<nat>)
    returns (bvh: Layout)
    requires Sorted(mcs) && |mcs| == |sortedIndices| >= 3
    requires Schedule(topo, |mcs| - 1) && Schedule(chains, |mcs|)
    requires Schedule(leaves, |mcs|) && Schedule(trunks, |mcs| - 1)
    ensures LaidOut(Root(mcs), sortedIndices, bvh.levels[..], bvh.auxIndices[..], bvh.parents[..], bvh.leafInds[..])
  {
    hide Arranged, ParentsRight, PreOrder, Root, Sub, Top, Ids, TrunkParent, LeafParent, Level, Lo, Hi, Ref,
        Consecutive,
        UniqueIds;
    RootTree(mcs);
    var t := new Topology(mcs);
    t.BuildAll(topo);
    bvh := new Layout(|mcs|, t.tPars[..], t.tRs[..], t.lPars[..], t.lDepths[..], sortedIndices);
    var inBounds := bvh.Reorder(chains, leaves, trunks, 0, Root(mcs));
  }
}
