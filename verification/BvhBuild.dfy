/** `_build_build_topo`: every trunk node is placed on its own, in any order, and together
    the nodes form one tree. */
module BvhBuild {
  import opened MortonCodes
  import opened BvhTrees
  import opened BvhChains
  import opened BvhSplits
  import opened BvhSearch

  /** Each of `0..n` exactly once: an order in which a parallel loop may run its bodies. */
  ghost predicate Schedule(order: seq<nat>, n: nat)
  {
    && (forall p :: 0 <= p < |order| ==> order[p] < n)
    && (forall p, q :: 0 <= p < q < |order| ==> order[p] != order[q])
    && (forall k: nat :: k < n ==> k in order)
  }

  ghost function Root(mcs: seq<Code>): Tree
    requires |mcs| > 0
  {
    Karras(Splits(mcs), 0, |mcs| - 1, 0)
  }

  lemma RootTree(mcs: seq<Code>)
    requires |mcs| >= 2
    ensures var t := Root(mcs);
            && t.Trunk? && t.id == 0 && Consecutive(t) && UniqueIds(t)
            && Lo(t) == 0 && Hi(t) == |mcs| - 1
    ensures forall k: nat :: k in Ids(Root(mcs)) <==> k < |mcs| - 1
  {
    KarrasShape(Splits(mcs), 0, |mcs| - 1, 0);
    KarrasIds(Splits(mcs), 0, |mcs| - 1, 0);
  }

  lemma {:induction false} ChildNumbers(s: seq<int>, i: nat, j: nat, id: nat, p: nat)
    requires i <= j < |s| && p in Ids(Karras(s, i, j, id))
    ensures var v := Sub(Karras(s, i, j, id), p);
            && i <= Lo(v) < Hi(v) <= j
            && var g := Leftmost(s, Lo(v), Hi(v));
               v.left == Karras(s, Lo(v), g, g) && v.right == Karras(s, g + 1, Hi(v), g + 1)
    decreases j - i
  {
    hide Leftmost, Consecutive;
    var t := Karras(s, i, j, id);
    var g := Leftmost(s, i, j);
    KarrasShape(s, i, j, id);
    if p == t.id {
    } else if p in Ids(t.left) {
      ChildNumbers(s, i, g, g, p);
    } else {
      ChildNumbers(s, g + 1, j, g + 1, p);
    }
  }

  /** What the two searches tell about a node: its range, and its children by number. */
  lemma NodeFound(mcs: seq<Code>, idx: nat, i: int, j: int)
    requires Sorted(mcs) && |mcs| >= 2 && idx + 1 < |mcs| && IsRange(mcs, idx, i, j)
    ensures idx in Ids(Root(mcs)) && 0 <= i < j < |mcs|
    ensures var v := Sub(Root(mcs), idx);
            var g := Leftmost(Splits(mcs), i, j);
            && Lo(v) == i && Hi(v) == j
            && (if i == g then v.left == Leaf(g) else v.left.Trunk? && v.left.id == g)
            && (if g + 1 == j then v.right == Leaf(j) else v.right.Trunk? && v.right.id == g + 1)
  {
    hide Leftmost, Splits, IsRange;
    var s := Splits(mcs);
    RootTree(mcs);
    SplitsBounded(mcs, s);
    NodeRange(mcs, s, 0, |mcs| - 1, 0, idx, i, j);
    ChildNumbers(s, 0, |mcs| - 1, 0, idx);
  }

  // What the arrays hold after the bodies in `done` have run, array by array.

  ghost predicate RangesDone(t: Tree, done: set<nat>, tLs: seq<int>, tRs: seq<int>)
  {
    forall id: nat :: id in done && id in Ids(t) && id < |tLs| == |tRs| ==>
      tLs[id] == Lo(Sub(t, id)) && tRs[id] == Hi(Sub(t, id))
  }

  ghost predicate ChildrenDone(t: Tree, done: set<nat>, numTrunk: nat, tLcs: seq<int>, tRcs: seq<int>)
  {
    forall id: nat :: id in done && id in Ids(t) && id < |tLcs| == |tRcs| ==>
      tLcs[id] == Ref(Sub(t, id).left, numTrunk) && tRcs[id] == Ref(Sub(t, id).right, numTrunk)
  }

  ghost predicate ParentsDone(t: Tree, done: set<nat>, tPars: seq<int>)
    requires t.Trunk?
  {
    forall c: nat :: c in Ids(t) && c < |tPars| ==>
      var p := TrunkParent(t, c);
      (if p == -1 then t.id in done else p >= 0 && p as nat in done) ==> tPars[c] == p
  }

  ghost predicate LeafParentsDone(t: Tree, done: set<nat>, lPars: seq<int>)
  {
    forall k: nat :: Lo(t) <= k <= Hi(t) && k < |lPars| ==>
      var p := LeafParent(t, k);
      p >= 0 && p as nat in done ==> lPars[k] == p
  }

  ghost predicate DepthsDone(t: Tree, done: set<nat>, lDepths: seq<int>)
  {
    forall k: nat :: Lo(t) <= k <= Hi(t) && k < |lDepths| ==>
      lDepths[k] == 1 + |ChainIds(t, k) * done|
  }

  // The writes of one body to the parent arrays and to the depth counters.

  /** A sequence with an entry written if the flag says so. */
  function Marked(s: seq<int>, on: bool, k: nat, x: int): (r: seq<int>)
    requires on ==> k < |s|
    ensures |r| == |s|
  {
    if on then s[k := x] else s
  }

  function TrunkParentWrites(s: seq<int>, v: Tree): seq<int>
    requires v.Trunk? && v.id < |s|
    requires v.left.Trunk? ==> v.left.id < |s|
    requires v.right.Trunk? ==> v.right.id < |s|
  {
    var s1 := if v.left.Trunk? then s[v.left.id := v.id] else s;
    var s2 := if v.right.Trunk? then s1[v.right.id := v.id] else s1;
    if v.id == 0 then s2[0 := -1] else s2
  }

  function LeafParentWrites(s: seq<int>, v: Tree): seq<int>
    requires v.Trunk?
    requires v.left.Leaf? ==> v.left.at < |s|
    requires v.right.Leaf? ==> v.right.at < |s|
  {
    var s1 := if v.left.Leaf? then s[v.left.at := v.id] else s;
    if v.right.Leaf? then s1[v.right.at := v.id] else s1
  }

  lemma ParentsStep(t: Tree, done: set<nat>, p: nat, tPars: seq<int>)
    requires t.Trunk? && t.id == 0 && Consecutive(t) && UniqueIds(t) && p in Ids(t)
    requires forall id: nat :: id in Ids(t) <==> id < |tPars|
    requires ParentsDone(t, done, tPars)
    ensures var v := Sub(t, p);
            && (v.left.Trunk? ==> v.left.id < |tPars|)
            && (v.right.Trunk? ==> v.right.id < |tPars|)
            && ParentsDone(t, done + {p}, TrunkParentWrites(tPars, v))
  {
    var v := Sub(t, p);
    OwnerIsParent(t, p);
    var after := TrunkParentWrites(tPars, v);
    forall c: nat | c in Ids(t)
      ensures var q := TrunkParent(t, c);
              (if q == -1 then t.id in done + {p} else q >= 0 && q as nat in done + {p}) ==> after[c] == q
    {
      ParentIsOwner(t, c);
    }
  }

  lemma LeafParentsStep(t: Tree, done: set<nat>, p: nat, lPars: seq<int>)
    requires t.Trunk? && Consecutive(t) && UniqueIds(t) && p in Ids(t)
    requires Lo(t) == 0 && Hi(t) == |lPars| - 1
    requires LeafParentsDone(t, done, lPars)
    ensures var v := Sub(t, p);
            && (v.left.Leaf? ==> v.left.at < |lPars|)
            && (v.right.Leaf? ==> v.right.at < |lPars|)
            && LeafParentsDone(t, done + {p}, LeafParentWrites(lPars, v))
  {
    var v := Sub(t, p);
    SubInside(t, p);
    Extent(v.left);
    Extent(v.right);
    OwnerIsLeafParent(t, p);
    var after := LeafParentWrites(lPars, v);
    forall k: nat | k <= Hi(t)
      ensures var q := LeafParent(t, k); q >= 0 && q as nat in done + {p} ==> after[k] == q
    {
      LeafParentIsOwner(t, k);
    }
  }

  lemma ChainStep(t: Tree, l: nat, done: set<nat>, p: nat)
    requires UniqueIds(t) && p in Ids(t) && p !in done
    ensures |ChainIds(t, l) * (done + {p})|
         == |ChainIds(t, l) * done| + if Lo(Sub(t, p)) == l then 1 else 0
  {
    ChainIdsMeaning(t, l, p);
    var c := ChainIds(t, l);
    if p in c {
      assert c * (done + {p}) == c * done + {p};
    } else {
      assert c * (done + {p}) == c * done;
    }
  }

  lemma DepthsStep(t: Tree, done: set<nat>, p: nat, lDepths: seq<int>)
    requires Consecutive(t) && UniqueIds(t) && p in Ids(t) && p !in done
    requires Lo(t) == 0 && Hi(t) < |lDepths|
    requires DepthsDone(t, done, lDepths)
    ensures var k := Lo(Sub(t, p));
            k <= Hi(t) && DepthsDone(t, done + {p}, lDepths[k := lDepths[k] + 1])
  {
    hide ChainIds, Sub, UniqueIds, Consecutive;
    SubInside(t, p);
    var k := Lo(Sub(t, p));
    var after := lDepths[k := lDepths[k] + 1];
    forall l: nat | l <= Hi(t)
      ensures after[l] == 1 + |ChainIds(t, l) * (done + {p})|
    {
      ChainStep(t, l, done, p);
    }
  }

  /** The scratch arrays of `build`, with the sorted codes they are computed from. */
  class Topology {
    const mcs: seq<Code>
    const tPars: array<int>
    const tLcs: array<int>
    const tRcs: array<int>
    const tLs: array<int>
    const tRs: array<int>
    const lPars: array<int>
    const lDepths: array<int>

    ghost predicate Valid()
    {
      && Sorted(mcs) && |mcs| >= 3
      && tPars.Length == tLcs.Length == tRcs.Length == tLs.Length == tRs.Length == |mcs| - 1
      && lPars.Length == |mcs| && lDepths.Length == |mcs| + 1
      && tPars != tLcs && tPars != tRcs && tPars != tLs && tPars != tRs && tPars != lPars
      && tLcs != tRcs && tLcs != tLs && tLcs != tRs && tLcs != lPars
      && tRcs != tLs && tRcs != tRs && tRcs != lPars
      && tLs != tRs && tLs != lPars && tRs != lPars
      && lDepths != tPars && lDepths != tLcs && lDepths != tRcs && lDepths != tLs
      && lDepths != tRs && lDepths != lPars
    }

    constructor (mcs: seq<Code>)
      requires Sorted(mcs) && |mcs| >= 3
      ensures Valid() && this.mcs == mcs
      ensures fresh(tPars) && fresh(tLcs) && fresh(tRcs) && fresh(tLs) && fresh(tRs)
      ensures fresh(lPars) && fresh(lDepths)
    {
      this.mcs := mcs;
      tPars := new int[|mcs| - 1];
      tLcs := new int[|mcs| - 1];
      tRcs := new int[|mcs| - 1];
      tLs := new int[|mcs| - 1];
      tRs := new int[|mcs| - 1];
      lPars := new int[|mcs|];
      lDepths := new int[|mcs| + 1];
    }

    /** What is known once the bodies of all trunk nodes in `done` have run. */
    ghost predicate Done(done: set<nat>)
      requires Valid()
      reads tPars, tLcs, tRcs, tLs, tRs, lPars, lDepths
    {
      var t := Root(mcs);
      && RangesDone(t, done, tLs[..], tRs[..])
      && ChildrenDone(t, done, |mcs| - 1, tLcs[..], tRcs[..])
      && (t.Trunk? ==> ParentsDone(t, done, tPars[..]))
      && LeafParentsDone(t, done, lPars[..])
      && DepthsDone(t, done, lDepths[..])
      && lDepths[|mcs|] == 0
    }

    /** `_build_init_depths`: one node, the leaf itself, starts at every leaf. */
    method InitDepths()
      requires Valid()
      modifies lDepths
      ensures forall k :: 0 <= k < |mcs| ==> lDepths[k] == 1
      ensures lDepths[|mcs|] == 0
    {
      for k := 0 to |mcs|
        invariant forall p :: 0 <= p < k ==> lDepths[p] == 1
        invariant k > 0 ==> lDepths[|mcs|] == 0
      {
        lDepths[k] := 1;
        if k == 0 {
          lDepths[|mcs|] := 0;
        }
      }
    }

    /** `_build_build_topo` for trunk node `idx`. */
    method BuildTopo(idx: nat)
      requires Valid() && idx < |mcs| - 1
      modifies tPars, tLcs, tRcs, tLs, tRs, lPars, lDepths
      ensures idx in Ids(Root(mcs))
      ensures var v := Sub(Root(mcs), idx);
              && (v.left.Trunk? ==> v.left.id < |mcs| - 1) && (v.right.Trunk? ==> v.right.id < |mcs| - 1)
              && (v.left.Leaf? ==> v.left.at < |mcs|) && (v.right.Leaf? ==> v.right.at < |mcs|)
              && Lo(v) < |mcs|
              && tLs[..] == old(tLs[..])[idx := Lo(v)]
              && tRs[..] == old(tRs[..])[idx := Hi(v)]
              && tLcs[..] == old(tLcs[..])[idx := Ref(v.left, |mcs| - 1)]
              && tRcs[..] == old(tRcs[..])[idx := Ref(v.right, |mcs| - 1)]
              && tPars[..] == TrunkParentWrites(old(tPars[..]), v)
              && lPars[..] == LeafParentWrites(old(lPars[..]), v)
              && lDepths[..] == old(lDepths[..])[Lo(v) := old(lDepths[Lo(v)]) + 1]
    {
      hide Leftmost, Splits, IsRange, Root, Sub, Ids, Lo, Hi, Sorted;
      var i, j := FindRange(mcs, idx);
      NodeFound(mcs, idx, i, j);
      lDepths[i] := lDepths[i] + 1;
      tLs[idx] := i;
      tRs[idx] := j;
      var gamma := FindSplit(mcs, i, j);
      tLcs[idx] := gamma;
      tRcs[idx] := gamma + 1;
      var mi := if i < j then i else j;
      var ma := if i > j then i else j;
      LinkChildren(idx, gamma, mi == gamma, ma == gamma + 1);
    }

    /** The parent links of the two children of node `idx`, and the marks of leaf children. */
    method LinkChildren(idx: nat, gamma: nat, leftLeaf: bool, rightLeaf: bool)
      requires Valid() && idx < |mcs| - 1 && gamma + 1 < |mcs| && (!rightLeaf ==> gamma + 1 < |mcs| - 1)
      modifies tPars, tLcs, tRcs, lPars
      ensures tLcs[..] == old(tLcs[..])[idx := if leftLeaf then old(tLcs[idx]) + (|mcs| - 1) else old(tLcs[idx])]
      ensures tRcs[..] == old(tRcs[..])[idx := if rightLeaf then old(tRcs[idx]) + (|mcs| - 1) else old(tRcs[idx])]
      ensures lPars[..] == Marked(Marked(old(lPars[..]), leftLeaf, gamma, idx), rightLeaf, gamma + 1, idx)
      ensures tPars[..] == Marked(Marked(Marked(old(tPars[..]), !leftLeaf, gamma, idx), !rightLeaf, gamma + 1, idx),
              idx == 0, 0, -1)
    {
      var numTrunk := |mcs| - 1;
      if leftLeaf {
        lPars[gamma] := idx;
        tLcs[idx] := tLcs[idx] + numTrunk;
      } else {
        tPars[gamma] := idx;
      }
      if rightLeaf {
        lPars[gamma + 1] := idx;
        tRcs[idx] := tRcs[idx] + numTrunk;
      } else {
        tPars[gamma + 1] := idx;
      }
      if idx == 0 {
        tPars[0] := -1;
      }
    }

    /** One body after those in `done`. */
    method BuildNext(idx: nat, ghost done: set<nat>)
      requires Valid() && idx < |mcs| - 1 && idx !in done && Root(mcs).Trunk? && Done(done)
      modifies tPars, tLcs, tRcs, tLs, tRs, lPars, lDepths
      ensures Done(done + {idx})
    {
      hide Root, TrunkParentWrites, LeafParentWrites, ParentsDone, LeafParentsDone, DepthsDone, ChainIds, Sub, Ids;
      RootTree(mcs);
      ghost var t := Root(mcs);
      ParentsStep(t, done, idx, tPars[..]);
      LeafParentsStep(t, done, idx, lPars[..]);
      assert lDepths[..][|mcs|] == 0;
      DepthsStep(t, done, idx, lDepths[..]);
      BuildTopo(idx);
      assert lDepths[..][|mcs|] == 0;
    }

    /** `build` up to the scan: the bodies of all trunk nodes run in any order. */
    method BuildAll(order: seq<nat>)
      requires Valid() && Schedule(order, |mcs| - 1)
      modifies tPars, tLcs, tRcs, tLs, tRs, lPars, lDepths
      ensures Recorded(Root(mcs), |mcs|, tPars[..], tLcs[..], tRcs[..], tLs[..], tRs[..], lPars[..], lDepths[..])
    {
      hide Root, ParentsDone, LeafParentsDone, DepthsDone, RangesDone, ChildrenDone, ChainIds, Sub, Ids, Recorded;
      InitDepths();
      RootTree(mcs);
      NothingDone(mcs, tLs[..], tRs[..], tLcs[..], tRcs[..], tPars[..], lPars[..], lDepths[..]);
      ghost var done := {};
      for k := 0 to |order|
        invariant forall p: nat :: p in done <==> p in order[..k]
        invariant Done(done)
      {
        assert order[k] !in order[..k];
        BuildNext(order[k], done);
        done := done + {order[k]};
      }
      assert order[..|order|] == order;
      AllDone(mcs, done, tLs[..], tRs[..], tLcs[..], tRcs[..], tPars[..], lPars[..], lDepths[..]);
    }
  }

  lemma NothingDone(mcs: seq<Code>, tLs: seq<int>, tRs: seq<int>, tLcs: seq<int>, tRcs: seq<int>,
                    tPars: seq<int>, lPars: seq<int>, lDepths: seq<int>)
    requires |mcs| >= 2 && Root(mcs).Trunk?
    requires |lDepths| == |mcs| + 1 && forall k :: 0 <= k < |mcs| ==> lDepths[k] == 1
    ensures RangesDone(Root(mcs), {}, tLs, tRs)
    ensures ChildrenDone(Root(mcs), {}, |mcs| - 1, tLcs, tRcs)
    ensures ParentsDone(Root(mcs), {}, tPars)
    ensures LeafParentsDone(Root(mcs), {}, lPars)
    ensures DepthsDone(Root(mcs), {}, lDepths)
  {
    RootTree(mcs);
    var t := Root(mcs);
    forall k: nat | k < |mcs|
      ensures lDepths[k] == 1 + |ChainIds(t, k) * {}|
    {
      assert ChainIds(t, k) * {} == {};
    }
  }

  lemma AllDone(mcs: seq<Code>, done: set<nat>, tLs: seq<int>, tRs: seq<int>, tLcs: seq<int>, tRcs: seq<int>,
                tPars: seq<int>, lPars: seq<int>, lDepths: seq<int>)
    requires |mcs| >= 3 && Root(mcs).Trunk?
    requires forall id: nat :: id < |mcs| - 1 ==> id in done
    requires |tPars| == |tLcs| == |tRcs| == |tLs| == |tRs| == |mcs| - 1
    requires |lPars| == |mcs| && |lDepths| == |mcs| + 1 && lDepths[|mcs|] == 0
    requires RangesDone(Root(mcs), done, tLs, tRs)
    requires ChildrenDone(Root(mcs), done, |mcs| - 1, tLcs, tRcs)
    requires ParentsDone(Root(mcs), done, tPars)
    requires LeafParentsDone(Root(mcs), done, lPars)
    requires DepthsDone(Root(mcs), done, lDepths)
    ensures Recorded(Root(mcs), |mcs|, tPars, tLcs, tRcs, tLs, tRs, lPars, lDepths)
  {
    hide Root, Sub, ChainIds, TrunkParent, LeafParent, Top, ParentsDone, LeafParentsDone, DepthsDone, Consecutive,
        UniqueIds, Ids, Lo, Hi, Ref, Level;
    RootTree(mcs);
    var t := Root(mcs);
    forall k: nat | k < |mcs|
      ensures lPars[k] == LeafParent(t, k) && lDepths[k] == 1 + Level(Top(t, k))
    {
      LeafDone(t, |mcs|, done, lPars, lDepths, k);
    }
    forall c: nat | c in Ids(t)
      ensures tPars[c] == TrunkParent(t, c)
    {
      TrunkDone(t, |mcs|, done, tPars, c);
    }
  }

  lemma LeafDone(t: Tree, n: nat, done: set<nat>, lPars: seq<int>, lDepths: seq<int>, k: nat)
    requires t.Trunk? && Consecutive(t) && UniqueIds(t) && Lo(t) == 0 && Hi(t) == n - 1 && k < n
    requires forall id: nat :: id in Ids(t) ==> id in done
    requires |lPars| == n && |lDepths| == n + 1 && LeafParentsDone(t, done, lPars) && DepthsDone(t, done, lDepths)
    ensures lPars[k] == LeafParent(t, k) && lDepths[k] == 1 + Level(Top(t, k))
  {
    hide Consecutive, UniqueIds, Ids, Lo, Hi, Level, ChainIds, LeafParent, Top, Sub;
    LeafParentIsOwner(t, k);
    ChainWithin(t, k);
    assert ChainIds(t, k) * done == ChainIds(t, k);
    ChainLength(t, k);
  }

  lemma TrunkDone(t: Tree, n: nat, done: set<nat>, tPars: seq<int>, c: nat)
    requires t.Trunk? && Consecutive(t) && UniqueIds(t) && c in Ids(t)
    requires forall id: nat :: id in Ids(t) <==> id < n - 1
    requires forall id: nat :: id in Ids(t) ==> id in done
    requires |tPars| == n - 1 && ParentsDone(t, done, tPars)
    ensures tPars[c] == TrunkParent(t, c)
  {
    ParentIsOwner(t, c);
    assert t.id in Ids(t);
    hide Consecutive, UniqueIds, Ids, TrunkParent, Sub;
  }
}
