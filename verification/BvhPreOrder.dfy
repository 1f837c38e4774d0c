/** The pre-order sequence of a tree, and where the prefix sums of the chain lengths put its
    nodes. */
module BvhPreOrder {
  import opened BvhTrees
  import opened BvhChains

  function PreOrder(t: Tree): (r: seq<Tree>)
    ensures |r| == Size(t)
  {
    match t
    case Leaf(_) => [t]
    case Trunk(_, l, r) => [t] + PreOrder(l) + PreOrder(r)
  }

  lemma PreOrderAt(t: Tree, p: nat)
    requires p < Size(t)
    ensures PreOrder(t)[p] ==
            if p == 0 then t
            else if p <= Size(t.left) then PreOrder(t.left)[p - 1]
            else PreOrder(t.right)[p - 1 - Size(t.left)]
  {
  }

  lemma PreOrderParts(t: Tree)
    requires t.Trunk?
    ensures PreOrder(t)[1..1 + Size(t.left)] == PreOrder(t.left)
    ensures PreOrder(t)[1 + Size(t.left)..] == PreOrder(t.right)
  {
  }

  lemma SliceOf<T>(s: seq<T>, a: nat, part: seq<T>, i: nat, j: nat)
    requires a + |part| <= |s| && s[a..a + |part|] == part && i <= j <= |part|
    ensures part[i..j] == s[a + i..a + j]
  {
    forall k | 0 <= k < j - i
      ensures part[i..j][k] == s[a + i..a + j][k]
    {
      assert s[a..a + |part|][i + k] == part[i + k];
    }
  }

  /** Sum of the first `k` counters: what an exclusive scan stores at `k`. */
  function ScanSum(s: seq<int>, k: nat): int
  {
    if k == 0 then 0 else ScanSum(s, k - 1) + if k <= |s| then s[k - 1] else 0
  }

  lemma ScanStep(s: seq<int>, k: nat)
    requires k < |s|
    ensures ScanSum(s, k + 1) == ScanSum(s, k) + s[k]
  {
  }

  /** The counters between the ends of a node count the trunk nodes inside it. */
  ghost predicate Counted(t: Tree, d: seq<int>)
  {
    && Lo(t) < |d| && Hi(t) < |d|
    && forall k: nat :: Lo(t) < k <= Hi(t) ==> d[k] == 1 + Level(Top(t, k))
  }

  lemma CountedChildren(t: Tree, d: seq<int>)
    requires t.Trunk? && Consecutive(t) && Counted(t, d)
    ensures Counted(t.left, d) && Counted(t.right, d)
    ensures Lo(t.right) < |d| && d[Lo(t.right)] == 1 + Level(t.right)
  {
    Extent(t.left);
    Extent(t.right);
    assert Top(t, Lo(t.right)) == Top(t.right, Lo(t.right)) == t.right;
    forall k: nat | Lo(t.left) < k <= Hi(t.left)
      ensures d[k] == 1 + Level(Top(t.left, k))
    {
      assert Top(t, k) == Top(t.left, k);
    }
    forall k: nat | Lo(t.right) < k <= Hi(t.right)
      ensures d[k] == 1 + Level(Top(t.right, k))
    {
      assert Top(t, k) == Top(t.right, k);
    }
  }

  lemma {:induction false} ChainSum(t: Tree, d: seq<int>)
    requires Consecutive(t) && Counted(t, d)
    ensures ScanSum(d, Hi(t) + 1) == ScanSum(d, Lo(t) + 1) + Size(t) - Level(t) - 1
  {
    if t.Trunk? {
      Extent(t.left);
      Extent(t.right);
      CountedChildren(t, d);
      ChainSum(t.left, d);
      ChainSum(t.right, d);
      assert ScanSum(d, Lo(t.right) + 1) == ScanSum(d, Hi(t.left) + 1) + d[Lo(t.right)];
    }
  }

  /** `t` stands at `base`: its left chain ends at the last place of its first leaf. */
  ghost predicate StandsAt(t: Tree, d: seq<int>, base: int)
  {
    Consecutive(t) && Counted(t, d) && base + Level(t) + 1 == ScanSum(d, Lo(t) + 1)
  }

  lemma ChildrenStand(t: Tree, d: seq<int>, base: int)
    requires t.Trunk? && StandsAt(t, d, base)
    ensures StandsAt(t.left, d, base + 1)
    ensures StandsAt(t.right, d, base + 1 + Size(t.left))
    ensures Lo(t) == Lo(t.left) <= Hi(t.left) < Lo(t.right) <= Hi(t.right) == Hi(t)
  {
    hide Counted;
    CountedChildren(t, d);
    Extent(t.left);
    Extent(t.right);
    ChainSum(t.left, d);
    ScanStep(d, Lo(t.right));
  }

  /** Where a node at `p` in pre-order stands, and where the nodes after its subtree do. */
  lemma {:induction false} PlaceOf(t: Tree, d: seq<int>, base: int, p: nat)
    requires StandsAt(t, d, base) && p < Size(t)
    ensures var v := PreOrder(t)[p];
            && StandsAt(v, d, base + p) && Lo(t) <= Lo(v) <= Hi(v) <= Hi(t)
            && base + p + Size(v) == ScanSum(d, Hi(v) + 1)
  {
    hide PreOrder, ScanSum, Consecutive;
    PreOrderAt(t, p);
    if p == 0 {
      Extent(t);
      ChainSum(t, d);
    } else {
      hide StandsAt;
      ChildrenStand(t, d, base);
      if p <= Size(t.left) {
        PlaceOf(t.left, d, base + 1, p - 1);
      } else {
        PlaceOf(t.right, d, base + 1 + Size(t.left), p - 1 - Size(t.left));
      }
    }
  }

  lemma SizeIs(t: Tree)
    ensures if t.Leaf? then Size(t) == 1 else Size(t) == 1 + Size(t.left) + Size(t.right)
    ensures Size(t) >= 1
  {
  }

  /** The nodes below `v` follow `v` in pre-order, and `v` is followed by its left child. */
  lemma {:induction false} Block(t: Tree, p: nat)
    requires p < Size(t)
    ensures var nodes := PreOrder(t); var v := nodes[p];
            && p + Size(v) <= Size(t)
            && nodes[p..p + Size(v)] == PreOrder(v)
  {
    hide PreOrder, Size;
    SizeIs(t);
    PreOrderAt(t, p);
    var nodes := PreOrder(t);
    if p == 0 {
      assert nodes[0..|nodes|] == nodes;
    } else if p <= Size(t.left) {
      Block(t.left, p - 1);
      PreOrderParts(t);
      InPart(nodes, 1, PreOrder(t.left), p - 1, Size(nodes[p]));
    } else {
      Block(t.right, p - 1 - Size(t.left));
      PreOrderParts(t);
      InPart(nodes, 1 + Size(t.left), PreOrder(t.right), p - 1 - Size(t.left), Size(nodes[p]));
    }
  }

  /** A block of a part is the block of the whole that far behind. */
  lemma InPart<T>(s: seq<T>, a: nat, part: seq<T>, i: nat, n: nat)
    requires a + |part| <= |s| && s[a..a + |part|] == part && i + n <= |part|
    ensures s[a + i..a + i + n] == part[i..i + n]
  {
    SliceOf(s, a, part, i, i + n);
  }

  lemma BlockChildren(t: Tree, p: nat)
    requires p < Size(t) && PreOrder(t)[p].Trunk?
    ensures var nodes := PreOrder(t); var v := nodes[p];
            && p + 1 + Size(v.left) < Size(t)
            && nodes[p + 1] == v.left && nodes[p + 1 + Size(v.left)] == v.right
  {
    hide PreOrder, Size;
    Block(t, p);
    var nodes := PreOrder(t);
    var v := nodes[p];
    var b := PreOrder(v);
    Kids(v);
    assert nodes[p + 1] == b[1];
    assert nodes[p + 1 + Size(v.left)] == b[1 + Size(v.left)];
  }

  lemma Kids(v: Tree)
    requires v.Trunk?
    ensures 1 + Size(v.left) < Size(v) && Size(v.left) >= 1
    ensures PreOrder(v)[1] == v.left && PreOrder(v)[1 + Size(v.left)] == v.right
  {
    assert PreOrder(v.left)[0] == v.left && PreOrder(v.right)[0] == v.right;
  }

  /** Every node of the tree is at exactly one place of its pre-order. */
  lemma {:induction false} PlaceOfTrunk(t: Tree, id: nat) returns (p: nat)
    requires id in Ids(t)
    ensures p < Size(t) && PreOrder(t)[p] == Sub(t, id)
  {
    if t.id == id {
      p := 0;
    } else if id in Ids(t.left) {
      var q := PlaceOfTrunk(t.left, id);
      p := 1 + q;
    } else {
      var q := PlaceOfTrunk(t.right, id);
      p := 1 + Size(t.left) + q;
    }
  }

  lemma {:induction false} PlaceOfLeaf(t: Tree, k: nat) returns (p: nat)
    requires Consecutive(t) && Lo(t) <= k <= Hi(t)
    ensures p < Size(t) && PreOrder(t)[p] == Leaf(k)
  {
    if t.Leaf? {
      p := 0;
    } else {
      Extent(t.left);
      Extent(t.right);
      if k <= Hi(t.left) {
        var q := PlaceOfLeaf(t.left, k);
        p := 1 + q;
      } else {
        var q := PlaceOfLeaf(t.right, k);
        p := 1 + Size(t.left) + q;
      }
    }
  }

  lemma {:induction false} NodeNumbered(t: Tree, p: nat)
    requires UniqueIds(t) && p < Size(t) && PreOrder(t)[p].Trunk?
    ensures var v := PreOrder(t)[p]; v.id in Ids(t) && Sub(t, v.id) == v
  {
    if p > 0 {
      if p <= Size(t.left) {
        NodeNumbered(t.left, p - 1);
      } else {
        NodeNumbered(t.right, p - 1 - Size(t.left));
      }
    }
  }
}
