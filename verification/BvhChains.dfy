/** Left chains: the trunk nodes that start at the same leaf, one below the other. */
module BvhChains {
  import opened BvhTrees

  /** The topmost node that starts at leaf `k`. */
  function Top(t: Tree, k: nat): Tree
  {
    if t.Leaf? || k == Lo(t) then t
    else if k <= Hi(t.left) then Top(t.left, k)
    else Top(t.right, k)
  }

  /** The node `steps` above the leaf that ends the left chain of `c`. */
  function Link(c: Tree, steps: nat): (r: Tree)
    requires steps <= Level(c)
    ensures r.Trunk? <==> steps > 0
  {
    if steps == Level(c) then c else Link(c.left, steps)
  }

  lemma LinkEnds(c: Tree)
    ensures Link(c, Level(c)) == c
    ensures Level(c) == 0 <==> c.Leaf?
  {
  }

  /** Climbing from a leaf through parents follows the left chain that ends at it. */
  lemma {:induction false} LinkOf(t: Tree, k: nat, steps: nat)
    requires Consecutive(t) && UniqueIds(t) && Lo(t) <= k <= Hi(t)
    requires 1 <= steps <= Level(Top(t, k))
    ensures var a := Link(Top(t, k), steps);
            && a.Trunk? && a.id in Ids(t) && Sub(t, a.id) == a && Lo(a) == k && Level(a) == steps
            && (steps < Level(Top(t, k)) ==> TrunkParent(t, a.id) == Link(Top(t, k), steps + 1).id)
    ensures LeafParent(t, k) == Link(Top(t, k), 1).id
  {
    Extent(t.left);
    Extent(t.right);
    if k <= Hi(t.left) {
      if k == Lo(t) {
        assert Top(t.left, k) == t.left;
        if steps < Level(t) {
          LinkOf(t.left, k, steps);
        } else if steps > 1 {
          LinkOf(t.left, k, steps - 1);
        }
      } else {
        LinkOf(t.left, k, steps);
      }
    } else {
      LinkOf(t.right, k, steps);
    }
  }

  /** A trunk node is the link of its level on the chain of its first leaf. */
  lemma {:induction false} LinkIs(t: Tree, id: nat)
    requires Consecutive(t) && UniqueIds(t) && id in Ids(t)
    ensures var v := Sub(t, id);
            && Lo(t) <= Lo(v) <= Hi(t)
            && 1 <= Level(v) <= Level(Top(t, Lo(v)))
            && v == Link(Top(t, Lo(v)), Level(v))
  {
    Extent(t.left);
    Extent(t.right);
    if id in Ids(t.left) && id != t.id {
      LinkIs(t.left, id);
      if Lo(Sub(t, id)) == Lo(t) {
        assert Top(t.left, Lo(t)) == t.left;
      }
    } else if id != t.id {
      LinkIs(t.right, id);
    }
  }

  /** The trunk nodes that start at leaf `k`. */
  function ChainIds(t: Tree, k: nat): set<nat>
  {
    if t.Leaf? then {}
    else (if Lo(t) == k then {t.id} else {}) + ChainIds(t.left, k) + ChainIds(t.right, k)
  }

  lemma {:induction false} ChainIdsMeaning(t: Tree, k: nat, id: nat)
    requires UniqueIds(t)
    ensures id in ChainIds(t, k) <==> id in Ids(t) && Lo(Sub(t, id)) == k
  {
    if t.Trunk? {
      ChainIdsMeaning(t.left, k, id);
      ChainIdsMeaning(t.right, k, id);
    }
  }

  lemma {:induction false} ChainOutside(t: Tree, k: nat)
    requires Consecutive(t) && (k < Lo(t) || Hi(t) < k)
    ensures ChainIds(t, k) == {}
  {
    Extent(t);
    if t.Trunk? {
      Extent(t.left);
      Extent(t.right);
      ChainOutside(t.left, k);
      ChainOutside(t.right, k);
    }
  }

  lemma {:induction false} ChainWithin(t: Tree, k: nat)
    ensures ChainIds(t, k) <= Ids(t)
  {
    if t.Trunk? {
      ChainWithin(t.left, k);
      ChainWithin(t.right, k);
    }
  }

  lemma {:induction false} TopStart(t: Tree, k: nat)
    requires Consecutive(t) && Lo(t) <= k <= Hi(t)
    ensures var c := Top(t, k);
            Consecutive(c) && Lo(c) == k && Hi(c) <= Hi(t)
  {
    if t.Trunk? {
      Extent(t.left);
      Extent(t.right);
      if k <= Hi(t.left) {
        TopStart(t.left, k);
      } else {
        TopStart(t.right, k);
      }
    }
  }

  lemma {:induction false} FrontChain(t: Tree)
    requires Consecutive(t) && UniqueIds(t)
    ensures |ChainIds(t, Lo(t))| == Level(t)
  {
    if t.Trunk? {
      Extent(t.left);
      ChainOutside(t.right, Lo(t));
      ChainWithin(t.left, Lo(t));
      FrontChain(t.left);
      var (a, b) := (ChainIds(t.left, Lo(t)), ChainIds(t.right, Lo(t)));
      assert ChainIds(t, Lo(t)) == {t.id} + a + b;
      assert {t.id} + a + b == {t.id} + a;
      assert t.id !in a;
    }
  }

  /** The chain that starts at leaf `k` is exactly the left chain below its topmost node. */
  lemma {:induction false} ChainLength(t: Tree, k: nat)
    requires Consecutive(t) && UniqueIds(t) && Lo(t) <= k <= Hi(t)
    ensures |ChainIds(t, k)| == Level(Top(t, k))
  {
    if t.Leaf? || k == Lo(t) {
      FrontChain(t);
    } else if k <= Hi(t.left) {
      Extent(t.right);
      ChainOutside(t.right, k);
      assert ChainIds(t, k) == ChainIds(t.left, k);
      ChainLength(t.left, k);
    } else {
      ChainOutside(t.left, k);
      assert ChainIds(t, k) == ChainIds(t.right, k);
      ChainLength(t.right, k);
    }
  }

  /** The scratch arrays describe the tree `t` over `n` leaves: numbers and leaves are used
      once each, ranges, parents and children are those of the tree, and the counter of a leaf
      is one more than the number of trunk nodes that start there. */
  ghost predicate Recorded(t: Tree, n: nat, tPars: seq<int>, tLcs: seq<int>, tRcs: seq<int>,
                           tLs: seq<int>, tRs: seq<int>, lPars: seq<int>, lDepths: seq<int>)
  {
    && t.Trunk? && Consecutive(t) && UniqueIds(t) && Lo(t) == 0 && Hi(t) == n - 1
    && (forall id: nat :: id in Ids(t) <==> id < n - 1)
    && |tPars| == |tLcs| == |tRcs| == |tLs| == |tRs| == n - 1 && |lPars| == n && |lDepths| == n + 1
    && (forall id: nat :: id in Ids(t) ==> tPars[id] == TrunkParent(t, id))
    && (forall id: nat :: id in Ids(t) ==> tLs[id] == Lo(Sub(t, id)) && tRs[id] == Hi(Sub(t, id)))
    && (forall id: nat :: id in Ids(t) ==>
         tLcs[id] == Ref(Sub(t, id).left, n - 1) && tRcs[id] == Ref(Sub(t, id).right, n - 1))
    && (forall k: nat :: k < n ==> lPars[k] == LeafParent(t, k))
    && (forall k: nat :: k < n ==> lDepths[k] == 1 + Level(Top(t, k)))
    && lDepths[n] == 0
  }
}
