/** The Cartesian tree of the splits, as tables over node references: trunk nodes `0..n-1` by
    split position, then the `n` leaves. */
module BvhShape {
  import opened BvhTrees
  import opened BvhChains
  import opened BvhSplits

  datatype Shape = Shape(n: nat, lo: seq<int>, hi: seq<int>, level: seq<int>,
                         lch: seq<int>, rch: seq<int>, par: seq<int>)

  /** Where the code looks for the parent of a finished range: the smaller of the two splits
      next to it, the right one on a tie. */
  predicate IsRightChild(s: seq<int>, lo: int, hi: int)
  {
    0 < lo <= |s| && 0 <= hi < |s| && s[lo - 1] < s[hi]
  }

  ghost predicate Linked(h: Shape, s: seq<int>)
  {
    var m := 2 * h.n - 1;
    && h.n >= 2 && |s| == h.n
    && |h.lo| == |h.hi| == |h.level| == |h.lch| == |h.rch| == |h.par| == m
    && (forall x :: 0 <= x < m ==> NodeLinked(h, s, x))
    && (forall u :: 0 <= u < h.n - 1 ==> TrunkLinked(h, u))
    && (forall k :: h.n - 1 <= k < m ==> h.lo[k] == h.hi[k] == k - (h.n - 1) && h.level[k] == 0)
    && (forall u, v :: 0 <= u < v < h.n - 1 && h.lo[u] == h.lo[v] ==> h.level[u] != h.level[v])
  }

  ghost predicate NodeLinked(h: Shape, s: seq<int>, x: int)
    requires |h.lo| == |h.hi| == |h.level| == |h.lch| == |h.rch| == |h.par| == 2 * h.n - 1 && 0 <= x < 2 * h.n - 1
  {
    && 0 <= h.lo[x] <= h.hi[x] < h.n
    && (h.par[x] == -1 <==> h.lo[x] == 0 && h.hi[x] == h.n - 1)
    && (h.par[x] != -1 ==>
          var u := h.par[x];
          && 0 <= u < h.n - 1
          && if IsRightChild(s, h.lo[x], h.hi[x]) then h.rch[u] == x && u == h.lo[x] - 1 && h.lch[u] != x
             else h.lch[u] == x && u == h.hi[x] && h.rch[u] != x)
  }

  ghost predicate TrunkLinked(h: Shape, u: int)
    requires |h.lo| == |h.hi| == |h.level| == |h.lch| == |h.rch| == |h.par| == 2 * h.n - 1 && 0 <= u < h.n - 1
  {
    var (l, r) := (h.lch[u], h.rch[u]);
    && 0 <= l < 2 * h.n - 1 && 0 <= r < 2 * h.n - 1 && l != r && l != u && r != u
    && h.par[l] == u && h.par[r] == u
    && h.lo[l] == h.lo[u] && h.hi[r] == h.hi[u] && h.hi[l] == u && h.lo[r] == u + 1
    && h.level[l] >= 0 && h.level[u] == h.level[l] + 1
  }

  /** The node of tree `t` that a reference names. */
  function NodeOf(t: Tree, n: nat, x: nat): Tree
  {
    if x in Ids(t) then Sub(t, x) else Leaf(if x >= n - 1 then x - (n - 1) else 0)
  }

  function ParentOf(t: Tree, n: nat, x: nat): int
  {
    if x in Ids(t) then TrunkParent(t, x) else LeafParent(t, if x >= n - 1 then x - (n - 1) else 0)
  }

  function ShapeOf(t: Tree, n: nat): Shape
  {
    var m := if n == 0 then 0 else 2 * n - 1;
    Shape(n,
      seq(m, x requires 0 <= x < m => Lo(NodeOf(t, n, x))),
      seq(m, x requires 0 <= x < m => Hi(NodeOf(t, n, x))),
      seq(m, x requires 0 <= x < m => Level(NodeOf(t, n, x))),
      seq(m, x requires 0 <= x < m => if NodeOf(t, n, x).Trunk? then Ref(NodeOf(t, n, x).left, n - 1) else -1),
      seq(m, x requires 0 <= x < m => if NodeOf(t, n, x).Trunk? then Ref(NodeOf(t, n, x).right, n - 1) else -1),
      seq(m, x requires 0 <= x < m => ParentOf(t, n, x)))
  }

  /** The splits at both ends of a node: not smaller on the left, larger on the right; and the
      node splits where its number says. */
  ghost predicate FramedNode(s: seq<int>, v: Tree, i: nat, j: nat)
    requires j < |s|
  {
    && v.Trunk? && i <= Lo(v) <= v.id < Hi(v) <= j
    && (Lo(v) > 0 ==> s[Lo(v) - 1] >= s[v.id]) && s[Hi(v)] > s[v.id]
    && Hi(v.left) == v.id && Lo(v.right) == v.id + 1
  }

  lemma FramedWider(s: seq<int>, v: Tree, i: nat, j: nat, i': nat, j': nat)
    requires i' <= i && j <= j' < |s| && FramedNode(s, v, i, j)
    ensures FramedNode(s, v, i', j')
  {
  }

  lemma TopFramed(s: seq<int>, i: nat, j: nat)
    requires i < j < |s|
    requires (i > 0 ==> s[i - 1] >= s[Leftmost(s, i, j)]) && s[j] > s[Leftmost(s, i, j)]
    ensures FramedNode(s, Cartesian(s, i, j), i, j)
  {
    hide Leftmost;
    var g := Leftmost(s, i, j);
    CartesianShape(s, i, j);
    CartesianShape(s, i, g);
    CartesianShape(s, g + 1, j);
  }

  lemma {:induction false} CartesianFrame(s: seq<int>, i: nat, j: nat, x: nat)
    requires i < j < |s| && x in Ids(Cartesian(s, i, j))
    requires (i > 0 ==> s[i - 1] >= s[Leftmost(s, i, j)]) && s[j] > s[Leftmost(s, i, j)]
    ensures FramedNode(s, Sub(Cartesian(s, i, j), x), i, j)
    decreases j - i
  {
    hide Leftmost, FramedNode;
    var g := Leftmost(s, i, j);
    var t := Cartesian(s, i, j);
    if x == g {
      TopFramed(s, i, j);
    } else if x in Ids(t.left) {
      assert i < g && s[Leftmost(s, i, g)] < s[g];
      CartesianFrame(s, i, g, x);
      FramedWider(s, Sub(t, x), i, g, i, j);
    } else {
      assert g + 1 < j && s[Leftmost(s, g + 1, j)] <= s[g];
      CartesianFrame(s, g + 1, j, x);
      FramedWider(s, Sub(t, x), g + 1, j, i, j);
    }
  }

  lemma RootFrame(s: seq<int>, x: nat)
    requires |s| >= 2 && x < |s| - 1
    requires forall k :: 0 <= k < |s| - 1 ==> s[k] < s[|s| - 1]
    ensures x in Ids(Cartesian(s, 0, |s| - 1))
    ensures FramedNode(s, Sub(Cartesian(s, 0, |s| - 1), x), 0, |s| - 1)
  {
    CartesianIds(s, 0, |s| - 1);
    CartesianFrame(s, 0, |s| - 1, x);
  }

  /** `t` is the Cartesian tree of the splits, with all that is known of it at once. */
  ghost predicate Whole(t: Tree, s: seq<int>)
  {
    && |s| >= 2 && t == Cartesian(s, 0, |s| - 1)
    && t.Trunk? && Consecutive(t) && UniqueIds(t) && Lo(t) == 0 && Hi(t) == |s| - 1
    && (forall x: nat :: x in Ids(t) <==> x < |s| - 1)
    && (forall k :: 0 <= k < |s| - 1 ==> s[k] < s[|s| - 1])
  }

  lemma WholeTree(s: seq<int>)
    requires |s| >= 2 && forall k :: 0 <= k < |s| - 1 ==> s[k] < s[|s| - 1]
    ensures Whole(Cartesian(s, 0, |s| - 1), s)
  {
    CartesianShape(s, 0, |s| - 1);
    CartesianIds(s, 0, |s| - 1);
  }

  /** The local rule finds the parent: comparing the two neighbouring splits gives the number
      of the parent and the side. */
  lemma ParentRule(t: Tree, s: seq<int>, p: nat)
    requires Whole(t, s) && p < |s| - 1
    ensures var w := Sub(t, p);
            && Lo(w.left) == Lo(w) && Hi(w.right) == Hi(w) && Hi(w.left) == p && Lo(w.right) == p + 1
            && 0 <= Lo(w) <= p < Hi(w) < |s|
            && !IsRightChild(s, Lo(w), p) && IsRightChild(s, p + 1, Hi(w))
  {
    hide Cartesian;
    RootFrame(s, p);
  }

  lemma ShapeAt(t: Tree, s: seq<int>, x: nat)
    requires Whole(t, s) && x < 2 * |s| - 1
    ensures var h := ShapeOf(t, |s|);
            && h.n == |s| && |h.lo| == |h.hi| == |h.level| == |h.lch| == |h.rch| == |h.par| == 2 * |s| - 1
            && h.lo[x] == Lo(NodeOf(t, |s|, x)) && h.hi[x] == Hi(NodeOf(t, |s|, x))
            && h.level[x] == Level(NodeOf(t, |s|, x)) && h.par[x] == ParentOf(t, |s|, x)
            && (x < |s| - 1 ==> NodeOf(t, |s|, x) == Sub(t, x))
            && (x < |s| - 1 ==> h.lch[x] == Ref(Sub(t, x).left, |s| - 1) && h.rch[x] == Ref(Sub(t, x).right, |s| - 1))
            && (x >= |s| - 1 ==> NodeOf(t, |s|, x) == Leaf(x - (|s| - 1)))
  {
  }

  lemma ShapeTrunk(t: Tree, s: seq<int>, u: nat)
    requires Whole(t, s) && u < |s| - 1
    ensures TrunkLinked(ShapeOf(t, |s|), u)
  {
    hide Cartesian, IsRightChild, ShapeOf, NodeOf, ParentOf, Ref, Sub, Consecutive, UniqueIds, Ids;
    ParentRule(t, s, u);
    var w := Sub(t, u);
    ChildRef(t, s, u, w.left);
    ChildRef(t, s, u, w.right);
    ShapeAt(t, s, u);
    ShapeAt(t, s, Ref(w.left, |s| - 1));
    ShapeAt(t, s, Ref(w.right, |s| - 1));
  }

  lemma ChildRef(t: Tree, s: seq<int>, u: nat, c: Tree)
    requires Whole(t, s) && u < |s| - 1 && (c == Sub(t, u).left || c == Sub(t, u).right)
    ensures Ref(c, |s| - 1) < 2 * |s| - 1 && NodeOf(t, |s|, Ref(c, |s| - 1)) == c && Ref(c, |s| - 1) != u
    ensures ParentOf(t, |s|, Ref(c, |s| - 1)) == u
  {
    hide Cartesian, TrunkParent, LeafParent;
    SubInside(t, u);
    var v := Sub(t, u);
    Extent(v.left);
    Extent(v.right);
    OwnerIsParent(t, u);
    OwnerIsLeafParent(t, u);
    if c.Trunk? {
      SubOfChild(t, u, c);
    }
  }

  lemma {:induction false} SubOfChild(t: Tree, u: nat, c: Tree)
    requires UniqueIds(t) && u in Ids(t) && c.Trunk? && (c == Sub(t, u).left || c == Sub(t, u).right)
    ensures c.id in Ids(t) && Sub(t, c.id) == c && c.id != u
  {
    if t.id == u {
    } else if u in Ids(t.left) {
      SubOfChild(t.left, u, c);
    } else {
      SubOfChild(t.right, u, c);
    }
  }

  lemma ShapeNode(t: Tree, s: seq<int>, x: nat)
    requires Whole(t, s) && x < 2 * |s| - 1
    ensures NodeLinked(ShapeOf(t, |s|), s, x)
  {
    hide Cartesian, IsRightChild, ShapeOf, Sub;
    ShapeAt(t, s, x);
    NodeParent(t, s, x);
    var u := ParentOf(t, |s|, x);
    if u != -1 {
      hide NodeOf, ParentOf, Ref, Consecutive, UniqueIds, Ids;
      ShapeAt(t, s, u);
      ParentRule(t, s, u);
      ShapeTrunk(t, s, u);
    }
  }

  /** A node is one of the two children of its parent; the root alone covers everything. */
  lemma NodeParent(t: Tree, s: seq<int>, x: nat)
    requires Whole(t, s) && x < 2 * |s| - 1
    ensures var v := NodeOf(t, |s|, x);
            var u := ParentOf(t, |s|, x);
            && 0 <= Lo(v) <= Hi(v) < |s| && Ref(v, |s| - 1) == x
            && (u == -1 <==> Lo(v) == 0 && Hi(v) == |s| - 1)
            && (u != -1 ==> 0 <= u < |s| - 1 && (v == Sub(t, u).left || v == Sub(t, u).right))
  {
    hide Cartesian;
    var n := |s|;
    if x < n - 1 {
      SubInside(t, x);
      ParentIsOwner(t, x);
      WholeRange(t, x);
      var u := TrunkParent(t, x);
      if u != -1 {
        var w := Sub(t, u);
        if w.left.Trunk? && w.left.id == x {
          SubOfChild(t, u, w.left);
        } else {
          SubOfChild(t, u, w.right);
        }
      }
    } else {
      LeafParentIsOwner(t, x - (n - 1));
    }
  }

  lemma {:induction false} WholeRange(t: Tree, x: nat)
    requires Consecutive(t) && UniqueIds(t) && x in Ids(t)
    ensures x == t.id <==> Lo(Sub(t, x)) == Lo(t) && Hi(Sub(t, x)) == Hi(t)
  {
    Extent(t.left);
    Extent(t.right);
    if x != t.id {
      if x in Ids(t.left) {
        SubInside(t.left, x);
      } else {
        SubInside(t.right, x);
      }
    }
  }

  lemma ShapeLinked(t: Tree, s: seq<int>)
    requires Whole(t, s)
    ensures Linked(ShapeOf(t, |s|), s)
  {
    hide Cartesian, NodeLinked, TrunkLinked;
    var n := |s|;
    var h := ShapeOf(t, n);
    forall x | 0 <= x < 2 * n - 1
      ensures NodeLinked(h, s, x)
    {
      ShapeNode(t, s, x);
    }
    forall u | 0 <= u < n - 1
      ensures TrunkLinked(h, u)
    {
      ShapeTrunk(t, s, u);
    }
    forall u: nat, v: nat | u < v < n - 1 && h.lo[u] == h.lo[v]
      ensures h.level[u] != h.level[v]
    {
      LinkIs(t, u);
      LinkIs(t, v);
    }
  }
}
