/** The binary trees of the linear BVH: `n` leaves in order, `n - 1` numbered trunk nodes. */
module BvhTrees {

  datatype Tree =
    | Leaf(at: nat)
    | Trunk(id: nat, left: Tree, right: Tree)

  function Lo(t: Tree): nat
  {
    match t
    case Leaf(k) => k
    case Trunk(_, l, _) => Lo(l)
  }

  function Hi(t: Tree): nat
  {
    match t
    case Leaf(k) => k
    case Trunk(_, _, r) => Hi(r)
  }

  /** Children cover `[Lo, gamma]` and `[gamma + 1, Hi]` without gap or overlap. */
  ghost predicate Consecutive(t: Tree)
  {
    match t
    case Leaf(_) => true
    case Trunk(_, l, r) => Consecutive(l) && Consecutive(r) && Hi(l) + 1 == Lo(r)
  }

  function Size(t: Tree): nat
  {
    match t
    case Leaf(_) => 1
    case Trunk(_, l, r) => 1 + Size(l) + Size(r)
  }

  /** Number of left steps from `t` down to a leaf. */
  function Level(t: Tree): nat
  {
    match t
    case Leaf(_) => 0
    case Trunk(_, l, _) => 1 + Level(l)
  }

  function Ids(t: Tree): set<nat>
  {
    match t
    case Leaf(_) => {}
    case Trunk(id, l, r) => {id} + Ids(l) + Ids(r)
  }

  ghost predicate UniqueIds(t: Tree)
  {
    match t
    case Leaf(_) => true
    case Trunk(id, l, r) =>
      UniqueIds(l) && UniqueIds(r) && id !in Ids(l) && id !in Ids(r) && Ids(l) !! Ids(r)
  }

  /** The trunk node numbered `id`. */
  function Sub(t: Tree, id: nat): (v: Tree)
    requires id in Ids(t)
    ensures v.Trunk? && v.id == id
  {
    if t.id == id then t
    else if id in Ids(t.left) then Sub(t.left, id)
    else Sub(t.right, id)
  }

  /** Number of the parent of trunk node `id`; -1 at the root. */
  function TrunkParent(t: Tree, id: nat): int
    requires id in Ids(t)
  {
    if t.id == id then -1
    else if id in Ids(t.left) then
      if t.left.id == id then t.id else TrunkParent(t.left, id)
    else
      assert id in Ids(t.right);
      if t.right.id == id then t.id else TrunkParent(t.right, id)
  }

  /** Number of the parent of leaf `k`; -1 when the tree is that leaf. */
  function LeafParent(t: Tree, k: nat): int
  {
    match t
    case Leaf(_) => -1
    case Trunk(id, l, r) =>
      var c := if k <= Hi(l) then l else r;
      if c.Leaf? then id else LeafParent(c, k)
  }

  /** How a child is named in the arrays: trunk nodes by number, leaves after them. */
  function Ref(t: Tree, numTrunk: nat): nat
  {
    if t.Leaf? then t.at + numTrunk else t.id
  }

  lemma {:induction false} Extent(t: Tree)
    requires Consecutive(t)
    ensures Lo(t) <= Hi(t)
    ensures t.Trunk? ==> Lo(t) < Hi(t)
    ensures Size(t) == 2 * (Hi(t) - Lo(t)) + 1
    ensures Level(t) <= Hi(t) - Lo(t)
  {
    if t.Trunk? {
      Extent(t.left);
      Extent(t.right);
    }
  }

  lemma {:induction false} SubInside(t: Tree, id: nat)
    requires Consecutive(t) && UniqueIds(t) && id in Ids(t)
    ensures var v := Sub(t, id);
            && Consecutive(v) && UniqueIds(v) && Ids(v) <= Ids(t)
            && Lo(t) <= Lo(v) < Hi(v) <= Hi(t)
  {
    Extent(t);
    Extent(t.left);
    Extent(t.right);
    if t.id == id {
    } else if id in Ids(t.left) {
      SubInside(t.left, id);
    } else {
      SubInside(t.right, id);
    }
  }

  /** Parent and child agree, both ways: `id` is the parent of a trunk node exactly when
      that node is one of its two children. */
  lemma {:induction false} ParentIsOwner(t: Tree, c: nat)
    requires Consecutive(t) && UniqueIds(t) && c in Ids(t)
    ensures var p := TrunkParent(t, c);
            if p == -1 then c == t.id
            else
              && p >= 0 && p in Ids(t) && c != t.id
              && var v := Sub(t, p);
              (v.left.Trunk? && v.left.id == c) != (v.right.Trunk? && v.right.id == c)
  {
    if t.id == c {
    } else if c in Ids(t.left) {
      ParentIsOwner(t.left, c);
    } else {
      ParentIsOwner(t.right, c);
    }
  }

  lemma {:induction false} OwnerIsParent(t: Tree, p: nat)
    requires Consecutive(t) && UniqueIds(t) && p in Ids(t)
    ensures var v := Sub(t, p);
            && (v.left.Trunk? ==> v.left.id in Ids(t) && TrunkParent(t, v.left.id) == p)
            && (v.right.Trunk? ==> v.right.id in Ids(t) && TrunkParent(t, v.right.id) == p)
  {
    if t.id == p {
    } else if p in Ids(t.left) {
      OwnerIsParent(t.left, p);
    } else {
      OwnerIsParent(t.right, p);
    }
  }

  lemma {:induction false} LeafParentIsOwner(t: Tree, k: nat)
    requires Consecutive(t) && UniqueIds(t) && Lo(t) <= k <= Hi(t) && t.Trunk?
    ensures var p := LeafParent(t, k);
            && p >= 0 && p in Ids(t)
            && var v := Sub(t, p);
            (v.left == Leaf(k)) != (v.right == Leaf(k))
  {
    Extent(t.left);
    Extent(t.right);
    var c := if k <= Hi(t.left) then t.left else t.right;
    if c.Trunk? {
      LeafParentIsOwner(c, k);
    }
  }

  lemma {:induction false} OwnerIsLeafParent(t: Tree, p: nat)
    requires Consecutive(t) && UniqueIds(t) && p in Ids(t)
    ensures var v := Sub(t, p);
            && (v.left.Leaf? ==> LeafParent(t, v.left.at) == p)
            && (v.right.Leaf? ==> LeafParent(t, v.right.at) == p)
  {
    Extent(t.left);
    Extent(t.right);
    if t.id == p {
    } else if p in Ids(t.left) {
      SubInside(t.left, p);
      var v := Sub(t.left, p);
      Extent(v.left);
      Extent(v.right);
      OwnerIsLeafParent(t.left, p);
    } else {
      SubInside(t.right, p);
      var v := Sub(t.right, p);
      Extent(v.left);
      Extent(v.right);
      OwnerIsLeafParent(t.right, p);
    }
  }
}

/** Split positions of a sorted code sequence, and the two trees built over them. */
module BvhSplits {
  import opened MortonCodes
  import opened BvhTrees

  ghost predicate Sorted(mcs: seq<Code>)
  {
    forall p, q :: 0 <= p <= q < |mcs| ==> mcs[p] <= mcs[q]
  }

  /** Split metric of every gap between neighbours, with a sentinel above all of them. */
  function Splits(mcs: seq<Code>): (s: seq<int>)
    ensures |s| == |mcs|
  {
    seq(|mcs|, k requires 0 <= k < |mcs| =>
      if k + 1 != |mcs| then BITS - Common(mcs[k], mcs[k + 1]) else BITS + 1)
  }

  /** Position of the first maximum of `s[i..j]`. */
  function Leftmost(s: seq<int>, i: nat, j: nat): (g: nat)
    requires i < j <= |s|
    ensures i <= g < j
    ensures forall k :: i <= k < g ==> s[k] < s[g]
    ensures forall k :: g <= k < j ==> s[k] <= s[g]
    decreases j - i
  {
    if i + 1 == j then i
    else
      var g := Leftmost(s, i, j - 1);
      if s[g] < s[j - 1] then j - 1 else g
  }

  lemma LeftmostUnique(s: seq<int>, i: nat, j: nat, g: nat)
    requires i <= g < j <= |s|
    requires forall k :: i <= k < g ==> s[k] < s[g]
    requires forall k :: g <= k < j ==> s[k] <= s[g]
    ensures g == Leftmost(s, i, j)
  {
    var h := Leftmost(s, i, j);
    assert s[g] <= s[h] && s[h] <= s[g];
  }

  /** The numbering of `build`: a left child takes the last leaf of its range as its number,
      a right child the first. */
  function Karras(s: seq<int>, i: nat, j: nat, id: nat): Tree
    requires i <= j < |s|
    decreases j - i
  {
    if i == j then Leaf(i)
    else
      var g := Leftmost(s, i, j);
      Trunk(id, Karras(s, i, g, g), Karras(s, g + 1, j, g + 1))
  }

  /** The numbering of `buildRefit`: a node takes its split position as its number. */
  function Cartesian(s: seq<int>, i: nat, j: nat): Tree
    requires i <= j < |s|
    decreases j - i
  {
    if i == j then Leaf(i)
    else
      var g := Leftmost(s, i, j);
      Trunk(g, Cartesian(s, i, g), Cartesian(s, g + 1, j))
  }

  ghost predicate SameShape(a: Tree, b: Tree)
  {
    if a.Leaf? || b.Leaf? then a == b
    else SameShape(a.left, b.left) && SameShape(a.right, b.right)
  }

  /** Both builders make one and the same tree; only the trunk numbers differ. */
  lemma {:induction false} BuildersAgree(s: seq<int>, i: nat, j: nat, id: nat)
    requires i <= j < |s|
    ensures SameShape(Karras(s, i, j, id), Cartesian(s, i, j))
    decreases j - i
  {
    if i < j {
      var g := Leftmost(s, i, j);
      BuildersAgree(s, i, g, g);
      BuildersAgree(s, g + 1, j, g + 1);
    }
  }

  lemma {:induction false} KarrasShape(s: seq<int>, i: nat, j: nat, id: nat)
    requires i <= j < |s|
    ensures var t := Karras(s, i, j, id);
            Consecutive(t) && Lo(t) == i && Hi(t) == j
    decreases j - i
  {
    if i < j {
      var g := Leftmost(s, i, j);
      KarrasShape(s, i, g, g);
      KarrasShape(s, g + 1, j, g + 1);
    }
  }

  /** Every trunk number of a range is used exactly once below its top node. */
  lemma {:induction false} KarrasIds(s: seq<int>, i: nat, j: nat, id: nat)
    requires i <= j < |s| && (id == i || id == j)
    ensures UniqueIds(Karras(s, i, j, id))
    ensures forall k: nat :: k in Ids(Karras(s, i, j, id)) <==>
              if id == i then i <= k < j else i < k <= j
    decreases j - i
  {
    if i < j {
      var g := Leftmost(s, i, j);
      KarrasIds(s, i, g, g);
      KarrasIds(s, g + 1, j, g + 1);
    }
  }

  lemma {:induction false} CartesianShape(s: seq<int>, i: nat, j: nat)
    requires i <= j < |s|
    ensures var t := Cartesian(s, i, j);
            Consecutive(t) && Lo(t) == i && Hi(t) == j
    decreases j - i
  {
    if i < j {
      var g := Leftmost(s, i, j);
      CartesianShape(s, i, g);
      CartesianShape(s, g + 1, j);
    }
  }

  lemma {:induction false} CartesianIds(s: seq<int>, i: nat, j: nat)
    requires i <= j < |s|
    ensures UniqueIds(Cartesian(s, i, j))
    ensures forall k: nat :: k in Ids(Cartesian(s, i, j)) <==> i <= k < j
    decreases j - i
  {
    if i < j {
      var g := Leftmost(s, i, j);
      CartesianIds(s, i, g);
      CartesianIds(s, g + 1, j);
    }
  }

  /** The split between leaves `k - 1` and `k`. */
  lemma SplitAt(mcs: seq<Code>, k: nat)
    requires 0 < k < |mcs|
    ensures Splits(mcs)[k - 1] == BITS - Common(mcs[k - 1], mcs[k])
    ensures 0 <= Splits(mcs)[k - 1] <= BITS
  {
    var p := k - 1;
    assert p + 1 == k;
    CommonRange(mcs[p], mcs[k]);
  }

  lemma LeftmostStep(s: seq<int>, i: nat, j: nat)
    requires i + 1 < j <= |s|
    ensures Leftmost(s, i, j) ==
            if s[Leftmost(s, i, j - 1)] < s[j - 1] then j - 1 else Leftmost(s, i, j - 1)
  {
  }

  /** The prefix shared over a range is fixed by the largest split inside it, and that
      split is the only one of its size unless all codes of the range are equal. */
  lemma {:induction false} RangeCommon(mcs: seq<Code>, s: seq<int>, p: nat, q: nat, g: nat)
    requires Sorted(mcs) && s == Splits(mcs) && p < q < |mcs| && g == Leftmost(s, p, q)
    ensures 0 <= s[g] <= BITS
    ensures Common(mcs[p], mcs[q]) == BITS - s[g]
    decreases q - p
  {
    hide Splits, Leftmost;
    SplitAt(mcs, q);
    if p + 1 < q {
      var h := Leftmost(s, p, q - 1);
      RangeCommon(mcs, s, p, q - 1, h);
      LeftmostStep(s, p, q);
      CommonOrdered(mcs[p], mcs[q - 1], mcs[q]);
    }
  }
}
