/** What the repairs after insertion and removal do to trees, contexts and contents. */
module RbRepairs {
  import opened RbTrees
  import opened RbContents
  import opened RbMemory
  import opened RbRotations

  lemma Blackened(t: Tree)
    requires t.Node? && RedBlack(t)
    ensures RedBlack(t.(color := Black)) && Items(t.(color := Black)) == Items(t)
    ensures Items(t) == Before(Top) + Items(t) + After(Top)
  {
  }

  /** Above a red parent there is a black grandparent. */
  lemma RedParent(c: Ctx, t: Tree)
    requires c.Step? && c.color == Red && Fits(c, BlackHeight(t))
    ensures c.up.Step? && c.up.color == Black && Fits(c.up, BlackHeight(t)) && Fits(c.up.up, BlackHeight(t) + 1)
  {
  }

  /** Parent and uncle turn black, the grandparent red. */
  function Recolor(c: Ctx, t: Tree): Tree
    requires c.Step? && t.Node? && c.sibling.Node?
  {
    Join(c.side, Red, t.(color := Black), c.item, c.sibling.(color := Black))
  }

  lemma Recolored(c: Ctx, t: Tree)
    requires c.Step? && c.color == Red && c.up.Step? && c.side != ROOT && c.up.side != ROOT
    requires RedBlack(t) && Fits(c, BlackHeight(t)) && IsRed(c.up.sibling)
    ensures var g := Recolor(c.up, Lift(c, t));
            && IsRed(g) && RedBlack(g) && Fits(c.up.up, BlackHeight(g))
            && Before(c.up.up) + Items(g) + After(c.up.up) == Before(c) + Items(t) + After(c)
  {
    PlugItems(c, t);
    PlugItems(c.up.up, Lift(c.up, Lift(c, t)));
    Repainted(c.up.side, c.up.color, Lift(c, t), c.up.item, c.up.sibling);
  }

  lemma Repainted(side: Direction, color: Color, a: Tree, item: Item, b: Tree)
    requires a.Node? && b.Node?
    ensures Items(Join(side, Red, a.(color := Black), item, b.(color := Black))) == Items(Join(side, color, a, item, b))
  {
    assert Items(a.(color := Black)) == Items(a) && Items(b.(color := Black)) == Items(b);
  }

  lemma Aligned(c: Ctx, t: Tree, tr: Tree)
    requires c.Step? && c.color == Red && c.up.Step? && c.side != ROOT && c.up.side != ROOT
    requires IsRed(t) && RedBlack(t) && Fits(c, BlackHeight(t)) && !IsRed(c.up.sibling)
    requires tr == if c.side == c.up.side then Lift(c, t) else Turn(c.up.side, Lift(c, t))
    ensures IsRed(tr) && RedBlack(Near(c.up.side, tr)) && RedBlack(Far(c.up.side, tr)) && !IsRed(Far(c.up.side, tr))
    ensures BlackHeight(Near(c.up.side, tr)) == BlackHeight(Far(c.up.side, tr)) && Fits(c.up, BlackHeight(tr))
  {
  }

  lemma Straightened(c: Ctx, t: Tree, tr: Tree)
    requires c.Step? && c.up.Step? && c.side != ROOT && c.up.side != ROOT && t.Node?
    requires tr == if c.side == c.up.side then Lift(c, t) else Turn(c.up.side, Lift(c, t))
    ensures Before(c.up) + Items(tr) + After(c.up) == Before(c) + Items(t) + After(c)
  {
    PlugItems(c, t);
    PlugItems(c.up, Lift(c, t));
    if c.side != c.up.side {
      TurnItems(c.up.side, Lift(c, t));
    }
  }

  lemma Lifted(cp: Ctx, tr: Tree)
    requires cp.Step? && cp.side != ROOT && tr.Node? && Near(cp.side, tr).Node?
    requires IsRed(tr) && RedBlack(Near(cp.side, tr)) && RedBlack(Far(cp.side, tr)) && !IsRed(Far(cp.side, tr))
             && !IsRed(cp.sibling)
    requires BlackHeight(Near(cp.side, tr)) == BlackHeight(Far(cp.side, tr)) && cp.color == Black
             && Fits(cp, BlackHeight(tr))
    ensures var (side, top) := (cp.side, Turn(Other(cp.side), Lift(cp, tr)));
            && Far(side, top).Node?
            && var c := Step(side, Black, cp.up, top.item, Far(side, top).(color := Red));
            && Near(side, top) == Near(side, tr) && Fits(c, BlackHeight(Near(side, top)))
            && Before(c) + Items(Near(side, top)) + After(c) == Before(cp) + Items(tr) + After(cp)
  {
    LiftedItems(cp, tr);
  }

  lemma LiftedItems(cp: Ctx, tr: Tree)
    requires cp.Step? && cp.side != ROOT && tr.Node? && Near(cp.side, tr).Node?
    ensures var (side, top) := (cp.side, Turn(Other(cp.side), Lift(cp, tr)));
            && Far(side, top).Node?
            && var c := Step(side, Black, cp.up, top.item, Far(side, top).(color := Red));
            Before(c) + Items(Near(side, top)) + After(c) == Before(cp) + Items(tr) + After(cp)
  {
    var (side, top) := (cp.side, Turn(Other(cp.side), Lift(cp, tr)));
    var f := Far(side, top);
    var c := Step(side, Black, cp.up, top.item, f.(color := Red));
    PlugItems(c, Near(side, top));
    PlugItems(cp.up, Lift(c, Near(side, top)));
    PlugItems(cp, tr);
    PlugItems(cp.up, Lift(cp, tr));
    TurnItems(Other(side), Lift(cp, tr));
    assert Items(f.(color := Red)) == Items(f);
    assert Items(Lift(c, Near(side, top))) == Items(top);
  }

  /** The tree around the focus is a red-black tree. */
  ghost predicate Sound(c: Ctx, t: Tree)
  {
    RedBlack(t) && Fits(c, BlackHeight(t)) && (NeedsBlack(c) ==> !IsRed(t))
  }

  /** The header knows the first and the last node. */
  ghost predicate EndsAre(h: Heap, hd: Ref, s: seq<Item>)
  {
    && hd in h
    && h[hd].left == (if s == [] then hd else s[0].ref)
    && h[hd].right == (if s == [] then hd else s[|s| - 1].ref)
  }

  lemma EndsGrown(h: Heap, h': Heap, hd: Ref, a: seq<Item>, m: seq<Item>, b: seq<Item>, x: Item, side: Direction)
    requires |m| > 0 && side != ROOT && EndsAre(h, hd, a + m + b) && hd in h'
    requires side == LEFT ==> h'[hd].left == (if a == [] then x.ref else h[hd].left) && h'[hd].right == h[hd].right
    requires side == RIGHT ==> h'[hd].right == (if b == [] then x.ref else h[hd].right) && h'[hd].left == h[hd].left
    ensures EndsAre(h', hd, a + (if side == LEFT then [x] + m else m + [x]) + b)
  {
    var (s, l, r) := (a + m + b, a + ([x] + m) + b, a + (m + [x]) + b);
    assert s[0] == (if a == [] then m[0] else a[0]) && s[|s| - 1] == if b == [] then m[|m| - 1] else b[|b| - 1];
    assert l[0] == (if a == [] then x else a[0]) && l[|l| - 1] == s[|s| - 1];
    assert r[0] == s[0] && r[|r| - 1] == if b == [] then x else b[|b| - 1];
  }

  lemma NewLeaf(c: Ctx, t: Tree, side: Direction, leaf: Tree)
    requires t.Node? && side != ROOT && Near(side, t).Nil? && Sound(c, t)
    requires leaf.Node? && leaf.color == Red && leaf.left.Nil? && leaf.right.Nil?
    ensures var cn := Step(side, t.color, c, t.item, Far(side, t));
            && IsRed(leaf) && RedBlack(leaf) && Fits(cn, BlackHeight(leaf))
            && Before(cn) + Items(leaf) + After(cn)
               == Before(c) + (if side == LEFT then [leaf.item] + Items(t) else Items(t) + [leaf.item]) + After(c)
  {
    LeafItems(c, t, side, leaf);
  }

  lemma LeafItems(c: Ctx, t: Tree, side: Direction, leaf: Tree)
    requires t.Node? && side != ROOT && Near(side, t).Nil?
    requires leaf.Node? && leaf.left.Nil? && leaf.right.Nil?
    ensures var cn := Step(side, t.color, c, t.item, Far(side, t));
            && Before(cn) + Items(leaf) + After(cn)
               == Before(c) + (if side == LEFT then [leaf.item] + Items(t) else Items(t) + [leaf.item]) + After(c)
            && Items(leaf) == [leaf.item]
  {
    assert Items(leaf) == [leaf.item];
    var cn := Step(side, t.color, c, t.item, Far(side, t));
    var (a, b) := (Before(c), After(c));
    if side == LEFT {
      assert Items(t) == [t.item] + Items(t.right) && After(cn) == [t.item] + Items(t.right) + b;
      assert a + [leaf.item] + ([t.item] + Items(t.right) + b) == a + ([leaf.item] + ([t.item] + Items(t.right))) + b;
    } else {
      assert Items(t) == Items(t.left) + [t.item] && Before(cn) == a + Items(t.left) + [t.item];
      assert a + Items(t.left) + [t.item] + [leaf.item] + b == a + (Items(t.left) + [t.item] + [leaf.item]) + b;
    }
  }

  lemma {:induction false} TreeItemRefs(t: Tree, i: nat)
    requires i < |Items(t)|
    ensures Items(t)[i].ref in TreeRefs(t)
  {
    if i < |Items(t.left)| {
      TreeItemRefs(t.left, i);
    } else if i > |Items(t.left)| {
      TreeItemRefs(t.right, i - |Items(t.left)| - 1);
    }
  }

  lemma {:induction false} BeforeRefs(c: Ctx, i: nat)
    requires i < |Before(c)|
    ensures Before(c)[i].ref in CtxRefs(c)
    decreases c
  {
    if c.side == LEFT || i < |Before(c.up)| {
      BeforeRefs(c.up, i);
    } else if i < |Before(c.up)| + |Items(c.sibling)| {
      TreeItemRefs(c.sibling, i - |Before(c.up)|);
    }
  }

  lemma {:induction false} AfterRefs(c: Ctx, i: nat)
    requires i < |After(c)|
    ensures After(c)[i].ref in CtxRefs(c)
    decreases c
  {
    if c.side != LEFT {
      AfterRefs(c.up, i);
    } else if 0 < i <= |Items(c.sibling)| {
      TreeItemRefs(c.sibling, i - 1);
    } else if i > 0 {
      AfterRefs(c.up, i - 1 - |Items(c.sibling)|);
    }
  }

  /** The node without a child on a side is the end of that side only if the header says so. */
  lemma NodeIsEnd(h: Heap, root: Ref, hd: Ref, c: Ctx, t: Tree, side: Direction)
    requires Shows(h, root, hd, c, t) && t.Node? && side != ROOT && Near(side, t).Nil?
    requires EndsAre(h, hd, Before(c) + Items(t) + After(c))
    ensures side == LEFT ==> (h[hd].left == t.item.ref <==> Before(c) == [])
    ensures side == RIGHT ==> (h[hd].right == t.item.ref <==> After(c) == [])
  {
    var s := Before(c) + Items(t) + After(c);
    if side == LEFT {
      assert Items(t)[0] == t.item;
      if Before(c) == [] {
        assert s[0] == Items(t)[0];
      } else {
        assert s[0] == Before(c)[0];
        BeforeRefs(c, 0);
      }
    } else {
      assert Items(t)[|Items(t)| - 1] == t.item;
      if After(c) == [] {
        assert s[|s| - 1] == Items(t)[|Items(t)| - 1];
      } else {
        assert s[|s| - 1] == After(c)[|After(c)| - 1];
        AfterRefs(c, |After(c)| - 1);
      }
    }
  }

  /** A new node hung into an empty place. */
  lemma Filled(h: Heap, root: Ref, hd: Ref, c: Ctx, leaf: Tree)
    requires Shows(h, root, hd, c, Nil) && c.Step?
    requires leaf.Node? && leaf.left.Nil? && leaf.right.Nil? && leaf.item.ref != NULL && leaf.item.ref !in h
    ensures var (p, x) := (c.item.ref, leaf.item.ref);
            && p in h && p != x && p != hd
            && var cell := Cell(leaf.color, p, NULL, NULL, leaf.item.key, leaf.item.value);
            && Shows(h[p := Linked(c.side, h[p], x)][x := cell], root, hd, c, leaf)
  {
    var (p, x) := (c.item.ref, leaf.item.ref);
    var h' := h[p := Linked(c.side, h[p], x)][x := Cell(leaf.color, p, NULL, NULL, leaf.item.key, leaf.item.value)];
    Rehang(h, h', root, root, hd, c, NULL, x);
    assert TreeRefs(leaf) == {x};
    assert h'.Keys == h.Keys + {x};
  }

  lemma HasItem(t: Tree)
    requires t.Node?
    ensures |Items(t)| > 0
  {
  }

  lemma EndMoved(h: Heap, root: Ref, hd: Ref, c: Ctx, t: Tree, side: Direction, x: Ref)
    requires Shows(h, root, hd, c, t)
    ensures hd in h && Shows(h[hd := Linked(side, h[hd], x)], root, hd, c, t)
  {
    var h' := h[hd := Linked(side, h[hd], x)];
    FrameTree(h, h', t, ParentRef(c, hd));
    FrameCtx(h, h', root, hd, c, RefOf(t));
    assert h'.Keys == h.Keys;
  }

  /** The key belongs into the hole. */
  ghost predicate Around(c: Ctx, key: int)
  {
    AllBelow(Before(c), key) && AllAbove(After(c), key)
  }

  lemma SplitSorted(a: seq<Item>, l: seq<Item>, x: Item, r: seq<Item>, b: seq<Item>, key: int)
    requires Sorted(a + (l + [x] + r) + b)
    ensures key < x.key && AllAbove(b, key) ==> AllAbove([x] + r + b, key)
    ensures x.key < key && AllBelow(a, key) ==> AllBelow(a + l + [x], key)
  {
    var s := a + (l + [x] + r) + b;
    var k := |a| + |l|;
    assert s[k] == x && s[k..] == [x] + r + b && s[..k + 1] == a + l + [x];
  }

  /** The search goes to the side on which the key belongs. */
  lemma Narrow(c: Ctx, t: Tree, key: int, side: Direction)
    requires t.Node? && Around(c, key) && Sorted(Items(Plug(c, t))) && side != ROOT
    requires if side == LEFT then key < t.item.key else t.item.key < key
    ensures var cn := Step(side, t.color, c, t.item, Far(side, t));
            Around(cn, key) && Plug(cn, Near(side, t)) == Plug(c, t)
  {
    PlugItems(c, t);
    SplitSorted(Before(c), Items(t.left), t.item, Items(t.right), After(c), key);
    hide AllAbove, AllBelow, Sorted;
  }

  lemma HoleItems(c: Ctx)
    ensures Items(Plug(c, Nil)) == Before(c) + After(c)
  {
    PlugItems(c, Nil);
    assert Before(c) + [] + After(c) == Before(c) + After(c);
  }

  lemma PutSorted(a: seq<Item>, b: seq<Item>, at: Ref, key: int, value: int)
    requires AllBelow(a, key) && AllAbove(b, key) && Sorted(a + b)
    ensures a + [Item(at, key, value)] + b == Put(a + b, at, key, value) && Sorted(a + [Item(at, key, value)] + b)
    ensures |a + [Item(at, key, value)] + b| == |a + b| + 1
  {
    PutNew(a, b, at, key, value);
    Joined(a, Item(at, key, value), b);
  }

  lemma Closed(c: Ctx, t: Tree, side: Direction, at: Ref, key: int, value: int)
    requires t.Node? && side != ROOT && Near(side, t).Nil? && Around(Step(side, t.color, c, t.item, Far(side, t)), key)
    requires Sorted(Items(Plug(c, t)))
    ensures var x := Item(at, key, value);
            var s := Before(c) + (if side == LEFT then [x] + Items(t) else Items(t) + [x]) + After(c);
            s == Put(Items(Plug(c, t)), at, key, value) && |s| == |Items(Plug(c, t))| + 1 && Sorted(s)
    ensures var cn := Step(side, t.color, c, t.item, Far(side, t));
            Put(Items(Plug(c, t)), at, key, value) == Before(cn) + [Item(at, key, value)] + After(cn)
  {
    var cn := Step(side, t.color, c, t.item, Far(side, t));
    LeafItems(c, t, side, Node(Red, Nil, Item(at, key, value), Nil));
    HoleItems(cn);
    assert Plug(cn, Near(side, t)) == Plug(c, t);
    hide Items, Before, After, Plug, Put, AllAbove, AllBelow, Sorted;
    PutSorted(Before(cn), After(cn), at, key, value);
  }

  lemma Joined(a: seq<Item>, x: Item, b: seq<Item>)
    requires Sorted(a + b) && AllBelow(a, x.key) && AllAbove(b, x.key)
    ensures Sorted(a + [x] + b)
  {
    forall i, j | 0 <= i < j < |a| + 1 + |b|
      ensures (a + [x] + b)[i].key < (a + [x] + b)[j].key
    {
      if i < |a| && j < |a| {
        assert (a + b)[i].key < (a + b)[j].key;
      } else if i < |a| && j > |a| {
        assert (a + b)[i].key < (a + b)[j - 1].key;
      } else if i > |a| {
        assert (a + b)[i - 1].key < (a + b)[j - 1].key;
      }
    }
  }

  lemma Revalued(h: Heap, root: Ref, hd: Ref, c: Ctx, t: Tree, value: int)
    requires Shows(h, root, hd, c, t) && t.Node?
    ensures var x := t.item.ref;
            x in h && x != hd && Shows(h[x := h[x].(value := value)], root, hd, c, t.(item := t.item.(value := value)))
  {
    var x := t.item.ref;
    var h' := h[x := h[x].(value := value)];
    FrameTree(h, h', t.left, x);
    FrameTree(h, h', t.right, x);
    FrameCtx(h, h', root, hd, c, x);
    assert TreeRefs(t.(item := t.item.(value := value))) == TreeRefs(t);
    assert h'.Keys == h.Keys;
  }

  lemma Assoc(a: seq<Item>, l: seq<Item>, x: Item, r: seq<Item>, b: seq<Item>)
    ensures a + (l + [x] + r) + b == (a + l) + [x] + (r + b)
  {
  }

  lemma SoundValue(c: Ctx, t: Tree, value: int)
    requires t.Node? && Sound(c, t)
    ensures Sound(c, t.(item := t.item.(value := value)))
  {
    hide Fits;
    assert BlackHeight(t.(item := t.item.(value := value))) == BlackHeight(t);
  }

  lemma Reassigned(c: Ctx, t: Tree, at: Ref, value: int)
    requires t.Node? && Sorted(Items(Plug(c, t))) && Sound(c, t)
    ensures var t' := t.(item := t.item.(value := value));
            && Sound(c, t')
            && var (s, s') := (Before(c) + Items(t) + After(c), Before(c) + Items(t') + After(c));
            && Items(Plug(c, t)) == s && s' == Put(s, at, t.item.key, value) && |s'| == |s| > 0 && Sorted(s')
            && s'[0].ref == s[0].ref && s'[|s'| - 1].ref == s[|s| - 1].ref
  {
    hide *;
    var t' := t.(item := t.item.(value := value));
    PlugItems(c, t);
    ItemsNode(t);
    ItemsNode(t');
    SoundValue(c, t, value);
    Assoc(Before(c), Items(t.left), t.item, Items(t.right), After(c));
    Assoc(Before(c), Items(t.left), t'.item, Items(t.right), After(c));
    PutInto(Before(c) + Items(t.left), t.item, Items(t.right) + After(c), at, value);
  }

  lemma PutInto(a: seq<Item>, x: Item, b: seq<Item>, at: Ref, value: int)
    requires Sorted(a + [x] + b)
    ensures var (s, s') := (a + [x] + b, a + [x.(value := value)] + b);
            && s' == Put(s, at, x.key, value) && |s'| == |s| && Sorted(s')
            && s'[0].ref == s[0].ref && s'[|s'| - 1].ref == s[|s| - 1].ref
  {
    var (s, s') := (a + [x] + b, a + [x.(value := value)] + b);
    assert s[|a|] == x && s[..|a|] == a;
    PutOld(a, b, x.ref, at, x.key, x.value, value);
    assert forall i :: 0 <= i < |s| ==> s'[i].key == s[i].key && s'[i].ref == s[i].ref;
  }

  lemma FitsTop(e: nat)
    ensures Fits(Top, e)
  {
  }

  lemma HasSibling(c: Ctx, e: nat)
    requires c.Step? && Fits(c, e + 1)
    ensures c.sibling.Node?
  {
  }

  /** Where the focus is after its red sibling went up. */
  function RaisedSibling(c: Ctx): Ctx
    requires c.Step? && c.sibling.Node?
  {
    Step(c.side, Red, Step(c.side, Black, c.up, c.sibling.item, Far(c.side, c.sibling)), c.item,
        Near(c.side, c.sibling))
  }

  lemma Raised(c: Ctx, e: nat)
    requires c.Step? && c.side != ROOT && IsRed(c.sibling) && Fits(c, e + 1)
    ensures var r := RaisedSibling(c);
            && Fits(r, e + 1) && r.sibling.Node? && r.sibling.color == Black
            && Before(r) == Before(c) && After(r) == After(c)
  {
    var (n, f, x) := (Items(Near(c.side, c.sibling)), Items(Far(c.side, c.sibling)), c.sibling.item);
    if c.side == LEFT {
      assert [c.item] + n + ([x] + f + After(c.up)) == [c.item] + (n + [x] + f) + After(c.up);
    } else {
      assert Before(c.up) + f + [x] + n + [c.item] == Before(c.up) + (f + [x] + n) + [c.item];
    }
  }

  /** The sibling's subtree after its close nephew went up. */
  function TurnedNephew(side: Direction, s: Tree): Tree
    requires s.Node? && Near(side, s).Node?
  {
    var n := Near(side, s);
    Join(side, Black, Near(side, n), n.item, Join(side, Red, Far(side, n), s.item, Far(side, s)))
  }

  lemma TurnedNephewIs(side: Direction, s: Tree)
    requires side != ROOT && s.Node? && Near(side, s).Node?
    ensures var u := Turn(Other(side), s);
            && u.Node? && Near(Other(side), u).Node?
            && var top := u.(color := Black);
            && var f := Step(Other(side), Black, Top, top.item, Far(Other(side), top));
            Lift(f, Near(Other(side), top).(color := Red)) == TurnedNephew(side, s)
  {
  }

  /** The context after the sibling went up to the place of the parent. */
  function LiftedSibling(c: Ctx): Ctx
    requires c.Step? && c.sibling.Node? && Far(c.side, c.sibling).Node?
  {
    var s := c.sibling;
    Step(c.side, Black, Step(c.side, c.color, c.up, s.item, Far(c.side, s).(color := Black)), c.item, Near(c.side, s))
  }

  lemma SwappedColors(c: Ctx, e: nat)
    requires c.Step? && c.color == Red && c.sibling.Node? && c.sibling.color == Black && Fits(c, e + 1)
    requires !IsRed(c.sibling.left) && !IsRed(c.sibling.right)
    ensures var r := c.(color := Black, sibling := c.sibling.(color := Red));
            Fits(r, e) && Before(r) == Before(c) && After(r) == After(c)
  {
  }

  lemma Deferred(c: Ctx, e: nat)
    requires c.Step? && c.color == Black && Fits(c, e + 1)
    ensures Fits(c.up, e + 1 + 1)
  {
  }

  lemma Resumed(c: Ctx, u: Ctx, e: nat)
    requires c.Step? && c.color == Black && c.sibling.Node? && c.sibling.color == Black && Fits(c, e + 1)
    requires !IsRed(c.sibling.left) && !IsRed(c.sibling.right)
    requires Fits(u, e + 1) && Before(u) == Before(c.up) && After(u) == After(c.up)
    ensures var r := c.(up := u, sibling := c.sibling.(color := Red));
            Fits(r, e) && Before(r) == Before(c) && After(r) == After(c)
  {
  }

  lemma TurnedNear(side: Direction, t: Tree)
    requires side != ROOT && t.Node? && Far(side, t).Node?
    ensures var (s, u) := (Far(side, t), Turn(side, t));
            && u.Node? && u.item == s.item && Far(side, u) == Far(side, s)
            && Near(side, u) == Join(side, t.color, Near(side, t), t.item, Near(side, s))
            && Near(side, Near(side, u)) == Near(side, t) && Far(side, Near(side, u)) == Near(side, s)
  {
  }

  /** What the last case needs: a black sibling whose distant child can turn black. */
  ghost predicate CanLift(c: Ctx, e: nat)
  {
    && c.Step? && c.sibling.Node? && Far(c.side, c.sibling).Node? && c.side != ROOT
    && (var (n, f) := (Near(c.side, c.sibling), Far(c.side, c.sibling));
        && RedBlack(n) && BlackHeight(n) == e
        && RedBlack(f.left) && RedBlack(f.right) && BlackHeight(f.left) == e && BlackHeight(f.right) == e)
    && (c.color == Red ==> !NeedsBlack(c.up))
    && Fits(c.up, e + 1 + Weight(c.color))
  }

  lemma DistantRed(c: Ctx, e: nat)
    requires c.Step? && c.side != ROOT && c.sibling.Node? && c.sibling.color == Black && Fits(c, e + 1)
             && IsRed(Far(c.side, c.sibling))
    ensures CanLift(c, e)
  {
    var s := c.sibling;
    assert RedBlack(s.left) && RedBlack(s.right) && BlackHeight(s.left) == e && BlackHeight(s.right) == e;
    var f := Far(c.side, s);
    assert RedBlack(f.left) && RedBlack(f.right) && BlackHeight(f.left) == e && BlackHeight(f.right) == e;
  }

  lemma NephewTurned(c: Ctx, e: nat)
    requires c.Step? && c.side != ROOT && c.sibling.Node? && c.sibling.color == Black && Fits(c, e + 1)
             && IsRed(Near(c.side, c.sibling))
    ensures var r := c.(sibling := TurnedNephew(c.side, c.sibling));
            CanLift(r, e) && Before(r) == Before(c) && After(r) == After(c)
  {
    var s := c.sibling;
    NephewItems(c.side, s);
    assert RedBlack(s.left) && RedBlack(s.right) && BlackHeight(s.left) == e && BlackHeight(s.right) == e;
    var n := Near(c.side, s);
    assert RedBlack(n.left) && RedBlack(n.right) && BlackHeight(n.left) == e && BlackHeight(n.right) == e;
  }

  lemma NephewItems(side: Direction, s: Tree)
    requires side != ROOT && s.Node? && Near(side, s).Node?
    ensures Items(TurnedNephew(side, s)) == Items(s)
  {
    var n := Near(side, s);
    var inner := Join(side, Red, Far(side, n), s.item, Far(side, s));
    if side == LEFT {
      assert Items(inner) == Items(n.right) + [s.item] + Items(s.right);
    } else {
      assert Items(inner) == Items(s.left) + [s.item] + Items(n.left);
    }
  }

  lemma SiblingLifted(c: Ctx, e: nat)
    requires CanLift(c, e)
    ensures var r := LiftedSibling(c);
            Fits(r, e) && Before(r) == Before(c) && After(r) == After(c)
  {
    hide Before, After, Items;
    LiftedEntries(c);
  }

  lemma LiftedEntries(c: Ctx)
    requires c.Step? && c.sibling.Node? && Far(c.side, c.sibling).Node?
    ensures Before(LiftedSibling(c)) == Before(c) && After(LiftedSibling(c)) == After(c)
  {
    hide RedBlack, Fits, BlackHeight;
    var s := c.sibling;
    var f := Far(c.side, s);
    assert Items(f.(color := Black)) == Items(f);
    var (n, d, x) := (Items(Near(c.side, s)), Items(f), s.item);
    if c.side == LEFT {
      assert [c.item] + n + ([x] + d + After(c.up)) == [c.item] + (n + [x] + d) + After(c.up);
    } else {
      assert Before(c.up) + d + [x] + n + [c.item] == Before(c.up) + (d + [x] + n) + [c.item];
    }
  }

  lemma LeafWeight(c: Ctx, t: Tree)
    requires Sound(c, t) && t.Node? && t.left.Nil? && t.right.Nil?
    ensures if t.color == Black then Fits(c, 0 + 1) else Fits(c, 0)
    ensures Items(t.left) + Items(t.right) == []
  {
  }

  lemma EmptySound(c: Ctx)
    requires Fits(c, 0)
    ensures RedBlack(Nil) && Fits(c, BlackHeight(Nil)) && !IsRed(Nil) && Items(Nil) == []
  {
  }

  lemma OnlyChild(c: Ctx, t: Tree)
    requires Sound(c, t) && t.Node? && (t.left.Node? <==> t.right.Nil?)
    ensures t.color == Black
    ensures var x := if t.left.Node? then t.left else t.right;
            && x.color == Red
            && Items(t.left) + Items(t.right) == Items(x.(color := Black))
            && RedBlack(x.(color := Black)) && Fits(c, BlackHeight(x.(color := Black))) && !IsRed(x.(color := Black))
  {
    var x := if t.left.Node? then t.left else t.right;
    assert Items(Nil) == [] && RedBlack(x) && BlackHeight(x) == 0 && Items(x.(color := Black)) == Items(x);
    assert RedBlack(x.left) && RedBlack(x.right);
  }

  lemma Emptied(h: Heap, root: Ref, hd: Ref, c: Ctx, t: Tree)
    requires Shows(h, root, hd, c, t) && c.Step? && t.Node? && t.left.Nil? && t.right.Nil?
    ensures var (p, x) := (c.item.ref, t.item.ref);
            && p in h && p != x && x != hd && p != hd && c.side != ROOT
            && Shows((h - {x})[p := Linked(c.side, h[p], NULL)], root, hd, c, Nil)
  {
    var (p, x) := (c.item.ref, t.item.ref);
    var h' := (h - {x})[p := Linked(c.side, h[p], NULL)];
    Rehang(h, h', root, root, hd, c, x, NULL);
    assert TreeRefs(t) == {x};
    assert h'.Keys == h.Keys - {x};
  }

  function Splice(h: Heap, n: Ref, p: Ref, d: Direction, hd: Ref, x: Ref): Heap
    requires p in h && hd in h && x in h && x != n
  {
    var g := Hang(h, p, d, hd, x) - {n};
    g[x := g[x].(parent := p)]
  }

  lemma SpliceCells(h: Heap, n: Ref, p: Ref, d: Direction, hd: Ref, x: Ref)
    requires p in h && hd in h && x in h && x != n && x != p && x != hd && n != p && n != hd && (d == ROOT <==> p == hd)
    ensures var h' := Splice(h, n, p, d, hd, x);
            && h'.Keys == h.Keys - {n} && h'[x] == h[x].(parent := p)
            && h'[p] == Hang(h, p, d, hd, x)[p] && (p != hd ==> h'[hd] == h[hd])
            && forall y :: y in h && y != n && y != x && y != p && y != hd ==> h'[y] == h[y]
  {
  }

  lemma SplicedParts(h: Heap, root: Ref, hd: Ref, c: Ctx, t: Tree)
    requires Shows(h, root, hd, c, t) && t.Node? && (t.left.Node? <==> t.right.Nil?)
    ensures var (n, p, x) := (t.item.ref, ParentRef(c, hd), if t.left.Node? then t.left else t.right);
            var d := if c.Top? then ROOT else c.side;
            && p in h && hd in h && x.item.ref in h && x.item.ref != n && n in h && n != hd
            && Hang(h, p, d, hd, x.item.ref)[x.item.ref].parent == n
            && var h' := Splice(h, n, p, d, hd, x.item.ref);
            && h'.Keys == h.Keys - {n} && hd in h' && h'[hd].color == Red
            && ShowsTree(h', x, p) && ShowsCtx(h', if c.Top? then x.item.ref else root, hd, c, x.item.ref)
  {
    HoleCell(h, root, hd, c, t);
    NodeCell(h, root, hd, c, t);
    var (n, p, x) := (t.item.ref, ParentRef(c, hd), if t.left.Node? then t.left else t.right);
    var d := if c.Top? then ROOT else c.side;
    assert x.item.ref in TreeRefs(x) && TreeRefs(t) == {n} + TreeRefs(x);
    assert c.Step? ==> p in CtxRefs(c);
    SpliceCells(h, n, p, d, hd, x.item.ref);
    assert ShowsTree(h, x, n) && TreeUnique(x) && h[x.item.ref].parent == n;
    var h' := Splice(h, n, p, d, hd, x.item.ref);
    hide ShowsTree, TreeUnique, CtxUnique, TreeRefs, CtxRefs, Splice, ShowsCtx;
    Reparent(h, h', x, n, p);
    Rehang(h, h', root, if c.Top? then x.item.ref else root, hd, c, n, x.item.ref);
  }

  lemma Spliced(h: Heap, root: Ref, hd: Ref, c: Ctx, t: Tree)
    requires Shows(h, root, hd, c, t) && t.Node? && (t.left.Node? <==> t.right.Nil?)
    ensures var (n, p, x) := (t.item.ref, ParentRef(c, hd), if t.left.Node? then t.left else t.right);
            var d := if c.Top? then ROOT else c.side;
            && p in h && hd in h && x.item.ref in h && x.item.ref != n && n in h
            && Hang(h, p, d, hd, x.item.ref)[x.item.ref].parent == n
            && Shows(Splice(h, n, p, d, hd, x.item.ref), if c.Top? then x.item.ref else root, hd, c, x)
  {
    SplicedParts(h, root, hd, c, t);
    hide ShowsTree, ShowsCtx, Splice, CtxRefs, CtxUnique;
    assert TreeRefs(t) == {t.item.ref} + TreeRefs(if t.left.Node? then t.left else t.right);
  }

  lemma ItemsNode(t: Tree)
    requires t.Node?
    ensures Items(t) == Items(t.left) + [t.item] + Items(t.right)
    ensures t.left.Nil? ==> Items(t) == [t.item] + Items(t.right)
  {
  }

  lemma RefInside(t: Tree)
    requires t.Node?
    ensures t.item.ref in TreeRefs(t) && TreeRefs(t.left) <= TreeRefs(t) && TreeRefs(t.right) <= TreeRefs(t)
    ensures t.left.Node? ==> t.left.item.ref in TreeRefs(t.left)
    ensures t.right.Node? ==> t.right.item.ref in TreeRefs(t.right)
  {
  }

  lemma StepLeft(c: Ctx, t: Tree)
    requires t.Node?
    ensures var d := Step(LEFT, t.color, c, t.item, t.right);
            && Before(d) == Before(c) && Items(t.left) + After(d) == Items(t) + After(c)
                && Plug(d, t.left) == Plug(c, t)
  {
    assert Items(t.left) + ([t.item] + Items(t.right) + After(c)) ==
        (Items(t.left) + [t.item] + Items(t.right)) + After(c);
  }

  /** First and last entry around an entry. */
  lemma Ends(a: seq<Item>, x: Item, b: seq<Item>)
    ensures var s := a + [x] + b;
            s != [] && s[0] == (if a == [] then x else a[0])
            && s[|s| - 1] == (if b == [] then x else b[|b| - 1])
  {
  }

  lemma StepRight(t: Tree)
    requires t.Node?
    ensures Items(t) != []
    ensures if t.right.Nil? then Items(t)[|Items(t)| - 1] == t.item
            else Items(t.right) != [] && Items(t)[|Items(t)| - 1] == Items(t.right)[|Items(t.right)| - 1]
  {
    hide *;
    ItemsNode(t);
    Ends(Items(t.left), t.item, Items(t.right));
    if t.right.Node? {
      HasItem(t.right);
    } else {
      NoItems(t.right);
    }
  }

  lemma NilRight(t: Tree)
    requires t.Node? && RefOf(t.right) == NULL && (t.right.Node? ==> RefOf(t.right) != NULL)
    ensures t.right.Nil?
  {
  }

  lemma NoItems(t: Tree)
    requires t.Nil?
    ensures Items(t) == []
  {
  }

  lemma Alone(h: Heap, root: Ref, hd: Ref, c: Ctx, t: Tree)
    requires Shows(h, root, hd, c, t) && t.Node?
    ensures t.item.ref !in CtxRefs(c) && t.item.ref !in TreeRefs(t.left) && t.item.ref !in TreeRefs(t.right)
  {
    RefInside(t);
  }

  /** The entries beside a node have other nodes. */
  lemma Beside(h: Heap, root: Ref, hd: Ref, c: Ctx, t: Tree)
    requires Shows(h, root, hd, c, t) && t.Node?
    ensures forall i :: 0 <= i < |Before(c) + Items(t.left)| ==> (Before(c) + Items(t.left))[i].ref != t.item.ref
    ensures forall i :: 0 <= i < |Items(t.right) + After(c)| ==> (Items(t.right) + After(c))[i].ref != t.item.ref
  {
    hide *;
    Alone(h, root, hd, c, t);
    forall i | 0 <= i < |Before(c) + Items(t.left)|
      ensures (Before(c) + Items(t.left))[i].ref != t.item.ref
    {
      if i < |Before(c)| {
        BeforeRefs(c, i);
      } else {
        TreeItemRefs(t.left, i - |Before(c)|);
      }
    }
    forall i | 0 <= i < |Items(t.right) + After(c)|
      ensures (Items(t.right) + After(c))[i].ref != t.item.ref
    {
      if i < |Items(t.right)| {
        TreeItemRefs(t.right, i);
      } else {
        AfterRefs(c, i - |Items(t.right)|);
      }
    }
  }

  lemma EndsAt(h: Heap, hd: Ref, a: seq<Item>, x: Item, b: seq<Item>)
    requires EndsAre(h, hd, a + [x] + b)
    ensures hd in h
    ensures h[hd].left == (if a == [] then x else a[0]).ref && h[hd].right == (if b == [] then x else b[|b| - 1]).ref
  {
    Ends(a, x, b);
  }

  /** The header names a node exactly when nothing lies beyond it. */
  lemma EndNode(h: Heap, root: Ref, hd: Ref, c: Ctx, t: Tree)
    requires Shows(h, root, hd, c, t) && t.Node? && EndsAre(h, hd, Before(c) + Items(t) + After(c))
    ensures h[hd].left == t.item.ref <==> Before(c) + Items(t.left) == []
    ensures h[hd].right == t.item.ref <==> Items(t.right) + After(c) == []
  {
    hide *;
    var (a, b) := (Before(c) + Items(t.left), Items(t.right) + After(c));
    ItemsNode(t);
    Assoc(Before(c), Items(t.left), t.item, Items(t.right), After(c));
    EndsAt(h, hd, a, t.item, b);
    Beside(h, root, hd, c, t);
  }

  /** With nothing on one side of a node and no child on the other, the parent comes next. */
  lemma NextAbove(c: Ctx, t: Tree, hd: Ref)
    requires t.Node?
    ensures var (a, b) := (Before(c) + Items(t.left), Items(t.right) + After(c));
            && (a == [] && t.right.Nil? ==> ParentRef(c, hd) == if b == [] then hd else b[0].ref)
            && (b == [] && t.left.Nil? ==> ParentRef(c, hd) == if a == [] then hd else a[|a| - 1].ref)
  {
    assert Items(Nil) == [];
    assert t.right.Nil? ==> Items(t.right) + After(c) == After(c);
    assert t.left.Nil? ==> Before(c) + Items(t.left) == Before(c);
  }

  lemma Leading(x: Item, m: seq<Item>, u: seq<Item>, v: seq<Item>, r: seq<Item>, b: seq<Item>)
    requires [x] + u + v == r + b
    ensures r + b != [] && (r + b)[0] == x
  {
    assert ([x] + u + v)[0] == x;
  }

  lemma EndsDropped(h: Heap, h': Heap, hd: Ref, a: seq<Item>, l: seq<Item>, x: Item, r: seq<Item>, b: seq<Item>)
    requires EndsAre(h, hd, a + (l + [x] + r) + b) && hd in h'
    requires h'[hd].left == if a + l == [] then (if r + b == [] then hd else (r + b)[0].ref) else h[hd].left
    requires h'[hd].right == if r + b == [] then (if a + l == [] then hd else (a + l)[|a + l| - 1].ref) else h[hd].right
    ensures EndsAre(h', hd, a + (l + r) + b)
  {
    var (s, s') := (a + (l + [x] + r) + b, a + (l + r) + b);
    assert s == (a + l) + [x] + (r + b) && s' == (a + l) + (r + b);
  }

  lemma Counts(c: Ctx, t: Tree)
    requires t.Node?
    ensures |Items(t)| > 0 && (t.left.Node? ==> |Items(t.left)| > 0) && (t.right.Node? ==> |Items(t.right)| > 0)
    ensures t.left.Nil? ==> Items(t.left) == []
    ensures t.right.Nil? ==> Items(t.right) == []
    ensures if c.Top? then Before(c) == [] && After(c) == [] else |Before(c)| + |After(c)| > 0
  {
  }

  lemma Fewer(c: Ctx, t: Tree)
    requires t.Node? && Sorted(Items(Plug(c, t)))
    ensures var (s, s') := (Items(Plug(c, t)), Before(c) + (Items(t.left) + Items(t.right)) + After(c));
            && s == Before(c) + Items(t) + After(c) && |s'| == |s| - 1 && Sorted(s')
            && s' == Drop(s, t.item.key)
            && (|s| == 1 ==> s' == [] && c.Top? && t.left.Nil? && t.right.Nil?)
            && (|s| > 1 ==> c.Step? || t.left.Node? || t.right.Node?)
  {
    hide *;
    PlugItems(c, t);
    ItemsNode(t);
    Counts(c, t);
    Assoc(Before(c), Items(t.left), t.item, Items(t.right), After(c));
    DroppedSorted(Before(c) + Items(t.left), t.item, Items(t.right) + After(c));
    assert Before(c) + (Items(t.left) + Items(t.right)) + After(c) ==
        (Before(c) + Items(t.left)) + (Items(t.right) + After(c));
  }

  lemma EndsKept(h: Heap, h': Heap, hd: Ref, s: seq<Item>)
    requires EndsAre(h, hd, s) && SameEnds(h, h', hd)
    ensures EndsAre(h', hd, s)
  {
  }

  lemma DroppedSorted(a: seq<Item>, x: Item, b: seq<Item>)
    requires Sorted(a + [x] + b)
    ensures Sorted(a + b) && a + b == Drop(a + [x] + b, x.key)
  {
    var s := a + [x] + b;
    assert s[|a|] == x && s[..|a|] == a && s[|a| + 1..] == b;
    DropOne(a, x, b);
    forall i, j | 0 <= i < j < |a + b|
      ensures (a + b)[i].key < (a + b)[j].key
    {
      var (i', j') := (if i < |a| then i else i + 1, if j < |a| then j else j + 1);
      assert s[i'] == (a + b)[i] && s[j'] == (a + b)[j];
    }
  }

  ghost predicate HasKey(s: seq<Item>, key: int)
  {
    exists i :: 0 <= i < |s| && s[i].key == key
  }

  lemma Absent(c: Ctx, t: Tree, side: Direction, key: int)
    requires t.Node? && side != ROOT && Near(side, t).Nil? && Around(Step(side, t.color, c, t.item, Far(side, t)), key)
    ensures !HasKey(Items(Plug(c, t)), key) && Drop(Items(Plug(c, t)), key) == Items(Plug(c, t))
  {
    var cn := Step(side, t.color, c, t.item, Far(side, t));
    HoleItems(cn);
    assert Plug(cn, Near(side, t)) == Plug(c, t);
    hide Items, Before, After, Plug, Drop;
    var a: seq<Item>, b: seq<Item> := Before(cn), After(cn);
    forall i | 0 <= i < |a + b|
      ensures (a + b)[i].key != key
    {
      assert (a + b)[i] == if i < |a| then a[i] else b[i - |a|];
    }
    DropAbsent(a + b, key);
  }

  lemma Present(c: Ctx, t: Tree)
    requires t.Node?
    ensures exists i :: 0 <= i < |Items(Plug(c, t))| && Items(Plug(c, t))[i] == t.item
    ensures HasKey(Items(Plug(c, t)), t.item.key)
  {
    PlugItems(c, t);
    ItemsNode(t);
    hide Items, Before, After, Plug;
    Assoc(Before(c), Items(t.left), t.item, Items(t.right), After(c));
    assert Items(Plug(c, t))[|Before(c) + Items(t.left)|] == t.item;
  }

  lemma {:induction false} DropKeeps(s: seq<Item>, key: int, i: nat)
    requires i < |s| && s[i].key != key
    ensures exists j :: 0 <= j < |Drop(s, key)| && Drop(s, key)[j] == s[i]
  {
    var d := Drop(s[1..], key);
    if i == 0 {
      assert Drop(s, key)[0] == s[0];
    } else {
      DropKeeps(s[1..], key, i - 1);
      var j :| 0 <= j < |d| && d[j] == s[i];
      assert Drop(s, key)[if s[0].key == key then j else j + 1] == s[i];
    }
  }

  lemma SoundIs(c: Ctx, t: Tree)
    requires Sound(c, t)
    ensures RedBlack(t) && Fits(c, BlackHeight(t)) && (NeedsBlack(c) ==> !IsRed(t))
  {
  }

  lemma EndsSame(h: Heap, h': Heap, hd: Ref, s: seq<Item>, s': seq<Item>)
    requires EndsAre(h, hd, s) && SameEnds(h, h', hd) && |s| == |s'| > 0
    requires s'[0].ref == s[0].ref && s'[|s'| - 1].ref == s[|s| - 1].ref
    ensures EndsAre(h', hd, s')
  {
  }

  /** A node and its two subtrees share no memory. */
  lemma Parted(h: Heap, t: Tree, par: Ref)
    requires ShowsTree(h, t, par) && TreeUnique(t) && t.Node?
    ensures var x := t.item.ref;
            && ShowsTree(h, t.left, x) && ShowsTree(h, t.right, x) && TreeUnique(t.left) && TreeUnique(t.right)
            && x in h && h[x].left == RefOf(t.left) && h[x].right == RefOf(t.right)
            && x !in TreeRefs(t.left) && x !in TreeRefs(t.right) && TreeRefs(t.left) !! TreeRefs(t.right)
            && TreeRefs(t) == {x} + TreeRefs(t.left) + TreeRefs(t.right)
            && (t.left.Node? ==>
                RefOf(t.left) in h
                && TreeRefs(t.left) == {RefOf(t.left)} + TreeRefs(t.left.left) + TreeRefs(t.left.right))
            && (t.right.Node? ==>
                RefOf(t.right) in h
                && TreeRefs(t.right) == {RefOf(t.right)} + TreeRefs(t.right.left) + TreeRefs(t.right.right))
            && (t.left.Nil? ==> TreeRefs(t.left) == {}) && (t.right.Nil? ==> TreeRefs(t.right) == {})
  {
  }

  /** The item with this key lives at this address. */
  ghost predicate IsAt(s: seq<Item>, key: int, ref: Ref)
  {
    exists i :: 0 <= i < |s| && s[i].key == key && s[i].ref == ref
  }

  lemma PresentAt(c: Ctx, t: Tree)
    requires t.Node?
    ensures IsAt(Items(Plug(c, t)), t.item.key, t.item.ref) && HasKey(Items(Plug(c, t)), t.item.key)
  {
    Present(c, t);
  }

  lemma PutAt(a: seq<Item>, x: Item, b: seq<Item>)
    ensures IsAt(a + [x] + b, x.key, x.ref)
  {
    assert (a + [x] + b)[|a|] == x;
  }

  lemma RootNode(h: Heap, root: Ref, hd: Ref, w: Tree)
    requires Shows(h, root, hd, Top, w)
    ensures root == NULL <==> w.Nil?
    ensures root != NULL ==> w.Node? && w.item.ref == root
  {
  }

  lemma EmptyTree(h: Heap, root: Ref, hd: Ref, w: Tree)
    requires Shows(h, root, hd, Top, w)
    ensures root == NULL ==> w == Nil && Items(w) == [] && h.Keys == {hd}
  {
  }

  lemma TopAround(key: int)
    ensures Around(Top, key)
  {
  }

  lemma WholeParts(h: Heap, root: Ref, hd: Ref, w: Tree)
    requires Shows(h, root, hd, Top, w)
    ensures hd in h && hd != NULL && h[hd].color == Red
    ensures root == NULL ==> h.Keys == {hd} && h[hd].parent == NULL
    ensures root != NULL ==>
              && w.Node? && w.item.ref == root && root != hd && ShowsTree(h, w, hd) && TreeUnique(w)
              && NULL !in TreeRefs(w) && hd !in TreeRefs(w) && root in TreeRefs(w)
              && hd !in TreeRefs(w.left) + TreeRefs(w.right) && root !in TreeRefs(w.left) + TreeRefs(w.right)
              && h.Keys == {hd, root} + TreeRefs(w.left) + TreeRefs(w.right)
  {
  }

  lemma EmptyShows(h: Heap, hd: Ref)
    requires h.Keys == {hd} && hd != NULL && h[hd].parent == NULL && h[hd].color == Red
    ensures Shows(h, NULL, hd, Top, Nil) && RedBlack(Nil) && Items(Nil) == []
  {
    assert CtxRefs(Top) == {} && TreeRefs(Nil) == {};
  }
}
