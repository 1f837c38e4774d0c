/** Rotations: the turned tree, and the pointer writes that make it. */
module RbRotations {
  import opened RbTrees
  import opened RbMemory

  /** The header's cached ends. */
  ghost predicate SameEnds(h: Heap, h': Heap, hd: Ref)
  {
    hd in h && hd in h' && h'[hd].left == h[hd].left && h'[hd].right == h[hd].right
  }

  /** The turned subtree: the child opposite to `side` comes up, the node goes down on `side`. */
  function Turn(side: Direction, t: Tree): (u: Tree)
    requires t.Node? && Far(side, t).Node?
    ensures u.Node?
  {
    var s := Far(side, t);
    Join(side, s.color, Join(side, t.color, Near(side, t), t.item, Near(side, s)), s.item, Far(side, s))
  }

  lemma TurnItems(side: Direction, t: Tree)
    requires t.Node? && Far(side, t).Node?
    ensures Items(Turn(side, t)) == Items(t)
  {
    var s := Far(side, t);
    var inner := Join(side, t.color, Near(side, t), t.item, Near(side, s));
    if side == LEFT {
      assert Items(inner) == Items(t.left) + [t.item] + Items(s.left);
    } else {
      assert Items(inner) == Items(s.right) + [t.item] + Items(t.right);
    }
  }

  function Linked(side: Direction, x: Cell, near: Ref): Cell
  {
    if side == LEFT then x.(left := near) else x.(right := near)
  }

  /** The pointer changes that make a rotation. */
  ghost predicate Rotated(h: Heap, h': Heap, root: Ref, root': Ref, hd: Ref, c: Ctx, t: Tree, side: Direction)
    requires t.Node? && Far(side, t).Node?
  {
    var (n, s) := (t.item.ref, Far(side, t).item.ref);
    var b := RefOf(Near(side, Far(side, t)));
    && h'.Keys == h.Keys && n in h && s in h
    && h'[n] == Linked(Other(side), h[n].(parent := s), b)
    && h'[s] == Linked(side, h[s].(parent := ParentRef(c, hd)), n)
    && (b != NULL ==> b in h && h'[b] == h[b].(parent := n))
    && Hung(h, h', root, root', hd, c, s)
    && forall x :: x in h && x != n && x != s && x != b && x != hd && x != ParentRef(c, hd) ==> h'[x] == h[x]
  }

  /** The pieces of a rotation: what lies where, and that nothing overlaps. */
  ghost predicate Pieces(h: Heap, root: Ref, hd: Ref, c: Ctx, n: Ref, m: Ref, a: Tree, b: Tree, d: Tree, an: Ref,
      bn: Ref, dn: Ref, cn: Ref)
  {
    && ShowsTree(h, a, an) && ShowsTree(h, b, bn) && ShowsTree(h, d, dn) && ShowsCtx(h, root, hd, c, cn)
    && Apart(hd, c, n, m, a, b, d)
  }

  ghost predicate Apart(hd: Ref, c: Ctx, n: Ref, m: Ref, a: Tree, b: Tree, d: Tree)
  {
    && TreeUnique(a) && TreeUnique(b) && TreeUnique(d) && CtxUnique(c)
    && TreeRefs(a) !! TreeRefs(b) && TreeRefs(a) !! TreeRefs(d) && TreeRefs(b) !! TreeRefs(d)
    && CtxRefs(c) !! TreeRefs(a) && CtxRefs(c) !! TreeRefs(b) && CtxRefs(c) !! TreeRefs(d)
    && n != m && n !in TreeRefs(a) + TreeRefs(b) + TreeRefs(d) + CtxRefs(c)
    && m !in TreeRefs(a) + TreeRefs(b) + TreeRefs(d) + CtxRefs(c)
    && hd != n && hd != m && hd !in TreeRefs(a) + TreeRefs(b) + TreeRefs(d) + CtxRefs(c)
    && NULL != n && NULL != m && NULL !in TreeRefs(a) + TreeRefs(b) + TreeRefs(d) + CtxRefs(c)
  }

  lemma SetsApart(hd: Ref, c: Ctx, t: Tree, side: Direction)
    requires side != ROOT && t.Node? && Far(side, t).Node?
    ensures var s := Far(side, t);
            && TreeRefs(t) == {t.item.ref, s.item.ref} + TreeRefs(Near(side, t)) + TreeRefs(Near(side,
                s)) + TreeRefs(Far(side, s))
            && (Apart(hd, c, t.item.ref, s.item.ref, Near(side, t), Near(side, s), Far(side, s)) <==>
                && TreeUnique(t) && CtxUnique(c) && CtxRefs(c) !! TreeRefs(t) && hd !in CtxRefs(c) + TreeRefs(t)
                    && NULL !in CtxRefs(c) + TreeRefs(t))
  {
    hide CtxUnique, CtxRefs;
    var s := Far(side, t);
    assert TreeRefs(s) == {s.item.ref} + TreeRefs(Near(side, s)) + TreeRefs(Far(side, s));
    assert TreeRefs(t) == {t.item.ref} + TreeRefs(Near(side, t)) + TreeRefs(s);
  }

  lemma TakeApart(h: Heap, root: Ref, hd: Ref, c: Ctx, t: Tree, side: Direction)
    requires Shows(h, root, hd, c, t) && side != ROOT && t.Node? && Far(side, t).Node?
    ensures var (n, s) := (t.item.ref, Far(side, t));
            var m := s.item.ref;
            && Pieces(h, root, hd, c, n, m, Near(side, t), Near(side, s), Far(side, s), n, m, m, n)
            && n in h && m in h && h[hd].color == Red
            && h.Keys == {hd} + CtxRefs(c) + {n,
                m} + TreeRefs(Near(side, t)) + TreeRefs(Near(side, s)) + TreeRefs(Far(side, s))
    ensures var (n, s) := (t.item.ref, Far(side, t));
            && h[n] == CtxCell(Step(side, t.color, c, t.item, s), hd, RefOf(Near(side, t)))
            && h[s.item.ref] == Linked(side, Linked(Other(side), Cell(s.color, n, NULL, NULL, s.item.key, s.item.value),
                RefOf(Far(side, s))), RefOf(Near(side, s)))
  {
    hide ShowsCtx, CtxUnique, CtxRefs, TreeRefs, TreeUnique, Apart;
    SetsApart(hd, c, t, side);
    assert ShowsTree(h, Far(side, t), t.item.ref);
  }

  lemma Spared(h: Heap, h': Heap, root: Ref, root': Ref, hd: Ref, c: Ctx, t: Tree, side: Direction, s: set<Ref>)
    requires t.Node? && Far(side, t).Node? && Rotated(h, h', root, root', hd, c, t, side)
    requires var f := Far(side, t);
             s !! {t.item.ref, f.item.ref, RefOf(Near(side, f)), hd, ParentRef(c, hd)}
    ensures Agree(h, h', s)
  {
    hide Far, Near, Hung, Linked;
  }

  lemma Distances(hd: Ref, c: Ctx, n: Ref, m: Ref, a: Tree, b: Tree, d: Tree)
    requires Apart(hd, c, n, m, a, b, d)
    ensures TreeRefs(a) !! {n, m, RefOf(b), hd, ParentRef(c, hd)}
    ensures TreeRefs(d) !! {n, m, RefOf(b), hd, ParentRef(c, hd)}
    ensures TreeRefs(b) - {RefOf(b)} !! {n, m, RefOf(b), hd, ParentRef(c, hd)}
    ensures CtxRefs(c) - {ParentRef(c, hd)} !! {n, m, RefOf(b), hd, ParentRef(c, hd)}
    ensures Apart(hd, c, m, n, d, b, a)
  {
    assert c.Step? ==> ParentRef(c, hd) in CtxRefs(c);
    assert b.Node? ==> RefOf(b) in TreeRefs(b);
    hide TreeRefs, CtxRefs, TreeUnique, CtxUnique;
  }

  lemma RotatedPieces(h: Heap, h': Heap, root: Ref, root': Ref, hd: Ref, c: Ctx, t: Tree, side: Direction)
    requires Shows(h, root, hd, c, t) && side != ROOT && t.Node? && Far(side, t).Node?
    requires Rotated(h, h', root, root', hd, c, t, side)
    ensures var (n, s) := (t.item.ref, Far(side, t));
            var m := s.item.ref;
            Pieces(h', root', hd, c, m, n, Far(side, s), Near(side, s), Near(side, t), m, n, n, m)
  {
    var (n, s) := (t.item.ref, Far(side, t));
    var m := s.item.ref;
    TakeApart(h, root, hd, c, t, side);
    hide Shows, ShowsCtx, ShowsTree, Far, Near, Hung, Linked, TreeRefs, CtxRefs, Apart;
    Distances(hd, c, n, m, Near(side, t), Near(side, s), Far(side, s));
    Spared(h, h', root, root', hd, c, t, side, TreeRefs(Near(side, t)));
    Spared(h, h', root, root', hd, c, t, side, TreeRefs(Far(side, s)));
    Spared(h, h', root, root', hd, c, t, side, TreeRefs(Near(side, s)) - {RefOf(Near(side, s))});
    Spared(h, h', root, root', hd, c, t, side, CtxRefs(c) - {ParentRef(c, hd)});
    FrameTree(h, h', Near(side, t), n);
    Reparent(h, h', Near(side, s), m, n);
    FrameTree(h, h', Far(side, s), m);
    Rehang(h, h', root, root', hd, c, n, m);
  }

  lemma PutTogether(h: Heap, root: Ref, hd: Ref, c: Ctx, t: Tree, side: Direction)
    requires side != ROOT && t.Node? && Far(side, t).Node?
    requires var (n, s) := (t.item.ref, Far(side, t));
             var m := s.item.ref;
             && Pieces(h, root, hd, c, n, m, Near(side, t), Near(side, s), Far(side, s), n, m, m, n)
             && hd in h && n in h && m in h && h[hd].color == Red && hd != NULL
             && h.Keys == {hd} + CtxRefs(c) + {n,
                 m} + TreeRefs(Near(side, t)) + TreeRefs(Near(side, s)) + TreeRefs(Far(side, s))
             && h[n] == CtxCell(Step(side, t.color, c, t.item, s), hd, RefOf(Near(side, t)))
             && h[m] == Linked(side, Linked(Other(side), Cell(s.color, n, NULL, NULL, s.item.key, s.item.value),
                 RefOf(Far(side, s))), RefOf(Near(side, s)))
    ensures Shows(h, root, hd, c, t)
  {
    hide ShowsCtx, CtxUnique, CtxRefs, TreeRefs, TreeUnique, Apart;
    SetsApart(hd, c, t, side);
    assert ShowsTree(h, Far(side, t), t.item.ref);
  }

  lemma RotatedCells(h: Heap, h': Heap, root: Ref, root': Ref, hd: Ref, c: Ctx, t: Tree, side: Direction)
    requires Shows(h, root, hd, c, t) && side != ROOT && t.Node? && Far(side, t).Node?
    requires Rotated(h, h', root, root', hd, c, t, side)
    ensures var (n, s) := (t.item.ref, Far(side, t));
            var m := s.item.ref;
            && n in h' && m in h' && hd in h' && hd != NULL && h'[hd].color == Red
            && h'[m] == CtxCell(Step(Other(side), s.color, c, s.item, Node(Black, Nil, t.item, Nil)), hd,
                RefOf(Far(side, s)))
            && h'[n] == Linked(Other(side), Linked(side, Cell(t.color, m, NULL, NULL, t.item.key, t.item.value),
                RefOf(Near(side, t))), RefOf(Near(side, s)))
  {
    TakeApart(h, root, hd, c, t, side);
    hide Shows, TreeRefs, CtxRefs, TreeUnique, CtxUnique, ShowsTree, ShowsCtx, Pieces;
  }

  lemma RotatedShows(h: Heap, h': Heap, root: Ref, root': Ref, hd: Ref, c: Ctx, t: Tree, side: Direction)
    requires Shows(h, root, hd, c, t) && side != ROOT && t.Node? && Far(side, t).Node?
    requires Rotated(h, h', root, root', hd, c, t, side)
    ensures Shows(h', root', hd, c, Turn(side, t))
  {
    TakeApart(h, root, hd, c, t, side);
    RotatedCells(h, h', root, root', hd, c, t, side);
    RotatedPieces(h, h', root, root', hd, c, t, side);
    TurnParts(side, t);
    hide Shows, TreeRefs, CtxRefs, Turn, TreeUnique, CtxUnique, ShowsTree, ShowsCtx, Pieces, Hung;
    var (n, s) := (t.item.ref, Far(side, t));
    Regrouped({hd} + CtxRefs(c), n, s.item.ref, TreeRefs(Near(side, t)), TreeRefs(Near(side, s)),
        TreeRefs(Far(side, s)));
    hide Rotated, CtxCell, Linked;
    PutTogether(h', root', hd, c, Turn(side, t), Other(side));
  }

  lemma Regrouped(z: set<Ref>, n: Ref, m: Ref, a: set<Ref>, b: set<Ref>, d: set<Ref>)
    ensures z + {n, m} + a + b + d == z + {m, n} + d + b + a
  {
  }

  lemma TurnParts(side: Direction, t: Tree)
    requires side != ROOT && t.Node? && Far(side, t).Node?
    ensures var (s, u) := (Far(side, t), Turn(side, t));
            && u.Node? && u.item == s.item && u.color == s.color && Far(Other(side), u).Node?
            && var v := Far(Other(side), u);
            && v.item == t.item && v.color == t.color
            && Near(Other(side), u) == Far(side, s) && Near(Other(side), v) == Near(side, s)
                && Far(Other(side), v) == Near(side, t)
  {
  }

  /** The nodes a rotation touches are all different. */
  lemma RotationCells(h: Heap, root: Ref, hd: Ref, c: Ctx, t: Tree, side: Direction)
    requires Shows(h, root, hd, c, t) && side != ROOT && t.Node? && Far(side, t).Node?
    ensures var (n, s) := (t.item.ref, Far(side, t));
            var (m, a, b, d, p) := (s.item.ref, RefOf(Near(side, t)), RefOf(Near(side, s)), RefOf(Far(side, s)),
                ParentRef(c, hd));
            && n in h && m in h && p in h && hd in h && h[n].parent == p
            && n != NULL && m != NULL && p != NULL && hd != NULL
            && n != m && n != p && m != p && n != hd && m != hd
            && (a != NULL ==> a in h && h[a].parent == n && a != m && a != n && a != p && a != hd && a != b && a != d)
            && (b != NULL ==> b in h && h[b].parent == m && b != m && b != n && b != p && b != hd && b != d)
            && (d != NULL ==> d in h && h[d].parent == m && d != m && d != n && d != p && d != hd)
            && h[n] == CtxCell(Step(side, t.color, c, t.item, s), hd, a)
            && h[m] == Linked(side, Linked(Other(side), Cell(s.color, n, NULL, NULL, s.item.key, s.item.value), d), b)
            && (c.Step? ==> p != hd && c.side != ROOT && h[p] == CtxCell(c, hd, n) && root != n)
            && (c.Top? ==> root == n && p == hd)
  {
    TakeApart(h, root, hd, c, t, side);
    NodeCell(h, root, hd, c, t);
    HoleCell(h, root, hd, c, t);
    var s := Far(side, t);
    var (a, b, d) := (Near(side, t), Near(side, s), Far(side, s));
    assert c.Step? ==> ParentRef(c, hd) in CtxRefs(c);
    assert a.Node? ==> RefOf(a) in TreeRefs(a) && RefOf(a) in h && h[RefOf(a)].parent == t.item.ref;
    assert b.Node? ==> RefOf(b) in TreeRefs(b) && RefOf(b) in h && h[RefOf(b)].parent == s.item.ref;
    assert d.Node? ==> RefOf(d) in TreeRefs(d) && RefOf(d) in h && h[RefOf(d)].parent == s.item.ref;
    hide Shows, ShowsTree, ShowsCtx, TreeRefs, CtxRefs, TreeUnique, CtxUnique, Near, Far;
  }

  function Hang(h: Heap, parent: Ref, direction: Direction, hd: Ref, x: Ref): (r: Heap)
    requires parent in h && hd in h
    ensures r.Keys == h.Keys
  {
    match direction
    case ROOT => h[hd := h[hd].(parent := x)]
    case LEFT => h[parent := h[parent].(left := x)]
    case RIGHT => h[parent := h[parent].(right := x)]
  }

  /** The middle child has changed hands. */
  function Cross(h: Heap, n: Ref, m: Ref, b: Ref, side: Direction): Heap
    requires n in h && m in h && (b != NULL ==> b in h)
  {
    (if b == NULL then h else h[b := h[b].(parent := n)])
    [n := Linked(Other(side), h[n].(parent := m), b)]
    [m := Linked(side, h[m], n)]
  }

  function Maintain(h: Heap, node: Ref): Heap
    requires node in h
  {
    Back(Back(h, h[node].left, node), h[node].right, node)
  }

  function Back(h: Heap, child: Ref, node: Ref): (r: Heap)
    ensures node in h ==> node in r
  {
    if child != NULL && child in h then h[child := h[child].(parent := node)] else h
  }

  lemma CrossedCells(h: Heap, n: Ref, m: Ref, a: Ref, b: Ref, d: Ref, side: Direction)
    requires side != ROOT && n in h && m in h && n != m && n != NULL && m != NULL
    requires a != NULL ==> a in h && h[a].parent == n && a != m && a != n && a != b && a != d
    requires b != NULL ==> b in h && b != m && b != n && b != d
    requires d != NULL ==> d in h && h[d].parent == m && d != m && d != n
    requires h[n].parent != m
    requires (if side == LEFT then h[n].left else h[n].right) == a
    requires (if side == LEFT then h[m].right else h[m].left) == d
    ensures var g := h[n := Linked(Other(side), h[n], b)];
            var g := g[m := Linked(side, g[m], n)];
            && (g[n].left != NULL ==> g[n].left in g) && (g[n].right != NULL ==> g[n].right in g)
            && var g' := Maintain(g, n);
            && m in g' && (g'[m].left != NULL ==> g'[m].left in g') && (g'[m].right != NULL ==> g'[m].right in g')
            && Maintain(g', m) == Cross(h, n, m, b, side)
  {
  }

  lemma Crossed(h: Heap, root: Ref, hd: Ref, c: Ctx, t: Tree, side: Direction)
    requires Shows(h, root, hd, c, t) && side != ROOT && t.Node? && Far(side, t).Node?
    ensures var (n, m, b) := (t.item.ref, Far(side, t).item.ref, RefOf(Near(side, Far(side, t))));
            && n in h && m in h && (b != NULL ==> b in h)
            && var g := h[n := Linked(Other(side), h[n], b)];
            && var g := g[m := Linked(side, g[m], n)];
            && (g[n].left != NULL ==> g[n].left in g) && (g[n].right != NULL ==> g[n].right in g)
            && var g' := Maintain(g, n);
            && m in g' && (g'[m].left != NULL ==> g'[m].left in g') && (g'[m].right != NULL ==> g'[m].right in g')
            && Maintain(g', m) == Cross(h, n, m, b, side)
  {
    RotationCells(h, root, hd, c, t, side);
    var s := Far(side, t);
    CrossedCells(h, t.item.ref, s.item.ref, RefOf(Near(side, t)), RefOf(Near(side, s)), RefOf(Far(side, s)), side);
    hide Shows, Near, Far, Maintain, Cross, Linked;
  }

  function ByHand(h: Heap, n: Ref, m: Ref, b: Ref, p: Ref, direction: Direction, hd: Ref, side: Direction): Heap
    requires n in h && m in h && p in h && hd in h && (b != NULL ==> b in h)
  {
    var g := Hang(Cross(h, n, m, b, side), p, direction, hd, m);
    g[m := g[m].(parent := p)]
  }

  lemma ByHandElsewhere(h: Heap, n: Ref, m: Ref, b: Ref, p: Ref, direction: Direction, hd: Ref, side: Direction)
    requires n in h && m in h && p in h && hd in h && (b != NULL ==> b in h)
    ensures var h' := ByHand(h, n, m, b, p, direction, hd, side);
            && h'.Keys == h.Keys
            && forall x :: x in h && x != n && x != m && x != b && x != hd && x != p ==> h'[x] == h[x]
  {
    hide Linked;
  }

  lemma ByHandCells(h: Heap, n: Ref, m: Ref, b: Ref, p: Ref, direction: Direction, hd: Ref, side: Direction)
    requires n in h && m in h && p in h && hd in h && (b != NULL ==> b in h)
    requires n != m && n != p && m != p && n != hd && m != hd && b != n && b != m && b != p && b != hd
    requires direction == ROOT <==> p == hd
    ensures var h' := ByHand(h, n, m, b, p, direction, hd, side);
            && n in h' && m in h' && p in h' && hd in h'
            && h'[n] == Linked(Other(side), h[n].(parent := m), b)
            && h'[m] == Linked(side, h[m].(parent := p), n)
            && (b != NULL ==> b in h' && h'[b] == h[b].(parent := n))
            && (p != hd ==> h'[hd] == h[hd])
            && h'[p] == (match direction case ROOT => h[p].(parent := m) case LEFT => h[p].(left := m) case RIGHT =>
                h[p].(right := m))
  {
  }

  lemma RotatedByHand(h: Heap, root: Ref, hd: Ref, c: Ctx, t: Tree, side: Direction)
    requires Shows(h, root, hd, c, t) && side != ROOT && t.Node? && Far(side, t).Node?
    ensures var (n, m, b, p) := (t.item.ref, Far(side, t).item.ref, RefOf(Near(side, Far(side, t))), ParentRef(c, hd));
            && n in h && m in h && p in h && hd in h && (b != NULL ==> b in h)
            && var h' := ByHand(h, n, m, b, p, if c.Top? then ROOT else c.side, hd, side);
            && Rotated(h, h', root, if c.Top? then m else root, hd, c, t, side) && SameEnds(h, h', hd)
  {
    RotationCells(h, root, hd, c, t, side);
    var (n, m, b, p) := (t.item.ref, Far(side, t).item.ref, RefOf(Near(side, Far(side, t))), ParentRef(c, hd));
    ByHandElsewhere(h, n, m, b, p, if c.Top? then ROOT else c.side, hd, side);
    ByHandCells(h, n, m, b, p, if c.Top? then ROOT else c.side, hd, side);
    hide Shows, Near, Far, CtxCell, ByHand, Linked;
  }
}
