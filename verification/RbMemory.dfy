/** Trees as they lie in memory: nodes with parent and child pointers, and the header node. */
module RbMemory {
  import opened RbTrees

  const NULL: Ref := 0

  datatype Cell = Cell(color: Color, parent: Ref, left: Ref, right: Ref, key: int, value: int)

  type Heap = map<Ref, Cell>

  function RefOf(t: Tree): Ref
  {
    if t.Nil? then NULL else t.item.ref
  }

  function ParentRef(c: Ctx, hd: Ref): Ref
  {
    if c.Top? then hd else c.item.ref
  }

  function TreeRefs(t: Tree): set<Ref>
  {
    if t.Nil? then {} else {t.item.ref} + TreeRefs(t.left) + TreeRefs(t.right)
  }

  function CtxRefs(c: Ctx): set<Ref>
  {
    if c.Top? then {} else {c.item.ref} + TreeRefs(c.sibling) + CtxRefs(c.up)
  }

  ghost predicate TreeUnique(t: Tree)
  {
    t.Node? ==>
      && TreeUnique(t.left) && TreeUnique(t.right)
      && t.item.ref !in TreeRefs(t.left) + TreeRefs(t.right) && TreeRefs(t.left) !! TreeRefs(t.right)
  }

  ghost predicate CtxUnique(c: Ctx)
  {
    c.Step? ==>
      && TreeUnique(c.sibling) && CtxUnique(c.up)
      && c.item.ref !in TreeRefs(c.sibling) + CtxRefs(c.up) && TreeRefs(c.sibling) !! CtxRefs(c.up)
  }

  ghost predicate ShowsTree(h: Heap, t: Tree, par: Ref)
  {
    t.Node? ==>
      var x := t.item.ref;
      && x in h
      && h[x] == Cell(t.color, par, RefOf(t.left), RefOf(t.right), t.item.key, t.item.value)
      && ShowsTree(h, t.left, x) && ShowsTree(h, t.right, x)
  }

  function CtxCell(c: Ctx, hd: Ref, hole: Ref): Cell
    requires c.Step?
  {
    if c.side == LEFT then Cell(c.color, ParentRef(c.up, hd), hole, RefOf(c.sibling), c.item.key, c.item.value)
    else Cell(c.color, ParentRef(c.up, hd), RefOf(c.sibling), hole, c.item.key, c.item.value)
  }

  ghost predicate ShowsCtx(h: Heap, root: Ref, hd: Ref, c: Ctx, hole: Ref)
    decreases c
  {
    if c.Top? then hd in h && h[hd].parent == hole && root == hole
    else
      && c.side != ROOT && c.item.ref in h && h[c.item.ref] == CtxCell(c, hd, hole)
      && ShowsTree(h, c.sibling, c.item.ref) && ShowsCtx(h, root, hd, c.up, c.item.ref)
  }

  /** The memory holds exactly the header and the nodes of `t` inside `c`, each once and properly
      linked: nothing is lost, nothing is shared, nothing dangles. */
  ghost predicate Shows(h: Heap, root: Ref, hd: Ref, c: Ctx, t: Tree)
  {
    && ShowsTree(h, t, ParentRef(c, hd)) && ShowsCtx(h, root, hd, c, RefOf(t))
    && TreeUnique(t) && CtxUnique(c) && CtxRefs(c) !! TreeRefs(t)
    && hd != NULL && hd !in CtxRefs(c) + TreeRefs(t) && NULL !in CtxRefs(c) + TreeRefs(t)
    && h.Keys == {hd} + CtxRefs(c) + TreeRefs(t) && h[hd].color == Red
  }

  lemma Down(h: Heap, root: Ref, hd: Ref, c: Ctx, t: Tree, side: Direction)
    requires Shows(h, root, hd, c, t) && t.Node? && side != ROOT
    ensures Shows(h, root, hd, Step(side, t.color, c, t.item, Far(side, t)), Near(side, t))
  {
    assert h.Keys == {hd} + (CtxRefs(c) + {t.item.ref} + TreeRefs(Far(side, t))) + TreeRefs(Near(side, t));
  }

  lemma Up(h: Heap, root: Ref, hd: Ref, c: Ctx, t: Tree)
    requires Shows(h, root, hd, c, t) && c.Step?
    ensures Shows(h, root, hd, c.up, Lift(c, t))
  {
    assert h.Keys == {hd} + CtxRefs(c.up) + TreeRefs(Lift(c, t));
  }

  lemma {:induction false} ToTop(h: Heap, root: Ref, hd: Ref, c: Ctx, t: Tree)
    requires Shows(h, root, hd, c, t)
    ensures Shows(h, root, hd, Top, Plug(c, t))
    decreases c
  {
    hide Shows;
    if c.Step? {
      Up(h, root, hd, c, t);
      ToTop(h, root, hd, c.up, Lift(c, t));
    }
  }

  // What a node's fields say.

  lemma NodeCell(h: Heap, root: Ref, hd: Ref, c: Ctx, t: Tree)
    requires Shows(h, root, hd, c, t) && t.Node?
    ensures var x := t.item.ref;
            && x in h && x != NULL && x != hd
            && h[x] == Cell(t.color, ParentRef(c, hd), RefOf(t.left), RefOf(t.right), t.item.key, t.item.value)
            && (root == x <==> c.Top?)
            && (t.left.Node? ==> RefOf(t.left) in h && RefOf(t.left) != NULL)
            && (t.right.Node? ==> RefOf(t.right) in h && RefOf(t.right) != NULL)
  {
    if c.Step? {
      RootInside(h, root, hd, c, t.item.ref);
    }
  }

  lemma {:induction false} RootInside(h: Heap, root: Ref, hd: Ref, c: Ctx, hole: Ref)
    requires c.Step? && ShowsCtx(h, root, hd, c, hole)
    ensures root in CtxRefs(c)
    decreases c
  {
    if c.up.Step? {
      RootInside(h, root, hd, c.up, c.item.ref);
    }
  }

  lemma HoleCell(h: Heap, root: Ref, hd: Ref, c: Ctx, t: Tree)
    requires Shows(h, root, hd, c, t)
    ensures hd in h && hd != NULL
    ensures c.Step? ==>
              && c.side != ROOT && c.item.ref in h && c.item.ref != NULL && c.item.ref != hd
              && h[c.item.ref] == CtxCell(c, hd, RefOf(t))
              && (c.sibling.Node? ==> RefOf(c.sibling) in h && RefOf(c.sibling) != NULL && RefOf(c.sibling) != RefOf(t))
              && (t.Node? ==> t.item.ref != RefOf(c.sibling))
    ensures c.Top? ==> root == RefOf(t) && h[hd].parent == RefOf(t)
  {
  }

  // Frames.

  ghost predicate Agree(h: Heap, h': Heap, s: set<Ref>)
  {
    forall x :: x in s && x in h ==> x in h' && h'[x] == h[x]
  }

  lemma {:induction false} FrameTree(h: Heap, h': Heap, t: Tree, par: Ref)
    requires ShowsTree(h, t, par) && Agree(h, h', TreeRefs(t))
    ensures ShowsTree(h', t, par)
  {
    if t.Node? {
      FrameTree(h, h', t.left, t.item.ref);
      FrameTree(h, h', t.right, t.item.ref);
    }
  }

  lemma Reparent(h: Heap, h': Heap, t: Tree, par: Ref, par': Ref)
    requires ShowsTree(h, t, par) && TreeUnique(t)
    requires t.Node? ==> t.item.ref in h' && h'[t.item.ref] == h[t.item.ref].(parent := par')
    requires forall x :: x in TreeRefs(t) && x in h && x != RefOf(t) ==> x in h' && h'[x] == h[x]
    ensures ShowsTree(h', t, par')
  {
    if t.Node? {
      FrameTree(h, h', t.left, t.item.ref);
      FrameTree(h, h', t.right, t.item.ref);
    }
  }

  lemma {:induction false} FrameCtx(h: Heap, h': Heap, root: Ref, hd: Ref, c: Ctx, hole: Ref)
    requires ShowsCtx(h, root, hd, c, hole) && Agree(h, h', CtxRefs(c))
    requires hd in h && hd in h' && h'[hd].parent == h[hd].parent
    ensures ShowsCtx(h', root, hd, c, hole)
    decreases c
  {
    if c.Step? {
      FrameTree(h, h', c.sibling, c.item.ref);
      FrameCtx(h, h', root, hd, c.up, c.item.ref);
    }
  }

  /** Another node in the hole. */
  ghost predicate Hung(h: Heap, h': Heap, root: Ref, root': Ref, hd: Ref, c: Ctx, hole': Ref)
  {
    && hd in h && hd in h'
    && if c.Top? then root' == hole' && h'[hd] == h[hd].(parent := hole')
       else
         var p := c.item.ref;
         && root' == root && h'[hd] == h[hd] && p in h && p in h'
         && h'[p] == if c.side == LEFT then h[p].(left := hole') else h[p].(right := hole')
  }

  lemma Rehang(h: Heap, h': Heap, root: Ref, root': Ref, hd: Ref, c: Ctx, hole: Ref, hole': Ref)
    requires ShowsCtx(h, root, hd, c, hole) && CtxUnique(c) && Hung(h, h', root, root', hd, c, hole')
    requires forall x :: x in CtxRefs(c) && x in h && x != ParentRef(c, hd) ==> x in h' && h'[x] == h[x]
    ensures ShowsCtx(h', root', hd, c, hole')
  {
    if c.Step? {
      FrameTree(h, h', c.sibling, c.item.ref);
      FrameCtx(h, h', root, hd, c.up, c.item.ref);
    }
  }

  lemma Painted(h: Heap, root: Ref, hd: Ref, c: Ctx, t: Tree, color: Color)
    requires Shows(h, root, hd, c, t) && t.Node?
    ensures var x := t.item.ref;
            x in h && Shows(h[x := h[x].(color := color)], root, hd, c, t.(color := color))
  {
    var x := t.item.ref;
    var h' := h[x := h[x].(color := color)];
    FrameTree(h, h', t.left, x);
    FrameTree(h, h', t.right, x);
    FrameCtx(h, h', root, hd, c, x);
    assert TreeRefs(t.(color := color)) == TreeRefs(t);
    assert h'.Keys == h.Keys;
  }
}
