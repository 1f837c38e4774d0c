/** Two nodes trade places: memory and tree under a renaming. */
module RbSwap {
  import opened RbTrees
  import opened RbMemory
  import opened RbRepairs
  import opened RbRotations

  function Alias(x: Ref, n: Ref, s: Ref): Ref
  {
    if x == n then s else if x == s then n else x
  }

  function Trade(x: Item, n: Item, s: Item): Item
  {
    if x.ref == n.ref then s else if x.ref == s.ref then n else x
  }

  function TradeTree(t: Tree, n: Item, s: Item): Tree
  {
    if t.Nil? then Nil else Node(t.color, TradeTree(t.left, n, s), Trade(t.item, n, s), TradeTree(t.right, n, s))
  }

  function TradeCtx(c: Ctx, n: Item, s: Item): Ctx
  {
    if c.Top? then Top else Step(c.side, c.color, TradeCtx(c.up, n, s), Trade(c.item, n, s), TradeTree(c.sibling, n, s))
  }

  /** The two nodes have traded places: every pointer to one now points to the other, and each
      keeps its key and value. */
  ghost predicate Traded(h: Heap, h': Heap, hd: Ref, n: Item, s: Item)
  {
    && h'.Keys == h.Keys && hd in h && n.ref in h && s.ref in h
    && h'[hd] == h[hd].(parent := Alias(h[hd].parent, n.ref, s.ref))
    && forall x :: x in h && x != hd ==> TradedAt(h, h', n, s, x)
  }

  ghost predicate TradedAt(h: Heap, h': Heap, n: Item, s: Item, x: Ref)
    requires x in h && n.ref in h && s.ref in h && h'.Keys == h.Keys
  {
    var from := h[Alias(x, n.ref, s.ref)];
    h'[x] == Cell(from.color, Alias(from.parent, n.ref, s.ref), Alias(from.left, n.ref, s.ref),
        Alias(from.right, n.ref, s.ref),
      h[x].key, h[x].value)
  }

  ghost predicate Genuine(h: Heap, hd: Ref, n: Item, s: Item)
  {
    && n.ref in h && s.ref in h && n.ref != s.ref && n.ref != NULL && s.ref != NULL && n.ref != hd && s.ref != hd
    && h[n.ref].key == n.key && h[n.ref].value == n.value && h[s.ref].key == s.key && h[s.ref].value == s.value
  }

  lemma TradeRef(t: Tree, n: Item, s: Item)
    requires n.ref != NULL && s.ref != NULL && (t.Node? ==> t.item.ref != NULL)
    ensures RefOf(TradeTree(t, n, s)) == Alias(RefOf(t), n.ref, s.ref)
  {
  }

  lemma {:induction false} TradeShowsTree(h: Heap, h': Heap, hd: Ref, t: Tree, par: Ref, n: Item, s: Item)
    requires ShowsTree(h, t, par) && Traded(h, h', hd, n, s) && Genuine(h, hd, n, s)
    requires hd !in TreeRefs(t) && NULL !in TreeRefs(t)
    ensures ShowsTree(h', TradeTree(t, n, s), Alias(par, n.ref, s.ref))
  {
    if t.Node? {
      TradeShowsTree(h, h', hd, t.left, t.item.ref, n, s);
      TradeShowsTree(h, h', hd, t.right, t.item.ref, n, s);
      TradeRef(t.left, n, s);
      TradeRef(t.right, n, s);
      TradedCell(h, h', hd, n, s, t.item);
    }
  }

  lemma TradedCell(h: Heap, h': Heap, hd: Ref, n: Item, s: Item, x: Item)
    requires Traded(h, h', hd, n, s) && Genuine(h, hd, n, s) && x.ref in h && x.ref != hd
    requires h[x.ref].key == x.key && h[x.ref].value == x.value
    ensures var y := Trade(x, n, s);
            && y.ref == Alias(x.ref, n.ref, s.ref) && y.ref in h'
            && h'[y.ref] == Cell(h[x.ref].color, Alias(h[x.ref].parent, n.ref, s.ref),
                Alias(h[x.ref].left, n.ref, s.ref),
                                 Alias(h[x.ref].right, n.ref, s.ref), y.key, y.value)
  {
    assert TradedAt(h, h', n, s, Alias(x.ref, n.ref, s.ref));
  }

  lemma {:induction false} TradeShowsCtx(h: Heap, h': Heap, root: Ref, hd: Ref, c: Ctx, hole: Ref, n: Item, s: Item)
    requires ShowsCtx(h, root, hd, c, hole) && Traded(h, h', hd, n, s) && Genuine(h, hd, n, s)
    requires hd !in CtxRefs(c) && NULL !in CtxRefs(c)
    ensures ShowsCtx(h', Alias(root, n.ref, s.ref), hd, TradeCtx(c, n, s), Alias(hole, n.ref, s.ref))
    decreases c
  {
    if c.Step? {
      TradeShowsTree(h, h', hd, c.sibling, c.item.ref, n, s);
      TradeShowsCtx(h, h', root, hd, c.up, c.item.ref, n, s);
      TradeRef(c.sibling, n, s);
      TradedCell(h, h', hd, n, s, c.item);
      assert ParentRef(TradeCtx(c.up, n, s), hd) == Alias(ParentRef(c.up, hd), n.ref, s.ref);
    }
  }

  lemma {:induction false} TradeTreeRefs(t: Tree, n: Item, s: Item, x: Ref)
    requires n.ref != s.ref
    ensures x in TreeRefs(TradeTree(t, n, s)) <==> Alias(x, n.ref, s.ref) in TreeRefs(t)
  {
    if t.Node? {
      TradeTreeRefs(t.left, n, s, x);
      TradeTreeRefs(t.right, n, s, x);
    }
  }

  lemma {:induction false} TradeCtxRefs(c: Ctx, n: Item, s: Item, x: Ref)
    requires n.ref != s.ref
    ensures x in CtxRefs(TradeCtx(c, n, s)) <==> Alias(x, n.ref, s.ref) in CtxRefs(c)
    decreases c
  {
    if c.Step? {
      TradeTreeRefs(c.sibling, n, s, x);
      TradeCtxRefs(c.up, n, s, x);
    }
  }

  lemma {:induction false} TradeTreeUnique(t: Tree, n: Item, s: Item)
    requires TreeUnique(t) && n.ref != s.ref
    ensures TreeUnique(TradeTree(t, n, s))
  {
    if t.Node? {
      TradeTreeUnique(t.left, n, s);
      TradeTreeUnique(t.right, n, s);
      forall x
        ensures x in TreeRefs(TradeTree(t.left, n, s)) <==> Alias(x, n.ref, s.ref) in TreeRefs(t.left)
        ensures x in TreeRefs(TradeTree(t.right, n, s)) <==> Alias(x, n.ref, s.ref) in TreeRefs(t.right)
      {
        TradeTreeRefs(t.left, n, s, x);
        TradeTreeRefs(t.right, n, s, x);
      }
      assert Alias(Trade(t.item, n, s).ref, n.ref, s.ref) == t.item.ref;
    }
  }

  lemma {:induction false} TradeCtxUnique(c: Ctx, n: Item, s: Item)
    requires CtxUnique(c) && n.ref != s.ref
    ensures CtxUnique(TradeCtx(c, n, s))
    decreases c
  {
    if c.Step? {
      TradeTreeUnique(c.sibling, n, s);
      TradeCtxUnique(c.up, n, s);
      forall x
        ensures x in TreeRefs(TradeTree(c.sibling, n, s)) <==> Alias(x, n.ref, s.ref) in TreeRefs(c.sibling)
        ensures x in CtxRefs(TradeCtx(c.up, n, s)) <==> Alias(x, n.ref, s.ref) in CtxRefs(c.up)
      {
        TradeTreeRefs(c.sibling, n, s, x);
        TradeCtxRefs(c.up, n, s, x);
      }
      assert Alias(Trade(c.item, n, s).ref, n.ref, s.ref) == c.item.ref;
    }
  }

  lemma TradeSets(all: set<Ref>, hd: Ref, a: set<Ref>, b: set<Ref>, a': set<Ref>, b': set<Ref>, n: Ref, s: Ref)
    requires all == {hd} + a + b && a !! b && hd !in a + b && NULL !in a + b
    requires n in a + b && s in a + b
    requires forall x :: x in a' <==> Alias(x, n, s) in a
    requires forall x :: x in b' <==> Alias(x, n, s) in b
    ensures all == {hd} + a' + b' && a' !! b' && hd !in a' + b' && NULL !in a' + b'
  {
    forall x | x in all
      ensures x in {hd} + a' + b'
    {
      assert Alias(x, n, s) in {hd} + a + b;
    }
  }

  lemma TradeRefSets(c: Ctx, t: Tree, n: Item, s: Item)
    requires n.ref != s.ref
    ensures forall x :: x in TreeRefs(TradeTree(t, n, s)) <==> Alias(x, n.ref, s.ref) in TreeRefs(t)
    ensures forall x :: x in CtxRefs(TradeCtx(c, n, s)) <==> Alias(x, n.ref, s.ref) in CtxRefs(c)
  {
    forall x
      ensures x in TreeRefs(TradeTree(t, n, s)) <==> Alias(x, n.ref, s.ref) in TreeRefs(t)
      ensures x in CtxRefs(TradeCtx(c, n, s)) <==> Alias(x, n.ref, s.ref) in CtxRefs(c)
    {
      TradeTreeRefs(t, n, s, x);
      TradeCtxRefs(c, n, s, x);
    }
  }

  lemma TradeLinks(h: Heap, h': Heap, root: Ref, hd: Ref, c: Ctx, t: Tree, n: Item, s: Item)
    requires Shows(h, root, hd, c, t) && Traded(h, h', hd, n, s) && Genuine(h, hd, n, s)
    ensures var (c', t') := (TradeCtx(c, n, s), TradeTree(t, n, s));
            ShowsTree(h', t', ParentRef(c', hd)) && ShowsCtx(h', Alias(root, n.ref, s.ref), hd, c', RefOf(t'))
  {
    TradeShowsTree(h, h', hd, t, ParentRef(c, hd), n, s);
    TradeShowsCtx(h, h', root, hd, c, RefOf(t), n, s);
    TradeRef(t, n, s);
    assert ParentRef(TradeCtx(c, n, s), hd) == Alias(ParentRef(c, hd), n.ref, s.ref);
  }

  lemma TradeShows(h: Heap, h': Heap, root: Ref, hd: Ref, c: Ctx, t: Tree, n: Item, s: Item)
    requires Shows(h, root, hd, c, t) && Traded(h, h', hd, n, s) && Genuine(h, hd, n, s)
    ensures Shows(h', Alias(root, n.ref, s.ref), hd, TradeCtx(c, n, s), TradeTree(t, n, s))
  {
    TradeLinks(h, h', root, hd, c, t, n, s);
    TradeTreeUnique(t, n, s);
    TradeCtxUnique(c, n, s);
    TradeRefSets(c, t, n, s);
    hide ShowsTree, ShowsCtx, TreeUnique, CtxUnique, TreeRefs, CtxRefs, TradeTree, TradeCtx, TradedAt;
    TradeSets(h.Keys, hd, CtxRefs(c), TreeRefs(t), CtxRefs(TradeCtx(c, n, s)), TreeRefs(TradeTree(t, n, s)), n.ref,
        s.ref);
  }

  // Colours and shape do not change, the contents trade two items.

  lemma {:induction false} TradeRedBlack(t: Tree, n: Item, s: Item)
    ensures RedBlack(TradeTree(t, n, s)) == RedBlack(t) && BlackHeight(TradeTree(t, n, s)) == BlackHeight(t)
    ensures IsRed(TradeTree(t, n, s)) == IsRed(t)
  {
    if t.Node? {
      TradeRedBlack(t.left, n, s);
      TradeRedBlack(t.right, n, s);
    }
  }

  lemma {:induction false} TradeFits(c: Ctx, n: Item, s: Item, h: nat)
    ensures Fits(TradeCtx(c, n, s), h) == Fits(c, h) && NeedsBlack(TradeCtx(c, n, s)) == NeedsBlack(c)
    decreases c
  {
    if c.Step? {
      TradeRedBlack(c.sibling, n, s);
      TradeFits(c.up, n, s, h + Weight(c.color));
    }
  }

  function TradeItems(a: seq<Item>, n: Item, s: Item): seq<Item>
  {
    seq(|a|, i requires 0 <= i < |a| => Trade(a[i], n, s))
  }

  lemma {:induction false} TradeTreeItems(t: Tree, n: Item, s: Item)
    ensures Items(TradeTree(t, n, s)) == TradeItems(Items(t), n, s)
  {
    if t.Node? {
      TradeTreeItems(t.left, n, s);
      TradeTreeItems(t.right, n, s);
    }
  }

  lemma {:induction false} TradeCtxItems(c: Ctx, n: Item, s: Item)
    ensures Before(TradeCtx(c, n, s)) == TradeItems(Before(c), n, s)
            && After(TradeCtx(c, n, s)) == TradeItems(After(c), n, s)
    decreases c
  {
    if c.Step? {
      TradeTreeItems(c.sibling, n, s);
      TradeCtxItems(c.up, n, s);
    }
  }

  // Pointers come in pairs.

  lemma {:induction false} Locate(h: Heap, root: Ref, hd: Ref, c: Ctx, t: Tree, x: Ref) returns (d: Ctx, u: Tree)
    requires Shows(h, root, hd, c, t) && x in TreeRefs(t)
    ensures Shows(h, root, hd, d, u) && u.Node? && u.item.ref == x && Plug(d, u) == Plug(c, t)
    decreases t
  {
    hide Shows;
    if t.item.ref == x {
      d, u := c, t;
    } else if x in TreeRefs(t.left) {
      Down(h, root, hd, c, t, LEFT);
      d, u := Locate(h, root, hd, Step(LEFT, t.color, c, t.item, t.right), t.left, x);
    } else {
      Down(h, root, hd, c, t, RIGHT);
      d, u := Locate(h, root, hd, Step(RIGHT, t.color, c, t.item, t.left), t.right, x);
    }
  }

  /** Parent and child pointers agree around a node. */
  ghost predicate Mutual(h: Heap, root: Ref, hd: Ref, x: Ref)
  {
    && x in h
    && (h[x].left != NULL ==> h[x].left in h && h[x].left != hd && h[h[x].left].parent == x && h[x].left != h[x].right)
    && (h[x].right != NULL ==> h[x].right in h && h[x].right != hd && h[h[x].right].parent == x)
    && h[x].parent in h
    && (h[x].parent == hd <==> root == x)
    && (h[x].parent != hd ==> h[h[x].parent].left == x || h[h[x].parent].right == x)
  }

  lemma AllMutual(h: Heap, root: Ref, hd: Ref, w: Tree, x: Ref)
    requires Shows(h, root, hd, Top, w) && x in h && x != hd
    ensures Mutual(h, root, hd, x)
  {
    var c, t := Locate(h, root, hd, Top, w, x);
    NodeCell(h, root, hd, c, t);
    HoleCell(h, root, hd, c, t);
    assert ShowsTree(h, t.left, x) && ShowsTree(h, t.right, x);
    assert t.left.Node? ==> t.left.item.ref in TreeRefs(t.left);
    assert t.right.Node? ==> t.right.item.ref in TreeRefs(t.right);
    assert c.Step? ==> c.item.ref in CtxRefs(c);
  }

  // The pointer writes that make two nodes trade places.

  /** Swaps parent, children and colour of two nodes. */
  function Exchange(h: Heap, n: Ref, s: Ref): Heap
    requires n in h && s in h
  {
    var (a, b) := (h[n], h[s]);
    h[n := Cell(b.color, b.parent, b.left, b.right, a.key, a.value)]
    [s := Cell(a.color, a.parent, a.left, a.right, b.key, b.value)]
  }

  /** Child pointers of the two parents first, then the exchange, then the parents of all children. */
  function Rewire(h: Heap, n: Ref, s: Ref, p: Ref, sp: Ref, dn: Direction, ds: Direction, hd: Ref): (r: Heap)
    requires n in h && s in h && p in h && sp in h && hd in h
    ensures n in r && s in r && sp in r
  {
    Exchange(Hang(Hang(h, sp, ds, hd, n), p, dn, hd, s), n, s)
  }

  ghost predicate TradeReady(h: Heap, root: Ref, hd: Ref, n: Ref, s: Ref, dn: Direction, ds: Direction)
  {
    && n in h && s in h && hd in h && n != s && n != NULL && s != NULL && hd != NULL && n != hd && s != hd && NULL !in h
    && Mutual(h, root, hd, n) && Mutual(h, root, hd, s) && root != s
    && h[s].parent in h && h[s].parent != hd && Mutual(h, root, hd, h[s].parent) && h[n].parent != s
    && h[s].left == NULL && h[n].left != NULL && h[n].right != NULL
    && (dn == ROOT <==> root == n) && (dn == LEFT ==> h[h[n].parent].left == n)
        && (dn == RIGHT ==> h[h[n].parent].right == n && h[h[n].parent].left != n)
    && (h[s].parent == n ==> ds == RIGHT && h[n].right == s)
    && (h[s].parent != n ==> ds == LEFT && h[h[s].parent].left == s && h[s].parent != h[n].parent && h[n].right != s)
    && h[n].left != s && h[n].parent != n && h[s].parent != s
  }

  lemma MaintainAt(g: Heap, z: Ref, y: Ref)
    requires z in g && y in g
    ensures Maintain(g, z).Keys == g.Keys
    ensures Maintain(g, z)[y] == if y != NULL && (y == g[z].left || y == g[z].right) then g[y].(parent := z) else g[y]
  {
  }

  lemma RewireCells(h: Heap, root: Ref, hd: Ref, n: Ref, s: Ref, dn: Direction, ds: Direction, x: Ref)
    requires TradeReady(h, root, hd, n, s, dn, ds) && x in h
    ensures var (p, sp) := (h[n].parent, h[s].parent);
            var g := Rewire(h, n, s, p, sp, dn, ds, hd);
            && g.Keys == h.Keys
            && g[n] == Cell(h[s].color, sp, NULL, h[s].right, h[n].key, h[n].value)
            && g[s] == Cell(h[n].color, p, h[n].left, if sp == n then n else h[n].right, h[s].key, h[s].value)
            && (sp != n ==> g[sp] == h[sp].(left := n))
            && g[p] == (match dn case ROOT => h[p].(parent := s) case LEFT => h[p].(left := s) case RIGHT =>
                h[p].(right := s))
            && (x != n && x != s && x != sp && x != p ==> g[x] == h[x])
  {
    hide Mutual;
    Parents(h, root, hd, n, s, dn, ds);
  }

  lemma Parents(h: Heap, root: Ref, hd: Ref, n: Ref, s: Ref, dn: Direction, ds: Direction)
    requires TradeReady(h, root, hd, n, s, dn, ds)
    ensures h[n].parent in h && h[n].parent != n && h[n].parent != s && h[s].parent != s
            && (dn == ROOT <==> h[n].parent == hd)
  {
  }

  lemma RewiredAt(h: Heap, root: Ref, hd: Ref, n: Item, s: Item, dn: Direction, ds: Direction, x: Ref)
    requires TradeReady(h, root, hd, n.ref, s.ref, dn, ds) && x in h && x != hd && Mutual(h, root, hd, x)
    ensures var (p, sp) := (h[n.ref].parent, h[s.ref].parent);
            var g := Rewire(h, n.ref, s.ref, p, sp, dn, ds, hd);
            && s.ref in Maintain(g, n.ref) && sp in Maintain(Maintain(g, n.ref), s.ref)
            && var h' := Maintain(Maintain(Maintain(g, n.ref), s.ref), sp);
            && h'.Keys == h.Keys && TradedAt(h, h', n, s, x)
  {
    var (p, sp) := (h[n.ref].parent, h[s.ref].parent);
    Parents(h, root, hd, n.ref, s.ref, dn, ds);
    RewireCells(h, root, hd, n.ref, s.ref, dn, ds, x);
    var g := Rewire(h, n.ref, s.ref, p, sp, dn, ds, hd);
    var g1 := Maintain(g, n.ref);
    MaintainAt(g, n.ref, x);
    MaintainAt(g, n.ref, s.ref);
    MaintainAt(g, n.ref, sp);
    var g2 := Maintain(g1, s.ref);
    MaintainAt(g1, s.ref, x);
    MaintainAt(g1, s.ref, sp);
    MaintainAt(g2, sp, x);
    hide Maintain, Rewire;
  }

  ghost predicate HasChildren(h: Heap, x: Ref)
  {
    x in h && (h[x].left != NULL ==> h[x].left in h) && (h[x].right != NULL ==> h[x].right in h)
  }

  lemma ChildrenThere(h: Heap, root: Ref, hd: Ref, n: Ref, s: Ref, dn: Direction, ds: Direction)
    requires TradeReady(h, root, hd, n, s, dn, ds)
    ensures var (p, sp) := (h[n].parent, h[s].parent);
            && p in h
            && var g := Rewire(h, n, s, p, sp, dn, ds, hd);
            && HasChildren(g, n) && HasChildren(Maintain(g, n), s) && HasChildren(Maintain(Maintain(g, n), s), sp)
  {
    var (p, sp) := (h[n].parent, h[s].parent);
    Parents(h, root, hd, n, s, dn, ds);
    RewireCells(h, root, hd, n, s, dn, ds, n);
    var g := Rewire(h, n, s, p, sp, dn, ds, hd);
    var g1 := Maintain(g, n);
    MaintainAt(g, n, s);
    MaintainAt(g, n, sp);
    MaintainAt(g1, s, sp);
    hide Maintain, Rewire;
  }

  lemma Rewired(h: Heap, root: Ref, hd: Ref, w: Tree, n: Item, s: Item, dn: Direction, ds: Direction)
    requires Shows(h, root, hd, Top, w) && TradeReady(h, root, hd, n.ref, s.ref, dn, ds)
    ensures var (p, sp) := (h[n.ref].parent, h[s.ref].parent);
            && p in h
            && var g := Rewire(h, n.ref, s.ref, p, sp, dn, ds, hd);
            && s.ref in Maintain(g, n.ref) && sp in Maintain(Maintain(g, n.ref), s.ref)
            && var h' := Maintain(Maintain(Maintain(g, n.ref), s.ref), sp);
            && Traded(h, h', hd, n, s) && SameEnds(h, h', hd)
            && HasChildren(g, n.ref) && HasChildren(Maintain(g, n.ref), s.ref)
                && HasChildren(Maintain(Maintain(g, n.ref), s.ref), sp)
  {
    ChildrenThere(h, root, hd, n.ref, s.ref, dn, ds);
    var (p, sp) := (h[n.ref].parent, h[s.ref].parent);
    var g := Rewire(h, n.ref, s.ref, p, sp, dn, ds, hd);
    AllMutual(h, root, hd, w, n.ref);
    RewiredAt(h, root, hd, n, s, dn, ds, n.ref);
    HeaderRewired(h, root, hd, n.ref, s.ref, dn, ds, w);
    hide Shows, Rewire, TradeReady, Maintain, TradedAt;
    forall x | x in h && x != hd
      ensures TradedAt(h, Maintain(Maintain(Maintain(g, n.ref), s.ref), sp), n, s, x)
    {
      AllMutual(h, root, hd, w, x);
      RewiredAt(h, root, hd, n, s, dn, ds, x);
    }
  }

  lemma HeaderRewired(h: Heap, root: Ref, hd: Ref, n: Ref, s: Ref, dn: Direction, ds: Direction, w: Tree)
    requires Shows(h, root, hd, Top, w) && TradeReady(h, root, hd, n, s, dn, ds)
    ensures var (p, sp) := (h[n].parent, h[s].parent);
            && p in h
            && var g := Rewire(h, n, s, p, sp, dn, ds, hd);
            && s in Maintain(g, n) && sp in Maintain(Maintain(g, n), s)
            && Maintain(Maintain(Maintain(g, n), s), sp)[hd] == h[hd].(parent := Alias(h[hd].parent, n, s))
  {
    var (p, sp) := (h[n].parent, h[s].parent);
    Parents(h, root, hd, n, s, dn, ds);
    RewireCells(h, root, hd, n, s, dn, ds, hd);
    HoleCell(h, root, hd, Top, w);
    var g := Rewire(h, n, s, p, sp, dn, ds, hd);
    var g1 := Maintain(g, n);
    MaintainAt(g, n, hd);
    MaintainAt(g, n, s);
    MaintainAt(g, n, sp);
    var g2 := Maintain(g1, s);
    MaintainAt(g1, s, hd);
    MaintainAt(g1, s, sp);
    MaintainAt(g2, sp, hd);
    hide Maintain, Rewire, Shows;
  }

  /** `d`, `u` is the place of the successor of the node at `c`, `t`. */
  ghost predicate Succeeds(c: Ctx, t: Tree, d: Ctx, u: Tree)
    requires t.Node?
  {
    && u.Node? && u.left.Nil? && u.item.ref in TreeRefs(t.right) && d.Step?
    && (d == Step(RIGHT, t.color, c, t.item, t.left) || (d.side == LEFT && d.item.ref in TreeRefs(t.right)))
  }

  lemma ReadyToTrade(h: Heap, root: Ref, hd: Ref, c: Ctx, t: Tree, d: Ctx, u: Tree)
    requires Shows(h, root, hd, c, t) && t.Node? && t.left.Node? && t.right.Node?
    requires Shows(h, root, hd, d, u) && Succeeds(c, t, d, u) && Plug(c, t) == Plug(d, u)
    ensures TradeReady(h, root, hd, t.item.ref, u.item.ref, if c.Top? then ROOT else c.side, d.side)
            && Genuine(h, hd, t.item, u.item)
    ensures h[t.item.ref].parent == ParentRef(c, hd) && h[u.item.ref].parent == d.item.ref
  {
    ToTop(h, root, hd, c, t);
    NodeCell(h, root, hd, c, t);
    NodeCell(h, root, hd, d, u);
    HoleCell(h, root, hd, c, t);
    HoleCell(h, root, hd, d, u);
    assert c.Step? ==> c.item.ref in CtxRefs(c);
    assert TreeRefs(t) == {t.item.ref} + TreeRefs(t.left) + TreeRefs(t.right);
    assert u.item.ref !in CtxRefs(c) && u.item.ref != t.item.ref && d.item.ref !in CtxRefs(c);
    assert NULL !in h;
    AllMutual(h, root, hd, Plug(c, t), t.item.ref);
    AllMutual(h, root, hd, Plug(c, t), u.item.ref);
    AllMutual(h, root, hd, Plug(c, t), d.item.ref);
  }

  // Contents.

  ghost predicate Distinct(a: seq<Item>)
  {
    forall i, j :: 0 <= i < j < |a| ==> a[i].ref != a[j].ref
  }

  lemma {:induction false} ItemsDistinct(t: Tree)
    requires TreeUnique(t)
    ensures Distinct(Items(t))
  {
    if t.Node? {
      ItemsDistinct(t.left);
      ItemsDistinct(t.right);
      var k := |Items(t.left)|;
      forall i | 0 <= i < k
        ensures Items(t)[i] == Items(t.left)[i] && Items(t)[i].ref in TreeRefs(t.left)
      {
        TreeItemRefs(t.left, i);
      }
      forall i | k < i < |Items(t)|
        ensures Items(t)[i] == Items(t.right)[i - k - 1] && Items(t)[i].ref in TreeRefs(t.right)
      {
        TreeItemRefs(t.right, i - k - 1);
      }
      assert Items(t)[k] == t.item;
    }
  }

  lemma TradeNeighbours(a: seq<Item>, n: Item, s: Item, b: seq<Item>)
    requires Distinct(a + [n] + [s] + b)
    ensures TradeItems(a + [n], n, s) == a + [s] && TradeItems(b, n, s) == b
  {
    var w := a + [n] + [s] + b;
    assert w[|a|] == n && w[|a| + 1] == s;
    forall i | 0 <= i < |a|
      ensures a[i].ref != n.ref && a[i].ref != s.ref
    {
      assert w[i] == a[i];
    }
    forall i | 0 <= i < |b|
      ensures b[i].ref != n.ref && b[i].ref != s.ref
    {
      assert w[|a| + 2 + i] == b[i];
    }
  }

  lemma TradeConcat(a: seq<Item>, b: seq<Item>, n: Item, s: Item)
    ensures TradeItems(a + b, n, s) == TradeItems(a, n, s) + TradeItems(b, n, s)
  {
  }

  lemma Kept(a: seq<Item>, l: seq<Item>, n: Item, s: Item, r: seq<Item>, b: seq<Item>, ur: seq<Item>, ub: seq<Item>)
    requires [s] + ur + ub == r + b
    ensures a + (l + [n] + r) + b == (a + l) + [n] + [s] + (ur + ub)
    ensures (a + l) + [s] + ([] + ur) + ub == a + (l + r) + b
  {
    assert (a + l) + [n] + ([s] + ur + ub) == a + (l + [n] + r) + b;
    assert (a + l) + ([s] + ur + ub) == a + (l + r) + b;
  }

  lemma TradedSeqs(a: seq<Item>, l: seq<Item>, n: Item, s: Item, r: seq<Item>, b: seq<Item>, ur: seq<Item>,
      ub: seq<Item>)
    requires [s] + ur + ub == r + b && Distinct(a + (l + [n] + r) + b)
    ensures n.ref != s.ref
    ensures TradeItems(a + l + [n], n, s) + ([] + TradeItems(ur, n, s)) + TradeItems(ub, n, s) == a + (l + r) + b
  {
    Kept(a, l, n, s, r, b, ur, ub);
    var w := (a + l) + [n] + [s] + (ur + ub);
    assert w[|a + l|] == n && w[|a + l| + 1] == s;
    TradeNeighbours(a + l, n, s, ur + ub);
    TradeConcat(ur, ub, n, s);
    Parts(TradeItems(ur, n, s), TradeItems(ub, n, s), ur, ub);
  }

  lemma Parts(a: seq<Item>, b: seq<Item>, c: seq<Item>, d: seq<Item>)
    requires a + b == c + d && |a| == |c|
    ensures a == c && b == d
  {
    assert a == (a + b)[..|a|] && c == (c + d)[..|a|] && b == (a + b)[|a|..] && d == (c + d)[|a|..];
  }

  lemma TradedSound(d: Ctx, u: Tree, n: Item, s: Item)
    requires Sound(d, u)
    ensures Sound(TradeCtx(d, n, s), TradeTree(u, n, s))
  {
    TradeRedBlack(u, n, s);
    TradeFits(d, n, s, BlackHeight(u));
  }

  lemma SoundMoves(c: Ctx, t: Tree, d: Ctx, u: Tree)
    requires Sound(c, t) && Plug(d, u) == Plug(c, t)
    ensures Sound(d, u)
  {
    PlugRedBlack(c, t);
    PlugRedBlack(d, u);
  }

  /** After the trade the node to be removed stands where its successor stood, and everything
      else is in its place. */
  lemma TradedPlace(c: Ctx, t: Tree, d: Ctx, u: Tree)
    requires t.Node? && u.Node? && u.left.Nil? && TreeUnique(Plug(c, t)) && Plug(d, u) == Plug(c, t) && Sound(c, t)
    requires Before(d) == Before(c) + Items(t.left) + [t.item]
    requires [u.item] + Items(u.right) + After(d) == Items(t.right) + After(c)
    ensures var (d', u') := (TradeCtx(d, t.item, u.item), TradeTree(u, t.item, u.item));
            && u'.Node? && u'.item == t.item && u'.left.Nil? && Sound(d', u') && d'.Step? == d.Step?
            && Before(d') + (Items(u'.left) + Items(u'.right)) + After(d') ==
                Before(c) + (Items(t.left) + Items(t.right)) + After(c)
  {
    hide *;
    var (n, s) := (t.item, u.item);
    SoundMoves(c, t, d, u);
    TradedSound(d, u, n, s);
    PlugItems(c, t);
    ItemsNode(t);
    ItemsDistinct(Plug(c, t));
    TradedSeqs(Before(c), Items(t.left), n, s, Items(t.right), After(c), Items(u.right), After(d));
    TradeCtxItems(d, n, s);
    TradedNode(d, u, n);
  }

  lemma TradedNode(d: Ctx, u: Tree, n: Item)
    requires u.Node? && u.left.Nil? && u.item.ref != n.ref
    ensures var u' := TradeTree(u, n, u.item);
            && u'.Node? && u'.item == n && u'.left.Nil? && Items(u'.left) == []
                && Items(u'.right) == TradeItems(Items(u.right), n, u.item)
    ensures TradeCtx(d, n, u.item).Step? == d.Step?
  {
    TradeTreeItems(u.right, n, u.item);
  }

  lemma DirectionKept(h: Heap, root: Ref, hd: Ref, n: Ref, s: Ref, dn: Direction, ds: Direction)
    requires TradeReady(h, root, hd, n, s, dn, ds)
    ensures var g := Hang(h, h[s].parent, ds, hd, n);
            && n in g && s in g && hd in g && g[n].parent == h[n].parent && g[n].parent in g && h[s].parent in g
            && dn == if root == n then ROOT else if g[g[n].parent].left == n then LEFT else RIGHT
    ensures n in h && s in h && hd in h && h[s].parent in h
    ensures ds != ROOT && root != s
  {
  }

  lemma StepItems(c: Ctx, t: Tree)
    requires t.Node?
    ensures var d := Step(RIGHT, t.color, c, t.item, t.left);
            Before(d) == Before(c) + Items(t.left) + [t.item] && After(d) == After(c) && Plug(d, t.right) == Plug(c, t)
  {
  }

  lemma TopUnique(h: Heap, root: Ref, hd: Ref, w: Tree)
    requires Shows(h, root, hd, Top, w)
    ensures TreeUnique(w)
  {
  }
}
