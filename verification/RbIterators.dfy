/** Iterators, bounds and traversal of the map, on its node pointers. */
module RbIterators {
  import opened RbTrees
  import opened RbContents
  import opened RbMemory
  import opened RbRepairs
  import opened RbRotations
  import opened RbSwap
  import opened RbMap

  /** The node of entry `i`; the header stands before the first and after the last. */
  function Entry(s: seq<Item>, i: int, hd: Ref): Ref
  {
    if 0 <= i < |s| then s[i].ref else hd
  }

  /** The focus of entry `i`. */
  lemma Focus(h: Heap, root: Ref, hd: Ref, w: Tree, i: nat) returns (c: Ctx, t: Tree)
    requires Shows(h, root, hd, Top, w) && i < |Items(w)|
    ensures Shows(h, root, hd, c, t) && t.Node? && t.item == Items(w)[i] && Plug(c, t) == w
    ensures |Before(c)| + |Items(t.left)| == i
  {
    TreeItemRefs(w, i);
    c, t := Locate(h, root, hd, Top, w, Items(w)[i].ref);
    PlugItems(c, t);
    ItemsNode(t);
    TopUnique(h, root, hd, w);
    ItemsDistinct(w);
    hide *;
    Assoc(Before(c), Items(t.left), t.item, Items(t.right), After(c));
    OnlyPlace(Items(w), i, |Before(c) + Items(t.left)|);
    assert Items(w)[|Before(c) + Items(t.left)|] == t.item;
  }

  lemma OnlyPlace(s: seq<Item>, i: nat, j: nat)
    requires Distinct(s) && i < |s| && j < |s|
    ensures s[i].ref == s[j].ref ==> i == j
  {
  }

  lemma Beyond(h: Heap, root: Ref, hd: Ref, c: Ctx, t: Tree)
    requires Shows(h, root, hd, c, t) && t.Node?
    ensures RefOf(t.left) != ParentRef(c, hd) && RefOf(t.right) != ParentRef(c, hd)
    ensures ParentRef(c, hd) in h && ParentRef(c, hd) != t.item.ref && t.item.ref != hd && t.item.ref in h
    ensures h[t.item.ref].left == RefOf(t.left) && h[t.item.ref].right == RefOf(t.right)
            && h[t.item.ref].parent == ParentRef(c, hd)
    ensures c.Step? ==>
              && h[c.item.ref].parent == ParentRef(c.up, hd) && c.item.ref != hd && root != t.item.ref
              && (h[c.item.ref].right == t.item.ref <==> c.side == RIGHT)
                  && (h[c.item.ref].left == t.item.ref <==> c.side == LEFT)
    ensures c.Top? ==> root == t.item.ref && h[hd].parent == root
    ensures c.Step? ==> c.side != ROOT && (c.up.Step? ==> c.up.item.ref != t.item.ref)
  {
    NodeCell(h, root, hd, c, t);
    HoleCell(h, root, hd, c, t);
    assert t.left.Node? ==> t.left.item.ref in TreeRefs(t.left);
    assert t.right.Node? ==> t.right.item.ref in TreeRefs(t.right);
    assert c.Step? ==> c.item.ref in CtxRefs(c);
    assert c.Step? && c.up.Step? ==> c.up.item.ref in CtxRefs(c.up);
  }

  /** Where the entries around a focus are. */
  lemma Around3(c: Ctx, t: Tree)
    requires t.Node?
    ensures var (w, b, k) := (Items(Plug(c, t)), |Before(c)|, |Items(t)|);
            && |w| == b + k + |After(c)| && k > 0
            && (After(c) != [] ==> w[b + k] == After(c)[0]) && (Before(c) != [] ==> w[b - 1] == Before(c)[b - 1])
            && w[b] == Items(t)[0] && w[b + k - 1] == Items(t)[k - 1]
  {
    PlugItems(c, t);
    HasItem(t);
  }

  lemma UpItems(c: Ctx, t: Tree)
    requires c.Step? && t.Node? && c.side != ROOT
    ensures Plug(c.up, Lift(c, t)) == Plug(c, t)
    ensures c.side == RIGHT ==>
            |Before(c.up)| + |Items(Lift(c, t))| == |Before(c)| + |Items(t)| && |Before(c)| > 0
            && Before(c)[|Before(c)| - 1] == c.item
    ensures c.side == LEFT ==> |Before(c.up)| == |Before(c)| && After(c) != [] && After(c)[0] == c.item
  {
  }

  lemma TopItems()
    ensures Before(Top) == [] && After(Top) == []
  {
  }

  /** `++it`. */
  method Increment(m: RBTreeMap, it: Ref, ghost i: nat) returns (node: Ref)
    requires m.Valid() && i < |Items(m.tree)| && it == Items(m.tree)[i].ref
    ensures node == Entry(Items(m.tree), i + 1, m.header)
  {
    hide Shows, Items, Before, After, Plug, RedBlack, Sorted;
    ghost var c, t := Focus(m.heap, m.root, m.header, m.tree, i);
    m.Names(c, t);
    Around3(c, t);
    ItemsNode(t);
    Counts(c, t);
    TopItems();
    node := it;
    if m.heap[node].right != NULL {
      m.Below(c, t, RIGHT);
      StepItems(c, t);
      var l, above, d, u := m.Leftmost(m.heap[node].right, node, Step(RIGHT, t.color, c, t.item, t.left), t.right);
      node := l;
      Around3(d, u);
      ItemsNode(u);
    } else {
      var y := m.heap[node].parent;
      ghost var over := false;
      Beyond(m.heap, m.root, m.header, c, t);
      while node == m.heap[y].right
        invariant y in m.heap && node in m.heap
        invariant !over ==> m.At(c, t) && t.Node? && t.item.ref == node && y == ParentRef(c, m.header)
        invariant !over ==> Plug(c, t) == m.tree && |Before(c)| + |Items(t)| == i + 1
        invariant over ==> node == m.header && y == m.root && m.heap[m.header].right == m.root
        invariant over ==> m.heap[y].right != m.header && i + 1 == |Items(m.tree)|
        decreases !over, c
      {
        Beyond(m.heap, m.root, m.header, c, t);
        if c.Step? {
          UpItems(c, t);
          m.Above(c, t);
          Beyond(m.heap, m.root, m.header, c.up, Lift(c, t));
        } else {
          m.Names(c, t);
          RightNotHeader(m.heap, m.root, m.header, c, t);
          Around3(c, t);
        }
        node := y;
        y := m.heap[y].parent;
        if c.Step? {
          c, t := c.up, Lift(c, t);
        } else {
          over := true;
        }
      }
      if !over {
        Beyond(m.heap, m.root, m.header, c, t);
        Around3(c, t);
        if c.Step? {
          UpItems(c, t);
        }
      }
      if m.heap[node].right != y {
        node := y;
      }
    }
  }

  lemma RightNotHeader(h: Heap, root: Ref, hd: Ref, c: Ctx, t: Tree)
    requires Shows(h, root, hd, c, t) && t.Node?
    ensures RefOf(t.right) != hd && RefOf(t.left) != hd
  {
    assert t.left.Node? ==> t.left.item.ref in TreeRefs(t.left);
    assert t.right.Node? ==> t.right.item.ref in TreeRefs(t.right);
  }

  /** `--it`. The header is told apart from the root by its colour: the root is black. */
  method Decrement(m: RBTreeMap, it: Ref, ghost i: nat) returns (node: Ref)
    requires m.Valid() && 0 < |Items(m.tree)| && i <= |Items(m.tree)| && it == Entry(Items(m.tree), i, m.header)
    ensures node == Entry(Items(m.tree), i - 1, m.header)
  {
    hide Shows, Items, Before, After, Plug, RedBlack, Sorted;
    node := it;
    HoleCell(m.heap, m.root, m.header, Top, m.tree);
    RootNode(m.heap, m.root, m.header, m.tree);
    RootColor(m.heap, m.root, m.header, m.tree);
    ghost var c, t := Top, m.tree;
    if i < |Items(m.tree)| {
      c, t := Focus(m.heap, m.root, m.header, m.tree, i);
      Beyond(m.heap, m.root, m.header, c, t);
      NotHeader(m.heap, m.root, m.header, c, t);
    }
    if m.heap[node].color == Red && m.heap[m.heap[node].parent].parent == node {
      node := m.heap[node].right;
      return;
    }
    m.Names(c, t);
    Around3(c, t);
    ItemsNode(t);
    Counts(c, t);
    TopItems();
    if m.heap[node].left != NULL {
      m.Below(c, t, LEFT);
      StepLeft(c, t);
      node := m.Rightmost(m.heap[node].left, Step(LEFT, t.color, c, t.item, t.right), t.left);
      Around3(Step(LEFT, t.color, c, t.item, t.right), t.left);
    } else {
      var y := m.heap[node].parent;
      ghost var over := false;
      while node == m.heap[y].left
        invariant y in m.heap && node in m.heap
        invariant !over ==> m.At(c, t) && t.Node? && t.item.ref == node && y == ParentRef(c, m.header)
        invariant !over ==> Plug(c, t) == m.tree && |Before(c)| == i
        invariant over ==> node == m.header && y == m.root && m.heap[m.header].left == m.root
        invariant over ==> m.heap[y].left != m.header && i == 0
        decreases !over, c
      {
        Beyond(m.heap, m.root, m.header, c, t);
        if c.Step? {
          UpItems(c, t);
          m.Above(c, t);
          Beyond(m.heap, m.root, m.header, c.up, Lift(c, t));
        } else {
          m.Names(c, t);
          RightNotHeader(m.heap, m.root, m.header, c, t);
          Around3(c, t);
        }
        node := y;
        y := m.heap[y].parent;
        if c.Step? {
          c, t := c.up, Lift(c, t);
        } else {
          over := true;
        }
      }
      if !over {
        Beyond(m.heap, m.root, m.header, c, t);
        Around3(c, t);
        if c.Step? {
          UpItems(c, t);
        }
      }
      if m.heap[node].left != y {
        node := y;
      }
    }
  }

  lemma RootColor(h: Heap, root: Ref, hd: Ref, w: Tree)
    requires Shows(h, root, hd, Top, w) && !IsRed(w) && Items(w) != []
    ensures w.Node? && root in h && h[root].parent == hd && h[hd].parent == root && h[hd].color == Red
  {
  }

  lemma NotHeader(h: Heap, root: Ref, hd: Ref, c: Ctx, t: Tree)
    requires Shows(h, root, hd, c, t) && t.Node? && !IsRed(Plug(c, t))
    ensures h[t.item.ref].color == Red ==> h[h[t.item.ref].parent].parent != t.item.ref
  {
    Beyond(h, root, hd, c, t);
    NodeCell(h, root, hd, c, t);
    if c.Step? && c.up.Top? {
      assert ParentRef(c.up, hd) == hd;
    }
  }

  /** `lower_bound(key)`: the first entry not less than the key. */
  method LowerBound(m: RBTreeMap, key: int) returns (node: Ref, ghost k: nat)
    requires m.Valid()
    ensures k <= |Items(m.tree)| && node == Entry(Items(m.tree), k, m.header)
    ensures forall i :: 0 <= i < k ==> Items(m.tree)[i].key < key
    ensures forall i :: k <= i < |Items(m.tree)| ==> key <= Items(m.tree)[i].key
  {
    node, k := Bound(m, key, true);
  }

  /** `upper_bound(key)`: the first entry greater than the key. */
  method UpperBound(m: RBTreeMap, key: int) returns (node: Ref, ghost k: nat)
    requires m.Valid()
    ensures k <= |Items(m.tree)| && node == Entry(Items(m.tree), k, m.header)
    ensures forall i :: 0 <= i < k ==> Items(m.tree)[i].key <= key
    ensures forall i :: k <= i < |Items(m.tree)| ==> key < Items(m.tree)[i].key
  {
    node, k := Bound(m, key, false);
  }

  /** Entries below `lo` come before the bound, entries from `hi` on behind it. */
  ghost predicate Between(s: seq<Item>, lo: int, hi: int, key: int, exact: bool)
  {
    && 0 <= lo <= hi <= |s|
    && (forall i :: 0 <= i < lo ==> s[i].key < key || (!exact && s[i].key == key))
    && (forall i :: hi <= i < |s| ==> key < s[i].key)
  }

  lemma Cut(s: seq<Item>, lo: int, p: int, hi: int, key: int, exact: bool)
    requires Sorted(s) && Between(s, lo, hi, key, exact) && lo <= p < hi
    ensures key < s[p].key ==> Between(s, lo, p, key, exact)
    ensures s[p].key < key || (!exact && s[p].key == key) ==> Between(s, p + 1, hi, key, exact)
    ensures s[p].key == key ==>
            (forall i :: 0 <= i < p ==> s[i].key < key) && (forall i :: p < i < |s| ==> key < s[i].key)
  {
  }

  /** Climbs to the first ancestor that comes after the subtree. */
  method NextUp(m: RBTreeMap, start: Ref, ghost k: nat, ghost c0: Ctx, ghost t0: Tree) returns (at: Ref)
    requires m.At(c0, t0) && t0.Node? && t0.item.ref == start && Plug(c0, t0) == m.tree
             && |Before(c0)| + |Items(t0)| == k
    ensures k <= |Items(m.tree)| && at == Entry(Items(m.tree), k, m.header)
  {
    hide Shows, Items, Before, After, Plug;
    var node := start;
    ghost var c, t := c0, t0;
    m.Directions(c, t);
    while m.GetDirection(node) == RIGHT
      invariant m.At(c, t) && t.Node? && t.item.ref == node && Plug(c, t) == m.tree && |Before(c)| + |Items(t)| == k
      invariant node in m.heap && m.heap[node].parent == ParentRef(c, m.header) && m.heap[node].parent in m.heap
      invariant m.GetDirection(node) == if c.Top? then ROOT else c.side
      decreases c
    {
      UpItems(c, t);
      m.Above(c, t);
      node := m.heap[node].parent;
      c, t := c.up, Lift(c, t);
      m.Directions(c, t);
    }
    Around3(c, t);
    TopItems();
    if c.Step? {
      Beyond(m.heap, m.root, m.header, c, t);
      UpItems(c, t);
    }
    at := m.heap[node].parent;
  }

  lemma InOrder(m: RBTreeMap)
    requires m.Valid()
    ensures Sorted(Items(m.tree))
  {
  }

  lemma AllBetween(s: seq<Item>, key: int, exact: bool)
    ensures Between(s, 0, |s|, key, exact)
  {
  }

  /** Nothing is left between the two ends. */
  lemma Divided(s: seq<Item>, k: nat, key: int, exact: bool)
    requires Between(s, k, k, key, exact)
    ensures k <= |s| && (forall i :: 0 <= i < k ==> s[i].key < key || (!exact && s[i].key == key))
            && forall i :: k <= i < |s| ==> key < s[i].key
  {
  }

  /** The descent shared by both bounds; `exact` stops at an equal key. */
  method Bound(m: RBTreeMap, key: int, exact: bool) returns (at: Ref, ghost k: nat)
    requires m.Valid()
    ensures k <= |Items(m.tree)| && at == Entry(Items(m.tree), k, m.header)
    ensures forall i :: 0 <= i < k ==> Items(m.tree)[i].key < key || (!exact && Items(m.tree)[i].key == key)
    ensures forall i :: k <= i < |Items(m.tree)| ==>
            key < Items(m.tree)[i].key || (exact && Items(m.tree)[i].key == key)
  {
    hide Shows, Items, Before, After, Plug, RedBlack, Sorted, EndsAre, Between, RBTreeMap.Valid, RBTreeMap.At,
        RBTreeMap.Holds;
    m.Enter(key);
    if m.root == NULL {
      return m.header, 0;
    }
    var node := m.root;
    ghost var c, t := Top, m.tree;
    TopItems();
    InOrder(m);
    AllBetween(Items(m.tree), key, exact);
    while true
      invariant m.At(c, t) && t.Node? && t.item.ref == node && Plug(c, t) == m.tree
      invariant Between(Items(m.tree), |Before(c)|, |Before(c)| + |Items(t)|, key, exact)
      decreases t
    {
      m.Names(c, t);
      Middle(c, t);
      k := |Before(c)| + |Items(t.left)|;
      Cut(Items(m.tree), |Before(c)|, k, |Before(c)| + |Items(t)|, key, exact);
      if exact && key == m.heap[node].key {
        return node, k;
      }
      if key < m.heap[node].key {
        if m.heap[node].left != NULL {
          m.Below(c, t, LEFT);
          StepLeft(c, t);
          node := m.heap[node].left;
          c, t := Step(LEFT, t.color, c, t.item, t.right), t.left;
        } else {
          Counts(c, t);
          Divided(Items(m.tree), k, key, exact);
          return node, k;
        }
      } else {
        if m.heap[node].right != NULL {
          m.Below(c, t, RIGHT);
          StepItems(c, t);
          node := m.heap[node].right;
          c, t := Step(RIGHT, t.color, c, t.item, t.left), t.right;
        } else {
          Counts(c, t);
          k := k + 1;
          Divided(Items(m.tree), k, key, exact);
          at := NextUp(m, node, k, c, t);
          return at, k;
        }
      }
    }
  }

  lemma PlugTop(t: Tree)
    ensures Plug(Top, t) == t
  {
  }

  lemma Middle(c: Ctx, t: Tree)
    requires t.Node?
    ensures var (w, k) := (Items(Plug(c, t)), |Before(c)| + |Items(t.left)|);
            && |w| == |Before(c)| + |Items(t)| + |After(c)| && k < |w| && w[k] == t.item
                && |Items(t)| == |Items(t.left)| + 1 + |Items(t.right)|
  {
    PlugItems(c, t);
    ItemsNode(t);
    hide *;
    Assoc(Before(c), Items(t.left), t.item, Items(t.right), After(c));
    assert Items(Plug(c, t))[|Before(c) + Items(t.left)|] == t.item;
  }

  /** `erase(iterator)`: the entry goes, and the iterator returned is that of the next key. */
  method EraseAt(m: RBTreeMap, position: Ref, ghost i: nat) returns (next: Ref)
    requires m.Valid() && i <= |Items(m.tree)| && position == Entry(Items(m.tree), i, m.header)
    modifies m
    ensures m.Valid()
    ensures next == Entry(Items(m.tree), i, m.header)
    ensures var s := old(Items(m.tree)); Items(m.tree) == if i < |s| then s[..i] + s[i + 1..] else s
  {
    hide Shows, Items, RedBlack, EndsAre;
    if position == m.header {
      if i < |Items(m.tree)| {
        HeaderOnly(m.heap, m.root, m.header, m.tree, i);
      }
      return position;
    }
    ghost var s := Items(m.tree);
    ghost var c, t := Focus(m.heap, m.root, m.header, m.tree, i);
    m.Names(c, t);
    next := Increment(m, position, i);
    DropAt(s, i);
    EmptyTree(m.heap, m.root, m.header, m.tree);
    RootNode(m.heap, m.root, m.header, m.tree);
    TopAround(t.item.key);
    PlugTop(m.tree);
    var _, all := m.Remove(m.root, m.heap[position].key, Top, m.tree);
    m.tree := all;
  }

  lemma HeaderOnly(h: Heap, root: Ref, hd: Ref, w: Tree, i: nat)
    requires Shows(h, root, hd, Top, w) && i < |Items(w)|
    ensures Items(w)[i].ref != hd
  {
    TreeItemRefs(w, i);
  }

  lemma DropAt(s: seq<Item>, i: nat)
    requires Sorted(s) && i < |s|
    ensures Drop(s, s[i].key) == s[..i] + s[i + 1..]
  {
    assert s == s[..i] + [s[i]] + s[i + 1..];
    DropOne(s[..i], s[i], s[i + 1..]);
  }

  /** `begin()`, and the walk from `begin()` to `end()`: the nodes in key order. */
  method Walk(m: RBTreeMap) returns (visited: seq<Ref>)
    requires m.Valid()
    ensures |visited| == |Items(m.tree)| == m.cnt
    ensures forall i :: 0 <= i < |visited| ==> visited[i] == Items(m.tree)[i].ref
  {
    hide Shows, Items, RedBlack, Sorted;
    var it := m.heap[m.header].left;
    visited := [];
    while it != m.header
      invariant |visited| <= |Items(m.tree)| && it == Entry(Items(m.tree), |visited|, m.header)
      invariant forall i :: 0 <= i < |visited| ==> visited[i] == Items(m.tree)[i].ref
      decreases |Items(m.tree)| - |visited|
    {
      var next := Increment(m, it, |visited|);
      visited := visited + [it];
      it := next;
    }
    if |visited| < |Items(m.tree)| {
      HeaderOnly(m.heap, m.root, m.header, m.tree, |visited|);
    }
  }

  /** The entries still to come: the stacked nodes with their right subtrees. */
  ghost function Pending(stack: seq<Tree>): seq<Item>
    requires AllNodes(stack)
  {
    if stack == [] then []
    else var t := stack[|stack| - 1]; [t.item] + Items(t.right) + Pending(stack[..|stack| - 1])
  }

  ghost predicate Stacked(h: Heap, stack: seq<Ref>, trees: seq<Tree>)
  {
    && |stack| == |trees|
    && forall k :: 0 <= k < |stack| ==> trees[k].Node? && trees[k].item.ref == stack[k] && InTree(h, trees[k])
  }

  ghost predicate InTree(h: Heap, t: Tree)
  {
    t.Node? ==>
      && t.item.ref in h && t.item.ref != NULL && h[t.item.ref].left == RefOf(t.left)
          && h[t.item.ref].right == RefOf(t.right)
      && h[t.item.ref].key == t.item.key && h[t.item.ref].value == t.item.value
      && InTree(h, t.left) && InTree(h, t.right)
  }

  lemma {:induction false} ShownInTree(h: Heap, t: Tree, par: Ref)
    requires ShowsTree(h, t, par) && NULL !in TreeRefs(t)
    ensures InTree(h, t)
  {
    if t.Node? {
      ShownInTree(h, t.left, t.item.ref);
      ShownInTree(h, t.right, t.item.ref);
    }
  }

  lemma MapInTree(m: RBTreeMap)
    requires m.At(Top, m.tree)
    ensures InTree(m.heap, m.tree)
  {
    ShownInTree(m.heap, m.tree, m.header);
  }

  /** `inorderTraversal` with its explicit stack visits every entry once, in key order. */
  method InorderTraversal(m: RBTreeMap) returns (visited: seq<Ref>)
    requires m.Valid()
    ensures |visited| == |Items(m.tree)|
    ensures forall i :: 0 <= i < |visited| ==> visited[i] == Items(m.tree)[i].ref
  {
    hide RBTreeMap.Valid, RBTreeMap.Holds, RBTreeMap.At, Items, Pending, InTree, Stacked, Plug, Shows;
    ghost var (h, w) := (m.heap, Items(m.tree));
    visited := [];
    m.Enter(0);
    if m.root == NULL {
      return;
    }
    MapInTree(m);
    NothingPending();
    NothingStacked(h);
    var stack: seq<Ref> := [];
    var node := m.root;
    ghost var t: Tree, trees: seq<Tree> := m.tree, [];
    ghost var done: seq<Item> := [];
    while node != NULL || stack != []
      invariant node == RefOf(t) && InTree(h, t) && Stacked(h, stack, trees) && |stack| == |trees|
      invariant AllNodes(trees) && w == done + (Items(t) + Pending(trees)) && |visited| == |done|
      invariant forall i :: 0 <= i < |visited| ==> visited[i] == done[i].ref
      decreases |w| - |done|
    {
      while node != NULL
        invariant node == RefOf(t) && InTree(h, t) && Stacked(h, stack, trees) && |stack| == |trees|
        invariant AllNodes(trees) && w == done + (Items(t) + Pending(trees))
        invariant node != NULL || stack != []
        decreases t
      {
        InTreeNode(h, t);
        Pushed(t, trees);
        PushStack(h, stack, trees, t);
        stack := stack + [node];
        node := m.heap[node].left;
        trees, t := trees + [t], t.left;
      }
      NilRef(h, t);
      if stack != [] {
        node := stack[|stack| - 1];
        ghost var top := trees[|trees| - 1];
        PopStack(h, stack, trees);
        InTreeNode(h, top);
        stack := stack[..|stack| - 1];
        visited := visited + [node];
        node := m.heap[node].right;
        Popped(t, trees, done);
        done, trees, t := done + [top.item], trees[..|trees| - 1], top.right;
      }
    }
    NilRef(h, t);
  }

  ghost predicate AllNodes(trees: seq<Tree>)
  {
    forall k :: 0 <= k < |trees| ==> trees[k].Node?
  }

  lemma NilRef(h: Heap, t: Tree)
    requires RefOf(t) == NULL && InTree(h, t)
    ensures t == Nil
  {
  }

  lemma NothingStacked(h: Heap)
    ensures Stacked(h, [], []) && AllNodes([])
  {
  }

  lemma PushStack(h: Heap, stack: seq<Ref>, trees: seq<Tree>, t: Tree)
    requires Stacked(h, stack, trees) && t.Node? && InTree(h, t) && AllNodes(trees)
    ensures Stacked(h, stack + [RefOf(t)], trees + [t]) && AllNodes(trees + [t])
  {
  }

  lemma PopStack(h: Heap, stack: seq<Ref>, trees: seq<Tree>)
    requires Stacked(h, stack, trees) && stack != []
    ensures |trees| == |stack| && trees[|trees| - 1].Node? && RefOf(trees[|trees| - 1]) == stack[|stack| - 1]
    ensures InTree(h, trees[|trees| - 1])
    ensures Stacked(h, stack[..|stack| - 1], trees[..|trees| - 1]) && AllNodes(trees[..|trees| - 1])
  {
  }

  lemma NothingPending()
    ensures Pending([]) == [] && Items(Nil) == []
  {
  }

  lemma InTreeNode(h: Heap, t: Tree)
    requires InTree(h, t) && (t.Node? || RefOf(t) != NULL)
    ensures t.Node? && t.item.ref == RefOf(t)
    ensures t.item.ref in h && t.item.ref != NULL && h[t.item.ref].left == RefOf(t.left)
            && h[t.item.ref].right == RefOf(t.right)
    ensures InTree(h, t.left) && InTree(h, t.right)
  {
  }

  lemma PendingPush(t: Tree, trees: seq<Tree>)
    requires t.Node? && AllNodes(trees)
    ensures AllNodes(trees + [t]) && Pending(trees + [t]) == [t.item] + Items(t.right) + Pending(trees)
  {
    hide Items;
    assert (trees + [t])[..|trees|] == trees;
  }

  lemma Pushed(t: Tree, trees: seq<Tree>)
    requires t.Node? && AllNodes(trees)
    ensures AllNodes(trees + [t]) && Items(t.left) + Pending(trees + [t]) == Items(t) + Pending(trees)
  {
    hide *;
    ItemsNode(t);
    PendingPush(t, trees);
    Regroup(Items(t.left), t.item, Items(t.right), Pending(trees));
  }

  lemma Regroup(l: seq<Item>, x: Item, r: seq<Item>, p: seq<Item>)
    ensures l + ([x] + r + p) == l + [x] + r + p
  {
  }

  lemma PendingPop(trees: seq<Tree>)
    requires trees != [] && AllNodes(trees)
    ensures AllNodes(trees[..|trees| - 1])
    ensures var top := trees[|trees| - 1];
            top.Node?
            && Pending(trees) == [top.item] + Items(top.right) + Pending(trees[..|trees| - 1])
  {
    hide Items;
  }

  lemma Popped(t: Tree, trees: seq<Tree>, done: seq<Item>)
    requires t.Nil? && trees != [] && AllNodes(trees)
    ensures AllNodes(trees[..|trees| - 1])
    ensures var top := trees[|trees| - 1];
            done + (Items(t) + Pending(trees)) ==
                (done + [top.item]) + (Items(top.right) + Pending(trees[..|trees| - 1]))
  {
    hide *;
    NothingPending();
    PendingPop(trees);
    var top := trees[|trees| - 1];
    Shift(done, top.item, Items(top.right), Pending(trees[..|trees| - 1]));
    assert t == Nil;
  }

  lemma Shift(d: seq<Item>, x: Item, r: seq<Item>, p: seq<Item>)
    ensures d + ([] + ([x] + r + p)) == (d + [x]) + (r + p)
  {
  }
}
