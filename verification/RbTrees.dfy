/** Red-black trees as values: the tree below a node and the context above it. */
module RbTrees {
  import opened WordBits

  type Ref = nat

  datatype Color = Red | Black

  datatype Item = Item(ref: Ref, key: int, value: int)

  datatype Tree = Nil | Node(color: Color, left: Tree, item: Item, right: Tree)

  datatype Direction = LEFT | ROOT | RIGHT

  /** What surrounds a subtree: the path to the root with the siblings on the way. The hole is
      the `side` child of the node `item`. */
  datatype Ctx = Top | Step(side: Direction, color: Color, up: Ctx, item: Item, sibling: Tree)

  /** A node whose `side` child is `near` and whose other child is `far`. */
  function Join(side: Direction, color: Color, near: Tree, item: Item, far: Tree): (t: Tree)
    ensures t.Node? && t.color == color && t.item == item
  {
    if side == LEFT then Node(color, near, item, far) else Node(color, far, item, near)
  }

  function Near(side: Direction, t: Tree): Tree
    requires t.Node?
  {
    if side == LEFT then t.left else t.right
  }

  function Far(side: Direction, t: Tree): Tree
    requires t.Node?
  {
    if side == LEFT then t.right else t.left
  }

  function Other(side: Direction): Direction
  {
    if side == LEFT then RIGHT else LEFT
  }

  /** The tree seen one step further up. */
  function Lift(c: Ctx, t: Tree): Tree
    requires c.Step?
  {
    Join(c.side, c.color, t, c.item, c.sibling)
  }

  function Plug(c: Ctx, t: Tree): Tree
    decreases c
  {
    if c.Top? then t else Plug(c.up, Lift(c, t))
  }

  // In-order contents.

  function Items(t: Tree): seq<Item>
  {
    if t.Nil? then [] else Items(t.left) + [t.item] + Items(t.right)
  }

  /** The items left of the hole. */
  function Before(c: Ctx): seq<Item>
  {
    if c.Top? then [] else if c.side == LEFT then Before(c.up) else Before(c.up) + Items(c.sibling) + [c.item]
  }

  function After(c: Ctx): seq<Item>
  {
    if c.Top? then [] else if c.side == LEFT then [c.item] + Items(c.sibling) + After(c.up) else After(c.up)
  }

  lemma {:induction false} PlugItems(c: Ctx, t: Tree)
    ensures Items(Plug(c, t)) == Before(c) + Items(t) + After(c)
    decreases c
  {
    if c.Step? {
      PlugItems(c.up, Lift(c, t));
      LiftItems(c, t);
      hide *;
      if c.side == LEFT {
        Flatten(Before(c.up), Items(t), [c.item] + Items(c.sibling), After(c.up));
      } else {
        Flatten(Before(c.up), Items(c.sibling) + [c.item], Items(t), After(c.up));
      }
    }
  }

  lemma LiftItems(c: Ctx, t: Tree)
    requires c.Step?
    ensures Plug(c, t) == Plug(c.up, Lift(c, t))
    ensures c.side == LEFT ==>
              && Items(Lift(c, t)) == Items(t) + ([c.item] + Items(c.sibling)) && Before(c) == Before(c.up)
              && After(c) == [c.item] + Items(c.sibling) + After(c.up)
    ensures c.side != LEFT ==>
              && Items(Lift(c, t)) == (Items(c.sibling) + [c.item]) + Items(t) && After(c) == After(c.up)
              && Before(c) == Before(c.up) + (Items(c.sibling) + [c.item])
  {
    assert Items(t) + ([c.item] + Items(c.sibling)) == Items(t) + [c.item] + Items(c.sibling);
    assert Before(c.up) + (Items(c.sibling) + [c.item]) == Before(c.up) + Items(c.sibling) + [c.item];
  }

  lemma Flatten(a: seq<Item>, l: seq<Item>, r: seq<Item>, b: seq<Item>)
    ensures a + (l + r) + b == (a + l) + r + b && a + (l + r) + b == a + l + (r + b)
  {
  }

  // Colours and black heights.

  predicate IsRed(t: Tree)
  {
    t.Node? && t.color == Red
  }

  function BlackHeight(t: Tree): nat
  {
    if t.Nil? then 0 else BlackHeight(t.left) + Weight(t.color)
  }

  function Weight(color: Color): nat
  {
    if color == Black then 1 else 0
  }

  /** No red node has a red child, and all paths down hold equally many black nodes. */
  ghost predicate RedBlack(t: Tree)
  {
    t.Node? ==>
      && RedBlack(t.left) && RedBlack(t.right) && BlackHeight(t.left) == BlackHeight(t.right)
      && (t.color == Red ==> !IsRed(t.left) && !IsRed(t.right))
  }

  /** The hole must not be filled with a red root. */
  predicate NeedsBlack(c: Ctx)
  {
    c.Top? || c.color == Red
  }

  /** The context makes a red-black tree of every red-black filling of black height `h` that has
      a suitable colour. */
  ghost predicate Fits(c: Ctx, h: nat)
    decreases c
  {
    c.Step? ==>
      && RedBlack(c.sibling) && BlackHeight(c.sibling) == h
      && (c.color == Red ==> !IsRed(c.sibling) && !NeedsBlack(c.up))
      && Fits(c.up, h + Weight(c.color))
  }

  lemma {:induction false} PlugRedBlack(c: Ctx, t: Tree)
    ensures RedBlack(Plug(c, t)) && !IsRed(Plug(c, t)) <==>
            RedBlack(t) && Fits(c, BlackHeight(t)) && (NeedsBlack(c) ==> !IsRed(t))
    decreases c
  {
    if c.Step? {
      PlugRedBlack(c.up, Lift(c, t));
    }
  }

  // Height.

  function Height(t: Tree): nat
  {
    if t.Nil? then 0 else 1 + if Height(t.left) > Height(t.right) then Height(t.left) else Height(t.right)
  }

  lemma {:induction false} HeightByBlack(t: Tree)
    requires RedBlack(t)
    ensures Height(t) <= 2 * BlackHeight(t) + (if IsRed(t) then 1 else 0)
    ensures Pow2(BlackHeight(t)) <= |Items(t)| + 1
  {
    if t.Node? {
      HeightByBlack(t.left);
      HeightByBlack(t.right);
    }
  }

  /** `height <= 2 log2(n + 1)`. */
  lemma HeightBound(t: Tree)
    requires RedBlack(t) && !IsRed(t)
    ensures Pow2(Height(t)) <= (|Items(t)| + 1) * (|Items(t)| + 1)
  {
    var (b, n) := (BlackHeight(t), |Items(t)| + 1);
    HeightByBlack(t);
    Pow2Grows(Height(t), 2 * b);
    Pow2Adds(b, b);
    assert Pow2(b) * Pow2(b) <= n * n by {
      Square(Pow2(b), n);
    }
  }

  lemma Square(a: nat, b: nat)
    requires a <= b
    ensures a * a <= b * b
  {
    assert a * a <= a * b <= b * b;
  }
}

/** The contents of the map: items in key order, and the map they stand for. */
module RbContents {
  import opened RbTrees

  ghost predicate Sorted(s: seq<Item>)
  {
    forall i, j :: 0 <= i < j < |s| ==> s[i].key < s[j].key
  }

  /** Sets the value of a key, with a new node at address `at` if the key is new. */
  function Put(s: seq<Item>, at: Ref, key: int, value: int): seq<Item>
  {
    if s == [] then [Item(at, key, value)]
    else if key < s[0].key then [Item(at, key, value)] + s
    else if key == s[0].key then [Item(s[0].ref, key, value)] + s[1..]
    else [s[0]] + Put(s[1..], at, key, value)
  }

  function Drop(s: seq<Item>, key: int): seq<Item>
  {
    if s == [] then [] else (if s[0].key == key then [] else [s[0]]) + Drop(s[1..], key)
  }

  function AsMap(s: seq<Item>): map<int, int>
  {
    if s == [] then map[] else AsMap(s[1..])[s[0].key := s[0].value]
  }

  ghost predicate AllBelow(s: seq<Item>, key: int)
  {
    forall i :: 0 <= i < |s| ==> s[i].key < key
  }

  ghost predicate AllAbove(s: seq<Item>, key: int)
  {
    forall i :: 0 <= i < |s| ==> key < s[i].key
  }

  lemma {:induction false} PutNew(a: seq<Item>, b: seq<Item>, at: Ref, key: int, value: int)
    requires AllBelow(a, key) && AllAbove(b, key)
    ensures Put(a + b, at, key, value) == a + [Item(at, key, value)] + b
  {
    if a == [] {
      assert a + b == b;
    } else {
      assert (a + b)[1..] == a[1..] + b;
      PutNew(a[1..], b, at, key, value);
    }
  }

  lemma {:induction false} PutOld(a: seq<Item>, b: seq<Item>, ref: Ref, at: Ref, key: int, was: int, value: int)
    requires AllBelow(a, key)
    ensures Put(a + [Item(ref, key, was)] + b, at, key, value) == a + [Item(ref, key, value)] + b
  {
    var s := a + [Item(ref, key, was)] + b;
    if a == [] {
      assert s[1..] == b;
    } else {
      assert s[1..] == a[1..] + [Item(ref, key, was)] + b;
      PutOld(a[1..], b, ref, at, key, was, value);
    }
  }

  lemma {:induction false} DropAbsent(s: seq<Item>, key: int)
    requires forall i :: 0 <= i < |s| ==> s[i].key != key
    ensures Drop(s, key) == s
  {
    if s != [] {
      DropAbsent(s[1..], key);
    }
  }

  lemma {:induction false} DropOne(a: seq<Item>, x: Item, b: seq<Item>)
    requires AllBelow(a, x.key) && AllAbove(b, x.key)
    ensures Drop(a + [x] + b, x.key) == a + b
  {
    var s := a + [x] + b;
    if a == [] {
      assert s[1..] == b;
      DropAbsent(b, x.key);
    } else {
      assert s[1..] == a[1..] + [x] + b;
      DropOne(a[1..], x, b);
    }
  }

  lemma {:induction false} InMap(s: seq<Item>, key: int)
    ensures key in AsMap(s) <==> exists i :: 0 <= i < |s| && s[i].key == key
  {
    if s != [] {
      InMap(s[1..], key);
      if i: nat :| i < |s| - 1 && s[1..][i].key == key {
        assert s[i + 1].key == key;
      }
      if i: nat :| 0 < i < |s| && s[i].key == key {
        assert s[1..][i - 1].key == key;
      }
    }
  }

  /** Sorted contents hold one item a key, so every item is the map's. */
  lemma {:induction false} ItemInMap(s: seq<Item>, i: nat)
    requires Sorted(s) && i < |s|
    ensures s[i].key in AsMap(s) && AsMap(s)[s[i].key] == s[i].value
  {
    if i > 0 {
      ItemInMap(s[1..], i - 1);
    }
  }

  lemma {:induction false} PutIsUpdate(s: seq<Item>, at: Ref, key: int, value: int)
    requires Sorted(s)
    ensures AsMap(Put(s, at, key, value)) == AsMap(s)[key := value]
  {
    if s != [] && key > s[0].key {
      PutIsUpdate(s[1..], at, key, value);
    }
  }

  lemma {:induction false} DropIsRemoval(s: seq<Item>, key: int)
    requires Sorted(s)
    ensures AsMap(Drop(s, key)) == AsMap(s) - {key}
  {
    if s != [] {
      var d := Drop(s[1..], key);
      DropIsRemoval(s[1..], key);
      assert ([s[0]] + d)[1..] == d;
      assert [] + d == d;
    }
  }
}
