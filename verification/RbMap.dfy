/** `RBTreeMap`: nodes with parent pointers in memory, a header that knows the root and both
    ends. Insertion and removal with their repairs, in place. */
module RbMap {
  import opened RbTrees
  import opened RbContents
  import opened RbMemory
  import opened RbRepairs
  import opened RbRotations
  import opened RbSwap

  class RBTreeMap {
    var heap: Heap
    var root: Ref
    var cnt: nat
    const header: Ref
    ghost var tree: Tree

    ghost predicate At(c: Ctx, t: Tree)
      reads this
    {
      Shows(heap, root, header, c, t)
    }

    predicate IsRoot(node: Ref)
      reads this
    {
      root == node
    }

    function GetDirection(node: Ref): Direction
      requires node in heap && (node != root ==> heap[node].parent in heap)
      reads this
    {
      if root == node then ROOT
      else if node == heap[heap[node].parent].left then LEFT
      else RIGHT
    }

    function GetSibling(node: Ref): Ref
      requires node in heap && heap[node].parent in heap
      reads this
    {
      if GetDirection(node) == LEFT then heap[heap[node].parent].right else heap[heap[node].parent].left
    }

    /** Points the children of `node` back at it. */
    method MaintainRelationship(node: Ref)
      requires node in heap
      requires heap[node].left != NULL ==> heap[node].left in heap
      requires heap[node].right != NULL ==> heap[node].right in heap
      modifies this`heap
      ensures heap == Maintain(old(heap), node)
    {
      if heap[node].left != NULL {
        heap := heap[heap[node].left := heap[heap[node].left].(parent := node)];
      }
      if heap[node].right != NULL {
        heap := heap[heap[node].right := heap[heap[node].right].(parent := node)];
      }
    }

    lemma Directions(c: Ctx, t: Tree)
      requires At(c, t) && t.Node?
      ensures t.item.ref in heap && heap[t.item.ref].parent == ParentRef(c, header) && header in heap
      ensures c.Step? ==> c.item.ref in heap
      ensures GetDirection(t.item.ref) == if c.Top? then ROOT else c.side
    {
      NodeCell(heap, root, header, c, t);
      HoleCell(heap, root, header, c, t);
    }

    /** The `switch` over directions: puts `x` in the place of a child of `parent`, or of the root. */
    method PutChild(parent: Ref, direction: Direction, x: Ref)
      requires parent in heap && header in heap
      modifies this`heap, this`root
      ensures heap == Hang(old(heap), parent, direction, header, x)
      ensures root == if direction == ROOT then x else old(root)
    {
      match direction {
        case ROOT =>
          root := x;
          heap := heap[header := heap[header].(parent := x)];
        case LEFT =>
          heap := heap[parent := heap[parent].(left := x)];
        case RIGHT =>
          heap := heap[parent := heap[parent].(right := x)];
      }
    }

    method RotateLeft(node: Ref, ghost c: Ctx, ghost t: Tree)
      requires At(c, t) && t.Node? && t.item.ref == node && t.right.Node?
      modifies this`heap, this`root
      ensures At(c, Turn(LEFT, t)) && SameEnds(old(heap), heap, header)
    {
      hide Shows, Turn, Rotated, Maintain;
      ghost var (h, r, b) := (heap, root, RefOf(t.right.left));
      RotationCells(h, r, header, c, t, LEFT);
      Directions(c, t);
      Crossed(h, r, header, c, t, LEFT);
      var parent := heap[node].parent;
      var direction := GetDirection(node);
      var successor := heap[node].right;
      heap := heap[node := heap[node].(right := heap[successor].left)];
      heap := heap[successor := heap[successor].(left := node)];
      MaintainRelationship(node);
      MaintainRelationship(successor);
      PutChild(parent, direction, successor);
      heap := heap[successor := heap[successor].(parent := parent)];
      RotatedByHand(h, r, header, c, t, LEFT);
      RotatedShows(h, heap, r, root, header, c, t, LEFT);
      Arrived(c, Turn(LEFT, t));
    }

    method RotateRight(node: Ref, ghost c: Ctx, ghost t: Tree)
      requires At(c, t) && t.Node? && t.item.ref == node && t.left.Node?
      modifies this`heap, this`root
      ensures At(c, Turn(RIGHT, t)) && SameEnds(old(heap), heap, header)
    {
      hide Shows, Turn, Rotated, Maintain;
      ghost var (h, r, b) := (heap, root, RefOf(t.left.right));
      RotationCells(h, r, header, c, t, RIGHT);
      Directions(c, t);
      Crossed(h, r, header, c, t, RIGHT);
      var parent := heap[node].parent;
      var direction := GetDirection(node);
      var successor := heap[node].left;
      heap := heap[node := heap[node].(left := heap[successor].right)];
      heap := heap[successor := heap[successor].(right := node)];
      MaintainRelationship(node);
      MaintainRelationship(successor);
      PutChild(parent, direction, successor);
      heap := heap[successor := heap[successor].(parent := parent)];
      RotatedByHand(h, r, header, c, t, RIGHT);
      RotatedShows(h, heap, r, root, header, c, t, RIGHT);
      Arrived(c, Turn(RIGHT, t));
    }

    lemma Arrived(c: Ctx, t: Tree)
      requires Shows(heap, root, header, c, t)
      ensures At(c, t)
    {
    }

    method Paint(x: Ref, color: Color, ghost c: Ctx, ghost t: Tree)
      requires At(c, t) && t.Node? && t.item.ref == x
      modifies this`heap
      ensures At(c, t.(color := color)) && SameEnds(old(heap), heap, header)
    {
      NodeCell(heap, root, header, c, t);
      HoleCell(heap, root, header, c, t);
      Painted(heap, root, header, c, t, color);
      heap := heap[x := heap[x].(color := color)];
    }

    lemma Above(c: Ctx, t: Tree)
      requires At(c, t) && c.Step?
      ensures At(c.up, Lift(c, t))
    {
      Up(heap, root, header, c, t);
    }

    lemma Below(c: Ctx, t: Tree, side: Direction)
      requires At(c, t) && t.Node? && side != ROOT
      ensures At(Step(side, t.color, c, t.item, Far(side, t)), Near(side, t))
    {
      Down(heap, root, header, c, t, side);
    }

    /** The whole tree, once the focus has served. */
    lemma Whole(c: Ctx, t: Tree)
      requires At(c, t)
      ensures At(Top, Plug(c, t)) && Items(Plug(c, t)) == Before(c) + Items(t) + After(c)
      ensures RedBlack(t) && Fits(c, BlackHeight(t)) && (NeedsBlack(c) ==> !IsRed(t)) ==>
                RedBlack(Plug(c, t)) && !IsRed(Plug(c, t))
    {
      ToTop(heap, root, header, c, t);
      PlugItems(c, t);
      PlugRedBlack(c, t);
    }

    /** Repairs a red node below a red parent. */
    method MaintainAfterInsert(node: Ref, ghost c: Ctx, ghost t: Tree) returns (ghost all: Tree)
      requires At(c, t) && t.Node? && t.item.ref == node
      requires IsRed(t) && RedBlack(t) && Fits(c, BlackHeight(t))
      modifies this`heap, this`root
      ensures At(Top, all) && RedBlack(all) && !IsRed(all) && Items(all) == Before(c) + Items(t) + After(c)
      ensures SameEnds(old(heap), heap, header)
      decreases c
    {
      hide Shows, At, RedBlack, Fits, Items, Before, After, BlackHeight, Plug;
      Directions(c, t);
      Names(c, t);
      if IsRoot(node) {
        // case 1
        Paint(node, Black, c, t);
        all := t.(color := Black);
        Blackened(t);
        return;
      }
      var parent := heap[node].parent;
      if heap[parent].color == Black {
        // case 2
        Whole(c, t);
        all := Plug(c, t);
        return;
      }
      // Case 3, a red root above the node, cannot arise: the root is black.
      RedParent(c, t);
      ghost var (cp, tp) := (c.up, Lift(c, t));
      ghost var (cg, tg) := (cp.up, Lift(cp, tp));
      Above(c, t);
      Directions(cp, tp);
      Above(cp, tp);
      var uncle := GetSibling(parent);
      var grandParent := heap[parent].parent;
      Names(cp, tp);
      if uncle != NULL && heap[uncle].color == Red {
        // case 4
        Paint(parent, Black, cp, tp);
        PaintSibling(uncle, Black, cp, tp.(color := Black));
        ghost var cq := cp.(sibling := cp.sibling.(color := Black));
        Above(cq, tp.(color := Black));
        Paint(grandParent, Red, cg, Lift(cq, tp.(color := Black)));
        Recolored(c, t);
        all := MaintainAfterInsert(grandParent, cg, Recolor(cp, tp));
        return;
      }
      var at := node;
      ghost var tr := tp;
      if GetDirection(node) != GetDirection(parent) {
        // case 5
        if GetDirection(node) == LEFT {
          RotateRight(parent, cp, tp);
        } else {
          RotateLeft(parent, cp, tp);
        }
        at := parent;
        tr := Turn(cp.side, tp);
        Above(cp, tr);
      }
      // case 6
      Aligned(c, t, tr);
      all := RotateGrandParent(at, cp, tr);
      Straightened(c, t, tr);
    }

    /** Case 6: node, parent and grandparent lie on one side; the parent goes to the top. */
    method RotateGrandParent(node: Ref, ghost cp: Ctx, ghost tr: Tree) returns (ghost all: Tree)
      requires At(cp, tr) && cp.Step? && cp.side != ROOT && tr.Node? && Near(cp.side, tr).Node?
               && Near(cp.side, tr).item.ref == node
      requires IsRed(tr) && RedBlack(Near(cp.side, tr)) && RedBlack(Far(cp.side, tr)) && !IsRed(Far(cp.side, tr))
               && !IsRed(cp.sibling)
      requires BlackHeight(Near(cp.side, tr)) == BlackHeight(Far(cp.side, tr)) && cp.color == Black
               && Fits(cp, BlackHeight(tr))
      modifies this`heap, this`root
      ensures At(Top, all) && RedBlack(all) && !IsRed(all)
      ensures Items(all) == Before(cp) + Items(tr) + After(cp)
      ensures SameEnds(old(heap), heap, header)
    {
      hide Shows, At, RedBlack, Fits, Items, Before, After, BlackHeight, Plug, Turn;
      ghost var side := cp.side;
      ghost var (cg, tg) := (cp.up, Lift(cp, tr));
      ghost var cn := Step(side, tr.color, cp, tr.item, Far(side, tr));
      Below(cp, tr, side);
      Names(cn, Near(side, tr));
      Directions(cp, tr);
      Names(cp, tr);
      Above(cp, tr);
      var grandParent := heap[heap[node].parent].parent;
      if GetDirection(heap[node].parent) == LEFT {
        RotateRight(grandParent, cg, tg);
      } else {
        RotateLeft(grandParent, cg, tg);
      }
      ghost var top := Turn(Other(side), tg);
      TurnParts(Other(side), tg);
      Below(cg, top, side);
      ghost var ct := Step(side, top.color, cg, top.item, Far(side, top));
      Names(ct, Near(side, top));
      Paint(heap[node].parent, Black, cg, top);
      Below(cg, top.(color := Black), side);
      ghost var cb := Step(side, Black, cg, top.item, Far(side, top));
      Names(cb, Near(side, top));
      Directions(cb, Near(side, top));
      PaintSibling(GetSibling(node), Red, cb, Near(side, top));
      ghost var cr := cb.(sibling := cb.sibling.(color := Red));
      Lifted(cp, tr);
      Whole(cr, Near(side, top));
      all := Plug(cr, Near(side, top));
    }

    method PaintSibling(x: Ref, color: Color, ghost c: Ctx, ghost t: Tree)
      requires At(c, t) && c.Step? && c.sibling.Node? && c.sibling.item.ref == x
      modifies this`heap
      ensures At(c.(sibling := c.sibling.(color := color)), t) && SameEnds(old(heap), heap, header)
    {
      HoleCell(heap, root, header, c, t);
      hide Shows, At;
      Above(c, t);
      Below(c.up, Lift(c, t), Other(c.side));
      ghost var d := Step(Other(c.side), c.color, c.up, c.item, t);
      Paint(x, color, d, c.sibling);
      Above(d, c.sibling.(color := color));
      Below(c.up, Lift(d, c.sibling.(color := color)), c.side);
    }

    method Attach(node: Ref, side: Direction, at: Ref, key: int, value: int, ghost c: Ctx, ghost t: Tree)
      requires At(c, t) && t.Node? && t.item.ref == node && side != ROOT && Near(side, t).Nil?
      requires at !in heap && at != NULL
      modifies this`heap
      ensures At(Step(side, t.color, c, t.item, Far(side, t)), Node(Red, Nil, Item(at, key, value), Nil))
      ensures SameEnds(old(heap), heap, header)
    {
      ghost var h := heap;
      Below(c, t, side);
      Filled(heap, root, header, Step(side, t.color, c, t.item, Far(side, t)),
          Node(Red, Nil, Item(at, key, value), Nil));
      hide Shows;
      heap := heap[at := Cell(Red, NULL, NULL, NULL, key, value)];
      heap := heap[node := Linked(side, heap[node], at)];
      heap := heap[at := heap[at].(parent := node)];
      assert heap == h[node := Linked(side, h[node], at)][at := Cell(Red, node, NULL, NULL, key, value)];
    }

    method MoveEnd(side: Direction, x: Ref, ghost c: Ctx, ghost t: Tree)
      requires At(c, t) && side != ROOT
      modifies this`heap
      ensures At(c, t) && header in heap && header in old(heap)
      ensures heap[header] == Linked(side, old(heap)[header], x)
    {
      EndMoved(heap, root, header, c, t, side, x);
      heap := heap[header := Linked(side, heap[header], x)];
    }

    /** Links a new node below `node` and repairs the tree. */
    method LinkNew(node: Ref, side: Direction, at: Ref, key: int, value: int, ghost c: Ctx,
        ghost t: Tree) returns (ghost all: Tree)
      requires At(c, t) && t.Node? && t.item.ref == node && side != ROOT && Near(side, t).Nil?
      requires at !in heap && at != NULL
      requires Sound(c, t) && EndsAre(heap, header, Before(c) + Items(t) + After(c))
      modifies this
      ensures At(Top, all) && RedBlack(all) && !IsRed(all)
      ensures Items(all) == Before(c) + (if side == LEFT then [Item(at, key, value)] + Items(t)
              else Items(t) + [Item(at, key, value)]) + After(c)
      ensures EndsAre(heap, header, Items(all)) && cnt == old(cnt) + 1
    {
      hide Shows, RedBlack, Fits, Items, Before, After, Sound, EndsAre, BlackHeight;
      ghost var cn := Step(side, t.color, c, t.item, Far(side, t));
      ghost var leaf := Node(Red, Nil, Item(at, key, value), Nil);
      ghost var h := heap;
      NodeIsEnd(heap, root, header, c, t, side);
      HasItem(t);
      NewLeaf(c, t, side, leaf);
      Attach(node, side, at, key, value, c, t);
      if (if side == LEFT then heap[header].left else heap[header].right) == node {
        MoveEnd(side, at, cn, leaf);
      }
      all := MaintainAfterInsert(at, cn, leaf);
      EndsGrown(h, heap, header, Before(c), Items(t), After(c), leaf.item, side);
      cnt := cnt + 1;
    }

    /** Everything the map keeps: red-black shape, key order, the header's ends, the count, and a
        memory that holds just these nodes. */
    ghost predicate Holds(w: Tree)
      reads this
    {
      && At(Top, w) && RedBlack(w) && !IsRed(w) && Sorted(Items(w))
      && EndsAre(heap, header, Items(w)) && cnt == |Items(w)|
    }

    method Insert(node: Ref, key: int, value: int, at: Ref, ghost c: Ctx, ghost t: Tree) returns (ghost all: Tree)
      requires At(c, t) && Holds(Plug(c, t)) && t.Node? && t.item.ref == node && Around(c, key)
      requires at !in heap && at != NULL
      modifies this
      ensures Holds(all) && Items(all) == Put(Items(Plug(c, t)), at, key, value)
      decreases t
    {
      hide Shows, At, RedBlack, Items, Plug, EndsAre, Around, Put, Sorted;
      Names(c, t);
      if key == heap[node].key {
        all := Assign(node, value, at, c, t);
        return;
      }
      if key < heap[node].key {
        Narrow(c, t, key, LEFT);
        if heap[node].left == NULL {
          Opened(c, t);
          all := LinkNew(node, LEFT, at, key, value, c, t);
          Closed(c, t, LEFT, at, key, value);
        } else {
          Below(c, t, LEFT);
          all := Insert(heap[node].left, key, value, at, Step(LEFT, t.color, c, t.item, t.right), t.left);
        }
      } else {
        Narrow(c, t, key, RIGHT);
        if heap[node].right == NULL {
          Opened(c, t);
          all := LinkNew(node, RIGHT, at, key, value, c, t);
          Closed(c, t, RIGHT, at, key, value);
        } else {
          Below(c, t, RIGHT);
          all := Insert(heap[node].right, key, value, at, Step(RIGHT, t.color, c, t.item, t.left), t.right);
        }
      }
    }

    /** The key is there: its value changes in place. */
    method Assign(node: Ref, value: int, ghost at: Ref, ghost c: Ctx, ghost t: Tree) returns (ghost all: Tree)
      requires At(c, t) && Holds(Plug(c, t)) && t.Node? && t.item.ref == node
      modifies this`heap
      ensures Holds(all) && Items(all) == Put(Items(Plug(c, t)), at, t.item.key, value)
    {
      hide Shows, Items, Before, After, Plug, Put, Sorted, RedBlack, BlackHeight, Fits, EndsAre, Sound;
      ghost var h := heap;
      ghost var t' := t.(item := t.item.(value := value));
      Names(c, t);
      Opened(c, t);
      Revalued(heap, root, header, c, t, value);
      Reassigned(c, t, at, value);
      heap := heap[node := heap[node].(value := value)];
      Arrived(c, t');
      Whole(c, t');
      SoundIs(c, t');
      EndsSame(h, heap, header, Before(c) + Items(t) + After(c), Before(c) + Items(t') + After(c));
      all := Plug(c, t');
    }

    lemma Opened(c: Ctx, t: Tree)
      requires At(c, t) && Holds(Plug(c, t))
      ensures Sound(c, t) && EndsAre(heap, header, Before(c) + Items(t) + After(c))
              && cnt == |Before(c) + Items(t) + After(c)|
    {
      PlugItems(c, t);
      PlugRedBlack(c, t);
    }

    method RotateSameDirection(node: Ref, direction: Direction, ghost c: Ctx, ghost t: Tree)
      requires At(c, t) && t.Node? && t.item.ref == node && direction != ROOT && Far(direction, t).Node?
      modifies this`heap, this`root
      ensures At(c, Turn(direction, t)) && SameEnds(old(heap), heap, header)
    {
      if direction == LEFT {
        RotateLeft(node, c, t);
      } else {
        RotateRight(node, c, t);
      }
    }

    method RotateOppositeDirection(node: Ref, direction: Direction, ghost c: Ctx, ghost t: Tree)
      requires At(c, t) && t.Node? && t.item.ref == node && direction != ROOT && Near(direction, t).Node?
      modifies this`heap, this`root
      ensures At(c, Turn(Other(direction), t)) && SameEnds(old(heap), heap, header)
    {
      if direction == LEFT {
        RotateRight(node, c, t);
      } else {
        RotateLeft(node, c, t);
      }
    }

    /** Makes up for a subtree that is about to be one black node short: afterwards its context
        fits a black height of `e` instead of `e + 1`. The subtree stays as it is. */
    method MaintainAfterRemove(node: Ref, ghost c: Ctx, ghost t: Tree, ghost e: nat) returns (ghost r: Ctx)
      requires At(c, t) && t.Node? && t.item.ref == node && Fits(c, e + 1)
      modifies this`heap, this`root
      ensures At(r, t) && Fits(r, e) && Before(r) == Before(c) && After(r) == After(c) && (r.Top? <==> c.Top?)
      ensures SameEnds(old(heap), heap, header)
      decreases c
    {
      hide Shows, At, RedBlack, Fits, Before, After, BlackHeight, Turn;
      Directions(c, t);
      Names(c, t);
      if IsRoot(node) {
        FitsTop(e);
        return c;
      }
      r := c;
      var direction := GetDirection(node);
      var sibling := GetSibling(node);
      HasSibling(c, e);
      ghost var d := c;
      if heap[sibling].color == Red {
        d := RaiseSibling(node, c, t, e);
        Directions(d, t);
        Names(d, t);
        HasSibling(d, e);
        sibling := GetSibling(node);
      }
      Nephews(d, t);
      var closeNephew := if direction == LEFT then heap[sibling].left else heap[sibling].right;
      var distantNephew := if direction == LEFT then heap[sibling].right else heap[sibling].left;
      var closeNephewIsBlack := closeNephew == NULL || heap[closeNephew].color == Black;
      var distantNephewIsBlack := distantNephew == NULL || heap[distantNephew].color == Black;
      if closeNephewIsBlack && distantNephewIsBlack {
        PaintSibling(sibling, Red, d, t);
        ghost var d' := d.(sibling := d.sibling.(color := Red));
        Names(d', t);
        Above(d', t);
        if heap[heap[node].parent].color == Red {
          // case 2
          Paint(heap[node].parent, Black, d.up, Lift(d', t));
          Below(d.up, Lift(d', t).(color := Black), d.side);
          SwappedColors(d, e);
          r := d'.(color := Black);
        } else {
          // case 3
          Deferred(d, e);
          ghost var u := MaintainAfterRemove(heap[node].parent, d.up, Lift(d', t), e + 1);
          Below(u, Lift(d', t), d.side);
          Resumed(d, u, e);
          r := d'.(up := u);
        }
      } else {
        if !closeNephewIsBlack {
          // case 4
          TurnNephew(sibling, closeNephew, direction, d, t);
          NephewTurned(d, e);
          d := d.(sibling := TurnedNephew(d.side, d.sibling));
          Directions(d, t);
          Names(d, t);
          Nephews(d, t);
          sibling := GetSibling(node);
          closeNephew := if direction == LEFT then heap[sibling].left else heap[sibling].right;
          distantNephew := if direction == LEFT then heap[sibling].right else heap[sibling].left;
        }
        if closeNephewIsBlack {
          DistantRed(d, e);
        }
        // case 5
        SiblingLifted(d, e);
        r := LiftSibling(node, direction, sibling, distantNephew, d, t);
      }
    }

    /** Case 4: the close nephew takes the place of the sibling. */
    method TurnNephew(sibling: Ref, closeNephew: Ref, direction: Direction, ghost c: Ctx, ghost t: Tree)
      requires At(c, t) && c.Step? && c.side == direction != ROOT && c.sibling.Node? && c.sibling.item.ref == sibling
      requires Near(c.side, c.sibling).Node? && Near(c.side, c.sibling).item.ref == closeNephew
      modifies this`heap, this`root
      ensures At(c.(sibling := TurnedNephew(c.side, c.sibling)), t)
      ensures SameEnds(old(heap), heap, header)
    {
      hide Shows, At, Turn;
      Above(c, t);
      Below(c.up, Lift(c, t), Other(c.side));
      ghost var d := Step(Other(c.side), c.color, c.up, c.item, t);
      RotateOppositeDirection(sibling, direction, d, c.sibling);
      ghost var top := Turn(Other(c.side), c.sibling);
      TurnParts(Other(c.side), c.sibling);
      Paint(closeNephew, Black, d, top);
      ghost var top' := top.(color := Black);
      Below(d, top', Other(c.side));
      ghost var f := Step(Other(c.side), Black, d, top'.item, Far(Other(c.side), top'));
      Paint(sibling, Red, f, Near(Other(c.side), top'));
      Above(f, Near(Other(c.side), top').(color := Red));
      ghost var s := Lift(f, Near(Other(c.side), top').(color := Red));
      Above(d, s);
      Below(c.up, Lift(d, s), c.side);
      TurnedNephewIs(c.side, c.sibling);
    }

    /** Case 5: the sibling goes up in the colour of the parent. */
    method LiftSibling(node: Ref, direction: Direction, sibling: Ref, distantNephew: Ref, ghost c: Ctx,
        ghost t: Tree) returns (ghost r: Ctx)
      requires At(c, t) && c.Step? && t.Node? && t.item.ref == node && direction == c.side
      requires c.sibling.Node? && c.sibling.item.ref == sibling
      requires Far(c.side, c.sibling).Node? && Far(c.side, c.sibling).item.ref == distantNephew
      modifies this`heap, this`root
      ensures At(r, t) && r == LiftedSibling(c)
      ensures SameEnds(old(heap), heap, header)
    {
      r := LiftedSibling(c);
      Directions(c, t);
      Names(c, t);
      Above(c, t);
      hide Shows, At, Turn;
      var parent := heap[node].parent;
      ghost var top := Turn(c.side, Lift(c, t));
      RotateSameDirection(parent, direction, c.up, Lift(c, t));
      TurnParts(c.side, Lift(c, t));
      TurnedNear(c.side, Lift(c, t));
      Below(c.up, top, c.side);
      ghost var f := Step(c.side, top.color, c.up, top.item, Far(c.side, top));
      Below(f, Near(c.side, top), c.side);
      Names(r.(color := c.color, up := f), t);
      Names(f, Near(c.side, top));
      Paint(sibling, heap[heap[node].parent].color, c.up, top);
      Below(c.up, top.(color := c.color), c.side);
      f := f.(color := c.color);
      Below(f, Near(c.side, top), c.side);
      Names(r.(color := c.color, up := f), t);
      Paint(heap[node].parent, Black, f, Near(c.side, top));
      PaintSibling(distantNephew, Black, f, Near(c.side, top).(color := Black));
      Below(f.(sibling := f.sibling.(color := Black)), Near(c.side, top).(color := Black), c.side);
    }

    /** Case 1: a red sibling comes up; afterwards the sibling is black. */
    method RaiseSibling(node: Ref, ghost c: Ctx, ghost t: Tree, ghost e: nat) returns (ghost r: Ctx)
      requires At(c, t) && t.Node? && t.item.ref == node && Fits(c, e + 1) && c.Step? && IsRed(c.sibling)
      modifies this`heap, this`root
      ensures At(r, t) && Fits(r, e + 1) && Before(r) == Before(c) && After(r) == After(c)
      ensures r.Step? && r.side == c.side && r.sibling.Node? && r.sibling.color == Black && r.color == Red
      ensures SameEnds(old(heap), heap, header)
    {
      r := RaisedSibling(c);
      Raised(c, e);
      Directions(c, t);
      Names(c, t);
      Above(c, t);
      hide Shows, At, RedBlack, Fits, Before, After, BlackHeight, Turn;
      var sibling := GetSibling(node);
      var parent := heap[node].parent;
      ghost var top := Turn(c.side, Lift(c, t));
      RotateSameDirection(parent, GetDirection(node), c.up, Lift(c, t));
      TurnParts(c.side, Lift(c, t));
      Paint(sibling, Black, c.up, top);
      Below(c.up, top.(color := Black), c.side);
      ghost var f := Step(c.side, Black, c.up, top.item, Far(c.side, top));
      Paint(parent, Red, f, Near(c.side, top));
      Below(f, Near(c.side, top).(color := Red), c.side);
    }

    lemma Nephews(c: Ctx, t: Tree)
      requires At(c, t) && c.Step? && c.sibling.Node?
      ensures c.side != ROOT && c.sibling.item.ref in heap
      ensures var (s, x) := (c.sibling, heap[c.sibling.item.ref]);
              && x.left == RefOf(s.left) && x.right == RefOf(s.right)
              && (s.left.Node? ==> x.left != NULL && x.left in heap && heap[x.left].color == s.left.color)
              && (s.right.Node? ==> x.right != NULL && x.right in heap && heap[x.right].color == s.right.color)
    {
      HoleCell(heap, root, header, c, t);
      var s := c.sibling;
      assert ShowsTree(heap, s.left, s.item.ref) && ShowsTree(heap, s.right, s.item.ref);
    }

    /** Takes out a node with at most one child. */
    method Unlink(node: Ref, ghost c: Ctx, ghost t: Tree) returns (ghost all: Tree)
      requires At(c, t) && Sound(c, t) && t.Node? && t.item.ref == node
      requires t.left.Nil? || t.right.Nil?
      requires c.Step? || t.left.Node? || t.right.Node?
      modifies this`heap, this`root
      ensures At(Top, all) && RedBlack(all) && !IsRed(all)
      ensures Items(all) == Before(c) + (Items(t.left) + Items(t.right)) + After(c)
      ensures SameEnds(old(heap), heap, header)
    {
      Names(c, t);
      Directions(c, t);
      hide Shows, At, RedBlack, Fits, Items, Before, After, BlackHeight, Plug, Sound;
      if heap[node].left == NULL && heap[node].right == NULL {
        assert !IsRoot(node);
        LeafWeight(c, t);
        ghost var r := c;
        if heap[node].color == Black {
          r := MaintainAfterRemove(node, c, t, 0);
        }
        Directions(r, t);
        Names(r, t);
        Emptied(heap, root, header, r, t);
        var parent := heap[node].parent;
        if GetDirection(node) == LEFT {
          heap := heap - {heap[parent].left};
          heap := heap[parent := heap[parent].(left := NULL)];
        } else {
          heap := heap - {heap[parent].right};
          heap := heap[parent := heap[parent].(right := NULL)];
        }
        Arrived(r, Nil);
        Whole(r, Nil);
        EmptySound(r);
        all := Plug(r, Nil);
      } else {
        OnlyChild(c, t);
        var parent := heap[node].parent;
        var replacement := if heap[node].left != NULL then heap[node].left else heap[node].right;
        ghost var x := if t.left.Node? then t.left else t.right;
        Spliced(heap, root, header, c, t);
        var black := heap[node].color == Black;
        PutChild(parent, GetDirection(node), replacement);
        heap := heap - {heap[replacement].parent};
        heap := heap[replacement := heap[replacement].(parent := parent)];
        Arrived(c, x);
        Names(c, x);
        // A lone child is red and its parent black: otherwise black heights would differ. So the
        // repair of a black replacement never starts.
        assert black && heap[replacement].color == Red;
        Paint(replacement, Black, c, x);
        Whole(c, x.(color := Black));
        all := Plug(c, x.(color := Black));
      }
    }

    /** Walks to the leftmost node of a subtree; `parent` runs one step behind. */
    method Leftmost(x: Ref, above: Ref, ghost c: Ctx, ghost t: Tree) returns (l: Ref, parent: Ref, ghost d: Ctx,
        ghost u: Tree)
      requires At(c, t) && t.Node? && t.item.ref == x && above == ParentRef(c, header)
      ensures At(d, u) && u.Node? && u.item.ref == l && parent == ParentRef(d, header) && u.left.Nil?
              && Plug(d, u) == Plug(c, t)
      ensures u.item.ref in TreeRefs(t) && (d == c || (d.Step? && d.side == LEFT && d.item.ref in TreeRefs(t)))
      ensures Before(d) == Before(c) && [u.item] + Items(u.right) + After(d) == Items(t) + After(c)
    {
      hide Shows, At, Items, Before, After, Plug, TreeRefs;
      l, parent, d, u := x, above, c, t;
      RefInside(t);
      Names(c, t);
      while heap[l].left != NULL
        invariant At(d, u) && u.Node? && u.item.ref == l && l in heap && parent == ParentRef(d, header)
                  && Plug(d, u) == Plug(c, t)
        invariant u.item.ref in TreeRefs(t) && TreeRefs(u) <= TreeRefs(t)
        invariant d == c || (d.Step? && d.side == LEFT && d.item.ref in TreeRefs(t))
        invariant Before(d) == Before(c) && Items(u) + After(d) == Items(t) + After(c)
        decreases u
      {
        Names(d, u);
        Below(d, u, LEFT);
        StepLeft(d, u);
        RefInside(u);
        parent := l;
        l := heap[parent].left;
        d, u := Step(LEFT, u.color, d, u.item, u.right), u.left;
        Names(d, u);
      }
      Names(d, u);
      ItemsNode(u);
    }

    /** The rightmost node of a subtree. */
    method Rightmost(x: Ref, ghost c: Ctx, ghost t: Tree) returns (r: Ref)
      requires At(c, t) && t.Node? && t.item.ref == x
      ensures Items(t) != [] && r == Items(t)[|Items(t)| - 1].ref
    {
      hide Shows, At, Items;
      r := x;
      ghost var (d, u) := (c, t);
      HasItem(t);
      Names(c, t);
      while heap[r].right != NULL
        invariant At(d, u) && u.Node? && u.item.ref == r && r in heap
        invariant Items(t) != [] && Items(u) != [] && Items(u)[|Items(u)| - 1] == Items(t)[|Items(t)| - 1]
        decreases u
      {
        Names(d, u);
        Below(d, u, RIGHT);
        StepRight(u);
        r := heap[r].right;
        d, u := Step(RIGHT, u.color, d, u.item, u.left), u.right;
        Names(d, u);
      }
      Names(d, u);
      NilRight(u);
      StepRight(u);
    }

    /** A node with two children trades places with its successor. */
    method SwapWithSuccessor(node: Ref, ghost c: Ctx, ghost t: Tree) returns (ghost d: Ctx, ghost u: Tree)
      requires At(c, t) && Sound(c, t) && t.Node? && t.item.ref == node && t.left.Node? && t.right.Node?
      modifies this`heap, this`root
      ensures At(d, u) && Sound(d, u) && u.Node? && u.item.ref == node && u.left.Nil? && d.Step?
      ensures Before(d) + (Items(u.left) + Items(u.right)) + After(d) ==
              Before(c) + (Items(t.left) + Items(t.right)) + After(c)
      ensures SameEnds(old(heap), heap, header)
    {
      hide Shows, Items, Before, After, Plug, TreeRefs, Sound, Mutual, TradeReady, Maintain, Exchange, Hang, Traded,
          Genuine, TradeCtx, TradeTree, TreeUnique, CtxUnique;
      Names(c, t);
      Below(c, t, RIGHT);
      ghost var cn := Step(RIGHT, t.color, c, t.item, t.left);
      Names(cn, t.right);
      var successor, parent;
      successor, parent, d, u := Leftmost(heap[node].right, node, cn, t.right);
      StepItems(c, t);
      Directions(d, u);
      Directions(c, t);
      ghost var (h, r, n, s) := (heap, root, t.item, u.item);
      assert Succeeds(c, t, d, u);
      ReadyToTrade(h, r, header, c, t, d, u);
      DirectionKept(h, r, header, node, successor, if c.Top? then ROOT else c.side, d.side);
      Whole(c, t);
      TopUnique(h, r, header, Plug(c, t));
      Rewired(h, r, header, Plug(c, t), n, s, if c.Top? then ROOT else c.side, d.side);
      PutChild(heap[successor].parent, GetDirection(successor), node);
      PutChild(heap[node].parent, GetDirection(node), successor);
      heap := Exchange(heap, node, successor);
      assert heap == Rewire(h, node, successor, h[node].parent, h[successor].parent,
          if c.Top? then ROOT else c.side, d.side, header);
      MaintainRelationship(node);
      MaintainRelationship(successor);
      MaintainRelationship(parent);
      TradeShows(h, heap, r, header, d, u, n, s);
      TradedPlace(c, t, d, u);
      d, u := TradeCtx(d, n, s), TradeTree(u, n, s);
      Arrived(d, u);
    }

    /** Moves the header's ends away from a node that is about to go. */
    method UpdateEnds(node: Ref, ghost c: Ctx, ghost t: Tree)
      requires At(c, t) && t.Node? && t.item.ref == node && EndsAre(heap, header, Before(c) + Items(t) + After(c))
      modifies this`heap
      ensures At(c, t) && EndsAre(heap, header, Before(c) + (Items(t.left) + Items(t.right)) + After(c))
    {
      hide Shows, Items, Before, After, Plug, TreeRefs, EndsAre;
      ghost var h := heap;
      Names(c, t);
      EndNode(heap, root, header, c, t);
      NextAbove(c, t, header);
      Counts(c, t);
      ItemsNode(t);
      if heap[header].left == node {
        if heap[node].right != NULL {
          Below(c, t, RIGHT);
          var l, _, d, u := Leftmost(heap[node].right, node, Step(RIGHT, t.color, c, t.item, t.left), t.right);
          StepItems(c, t);
          Leading(u.item, Items(u.right) + After(d), Items(u.right), After(d), Items(t.right), After(c));
          MoveEnd(LEFT, l, c, t);
        } else {
          MoveEnd(LEFT, heap[node].parent, c, t);
        }
        Names(c, t);
      }
      if heap[header].right == node {
        if heap[node].left != NULL {
          Below(c, t, LEFT);
          var r := Rightmost(heap[node].left, Step(LEFT, t.color, c, t.item, t.right), t.left);
          MoveEnd(RIGHT, r, c, t);
        } else {
          MoveEnd(RIGHT, heap[node].parent, c, t);
        }
      }
      EndsDropped(h, heap, header, Before(c), Items(t.left), t.item, Items(t.right), After(c));
    }

    /** Deletes everything below a node. */
    method Release(node: Ref, ghost par: Ref, ghost t: Tree)
      requires ShowsTree(heap, t, par) && TreeUnique(t) && t.Node? && t.item.ref == node && NULL !in TreeRefs(t)
      modifies this`heap
      ensures heap.Keys == old(heap.Keys) - TreeRefs(t.left) - TreeRefs(t.right)
      ensures forall x :: x in heap && x != node ==> heap[x] == old(heap)[x]
      decreases t, 0
    {
      ghost var h := heap;
      Parted(h, t, par);
      hide ShowsTree, TreeUnique, TreeRefs;
      heap := heap[node := heap[node].(parent := NULL)];
      if heap[node].left != NULL {
        FrameTree(h, heap, t.left, node);
        Delete(heap[node].left, node, t.left);
        heap := heap[node := heap[node].(left := NULL)];
      }
      if heap[node].right != NULL {
        FrameTree(h, heap, t.right, node);
        Delete(heap[node].right, node, t.right);
      }
    }

    method Delete(node: Ref, ghost par: Ref, ghost t: Tree)
      requires ShowsTree(heap, t, par) && TreeUnique(t) && t.Node? && t.item.ref == node && NULL !in TreeRefs(t)
      modifies this`heap
      ensures heap.Keys == old(heap.Keys) - TreeRefs(t)
      ensures forall x :: x in heap ==> heap[x] == old(heap)[x]
      decreases t, 1
    {
      Parted(heap, t, par);
      hide ShowsTree, TreeUnique, TreeRefs;
      Release(node, par, t);
      heap := heap - {node};
    }

    method Clear(ghost w: Tree)
      requires At(Top, w)
      modifies this
      ensures Holds(Nil) && heap.Keys == {header}
    {
      hide Shows, ShowsTree, TreeUnique, TreeRefs;
      ghost var h := heap;
      HoleCell(heap, root, header, Top, w);
      WholeParts(heap, root, header, w);
      heap := heap[header := heap[header].(left := header, right := header)];
      if root != NULL {
        FrameTree(h, heap, w, header);
        Release(root, header, w);
        heap := heap[header := heap[header].(parent := NULL)];
        heap := heap - {root};
        root := NULL;
      }
      cnt := 0;
      EmptyShows(heap, header);
    }

    /** Removes the node found: its ends, its place, its memory. */
    method RemoveHere(node: Ref, ghost c: Ctx, ghost t: Tree) returns (ghost all: Tree)
      requires At(c, t) && Holds(Plug(c, t)) && t.Node? && t.item.ref == node
      modifies this
      ensures Holds(all) && Items(all) == Before(c) + (Items(t.left) + Items(t.right)) + After(c)
    {
      hide Shows, Items, Before, After, Plug, TreeRefs, EndsAre, RedBlack, Sound, Sorted;
      Opened(c, t);
      Fewer(c, t);
      Names(c, t);
      UpdateEnds(node, c, t);
      ghost var (h, s) := (heap, Before(c) + (Items(t.left) + Items(t.right)) + After(c));
      if cnt == 1 {
        Whole(c, t);
        Clear(Plug(c, t));
        return Nil;
      }
      ghost var (d, u) := (c, t);
      Names(c, t);
      if heap[node].left != NULL && heap[node].right != NULL {
        d, u := SwapWithSuccessor(node, c, t);
      }
      all := Unlink(node, d, u);
      EndsKept(h, heap, header, s);
      cnt := cnt - 1;
    }

    method Remove(node: Ref, key: int, ghost c: Ctx, ghost t: Tree) returns (found: bool, ghost all: Tree)
      requires At(c, t) && Holds(Plug(c, t)) && t.Node? && t.item.ref == node && Around(c, key)
      modifies this
      ensures Holds(all) && Items(all) == Drop(Items(Plug(c, t)), key)
      ensures found <==> HasKey(Items(Plug(c, t)), key)
      decreases t
    {
      hide Shows, Items, Plug, EndsAre, RedBlack, Around, Drop, Sorted, HasKey;
      Names(c, t);
      if key != heap[node].key {
        var side := if key < heap[node].key then LEFT else RIGHT;
        var child := if side == LEFT then heap[node].left else heap[node].right;
        Narrow(c, t, key, side);
        if child == NULL {
          Absent(c, t, side, key);
          return false, Plug(c, t);
        }
        Below(c, t, side);
        found, all := Remove(child, key, Step(side, t.color, c, t.item, Far(side, t)), Near(side, t));
        if found {
          StillLinked(c, t, all, key);
          MaintainRelationship(node);
        }
      } else {
        Opened(c, t);
        Fewer(c, t);
        Present(c, t);
        all := RemoveHere(node, c, t);
        found := true;
      }
    }

    /** The nodes on the way down are still there and still linked. */
    lemma StillLinked(c: Ctx, t: Tree, all: Tree, key: int)
      requires At(Top, all) && t.Node? && t.item.key != key && Items(all) == Drop(Items(Plug(c, t)), key)
      ensures t.item.ref in heap && Maintain(heap, t.item.ref) == heap && HasChildren(heap, t.item.ref)
    {
      hide Items, Plug, Drop, TreeRefs;
      Present(c, t);
      var i :| 0 <= i < |Items(Plug(c, t))| && Items(Plug(c, t))[i] == t.item;
      DropKeeps(Items(Plug(c, t)), key, i);
      var j :| 0 <= j < |Items(all)| && Items(all)[j] == t.item;
      TreeItemRefs(all, j);
      AllMutual(heap, root, header, all, t.item.ref);
    }

    method GetNode(node: Ref, key: int, ghost c: Ctx, ghost t: Tree) returns (r: Ref)
      requires At(c, t) && Holds(Plug(c, t)) && t.Node? && t.item.ref == node && Around(c, key)
      ensures if r == NULL then !HasKey(Items(Plug(c, t)), key) else IsAt(Items(Plug(c, t)), key, r)
      decreases t
    {
      hide Shows, Items, Plug, EndsAre, RedBlack, Around, Sorted, HasKey, IsAt;
      Names(c, t);
      if key == heap[node].key {
        PresentAt(c, t);
        return node;
      }
      var side := if key < heap[node].key then LEFT else RIGHT;
      var child := if side == LEFT then heap[node].left else heap[node].right;
      Narrow(c, t, key, side);
      if child == NULL {
        Absent(c, t, side, key);
        return NULL;
      }
      Below(c, t, side);
      r := GetNode(child, key, Step(side, t.color, c, t.item, Far(side, t)), Near(side, t));
    }

    method GetNodeOrProvide(node: Ref, key: int, value: int, at: Ref, ghost c: Ctx, ghost t: Tree)
      returns (result: Ref, ghost all: Tree)
      requires At(c, t) && Holds(Plug(c, t)) && t.Node? && t.item.ref == node && Around(c, key)
      requires at !in heap && at != NULL
      modifies this
      ensures Holds(all) && IsAt(Items(all), key, result)
      ensures Items(all) == if HasKey(Items(Plug(c, t)), key) then Items(Plug(c, t))
              else Put(Items(Plug(c, t)), at, key, value)
      decreases t
    {
      hide Shows, Items, Plug, EndsAre, RedBlack, Around, Sorted, HasKey, Put, IsAt;
      Names(c, t);
      if key == heap[node].key {
        PresentAt(c, t);
        Whole(c, t);
        return node, Plug(c, t);
      }
      var side := if key < heap[node].key then LEFT else RIGHT;
      var child := if side == LEFT then heap[node].left else heap[node].right;
      Narrow(c, t, key, side);
      if child == NULL {
        Absent(c, t, side, key);
        Opened(c, t);
        all := LinkNew(node, side, at, key, value, c, t);
        Closed(c, t, side, at, key, value);
        PutAt(Before(Step(side, t.color, c, t.item, Far(side, t))), Item(at, key, value),
            After(Step(side, t.color, c, t.item, Far(side, t))));
        result := at;
      } else {
        Below(c, t, side);
        result, all := GetNodeOrProvide(child, key, value, at, Step(side, t.color, c, t.item, Far(side, t)),
            Near(side, t));
      }
    }

    // The map's own operations.

    ghost predicate Valid()
      reads this
    {
      Holds(tree)
    }

    ghost function Contents(): map<int, int>
      reads this
    {
      AsMap(Items(tree))
    }

    constructor (at: Ref, key: int, value: int)
      requires at != NULL
      ensures Valid() && Items(tree) == [] && Contents() == map[] && header == at
    {
      header := at;
      heap := map[at := Cell(Red, NULL, at, at, key, value)];
      root := NULL;
      cnt := 0;
      tree := Nil;
    }

    /** The first node becomes a black root and both ends. */
    method PlantRoot(key: int, value: int, at: Ref)
      requires Valid() && root == NULL && at !in heap && at != NULL
      modifies this
      ensures Valid() && Items(tree) == [Item(at, key, value)] && old(Items(tree)) == []
    {
      HoleCell(heap, root, header, Top, tree);
      EmptyTree(heap, root, header, tree);
      root := at;
      heap := heap[at := Cell(Red, NULL, NULL, NULL, key, value)];
      heap := heap[root := heap[root].(parent := header)];
      heap := heap[root := heap[root].(color := Black)];
      heap := heap[header := heap[header].(parent := root)];
      heap := heap[header := heap[header].(left := root, right := root)];
      cnt := cnt + 1;
      tree := Node(Black, Nil, Item(at, key, value), Nil);
      assert Items(tree) == [Item(at, key, value)];
      assert heap[at] == Cell(Black, header, NULL, NULL, key, value) && heap[header].parent == at
          && heap[header].color == Red;
      assert TreeRefs(tree) == {at} && CtxRefs(Top) == {} && heap.Keys == {header} + {at};
      assert ShowsTree(heap, tree, header) && ShowsCtx(heap, root, header, Top, at);
    }

    /** The whole tree, as the recursive operations find it. */
    lemma Enter(key: int)
      requires Valid()
      ensures Holds(tree) && Plug(Top, tree) == tree && Around(Top, key)
      ensures root == NULL ==> tree == Nil && Items(tree) == []
      ensures root != NULL ==> At(Top, tree) && tree.Node? && tree.item.ref == root
    {
      RootNode(heap, root, header, tree);
      EmptyTree(heap, root, header, tree);
      TopAround(key);
    }

    /** `insert(key, value)`. */
    method Set(key: int, value: int, at: Ref)
      requires Valid() && at !in heap && at != NULL
      modifies this
      ensures Valid() && Items(tree) == Put(old(Items(tree)), at, key, value)
      ensures Contents() == old(Contents())[key := value]
    {
      hide Shows, RedBlack, EndsAre, Sorted, Items, Plug, Around, AsMap;
      Enter(key);
      PutIsUpdate(Items(tree), at, key, value);
      if root == NULL {
        PlantRoot(key, value, at);
      } else {
        tree := Insert(root, key, value, at, Top, tree);
      }
    }

    /** `operator[]`: the node of the key, new if need be. */
    method GetOrDefault(key: int, value: int, at: Ref) returns (node: Ref)
      requires Valid() && at !in heap && at != NULL
      modifies this
      ensures Valid() && IsAt(Items(tree), key, node)
      ensures Items(tree) == if HasKey(old(Items(tree)), key) then old(Items(tree))
              else Put(old(Items(tree)), at, key, value)
    {
      Enter(key);
      if root == NULL {
        PlantRoot(key, value, at);
        node := root;
      } else {
        node, tree := GetNodeOrProvide(root, key, value, at, Top, tree);
      }
    }

    /** `erase(key)`: the number of entries removed. */
    method Erase(key: int) returns (n: nat)
      requires Valid()
      modifies this
      ensures Valid() && Items(tree) == Drop(old(Items(tree)), key)
      ensures Contents() == old(Contents()) - {key}
      ensures n == if key in old(Contents()) then 1 else 0
    {
      hide Shows, RedBlack, EndsAre, Sorted, Items, Plug, Around, AsMap;
      Enter(key);
      DropIsRemoval(Items(tree), key);
      InMap(Items(tree), key);
      if root == NULL {
        return 0;
      }
      var found;
      found, tree := Remove(root, key, Top, tree);
      n := if found then 1 else 0;
    }

    lemma Names(c: Ctx, t: Tree)
      requires At(c, t) && t.Node?
      ensures t.item.ref in heap && header in heap && t.item.ref != NULL
      ensures heap[t.item.ref] == Cell(t.color, ParentRef(c, header), RefOf(t.left), RefOf(t.right), t.item.key,
              t.item.value)
      ensures c.Step? ==> c.item.ref in heap && c.side != ROOT && heap[c.item.ref] == CtxCell(c, header, RefOf(t))
      ensures c.Step? && c.sibling.Node? ==>
                && c.sibling.item.ref in heap && c.sibling.item.ref != NULL
                    && heap[c.sibling.item.ref].color == c.sibling.color
      ensures c.Step? ==> RefOf(c.sibling) != t.item.ref
      ensures root == t.item.ref <==> c.Top?
      ensures (t.left.Node? ==> RefOf(t.left) != NULL && RefOf(t.left) in heap)
              && (t.right.Node? ==> RefOf(t.right) != NULL && RefOf(t.right) in heap)
    {
      NodeCell(heap, root, header, c, t);
      HoleCell(heap, root, header, c, t);
    }
  }
}
