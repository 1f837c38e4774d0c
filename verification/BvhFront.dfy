/** `BvttFront`: a bounded list of (primitive, node) pairs, the traversal that refines one of its
    entries, and the counting sort that groups it by node. */
module BvhFront {
  import opened Boxes
  import opened BvhTrees
  import opened BvhPreOrder
  import opened BvhTraversal
  import opened BvhBuild

  /** The nodes of a front after recording: the first replaces entry `i`, the others are appended
      until the capacity is reached. */
  function Recorded(nodes: seq<int>, i: nat, cnt: nat, places: seq<int>): seq<int>
  {
    if places == [] then nodes
    else
      var before := Recorded(nodes, i, cnt, places[..|places| - 1]);
      var at := if |places| == 1 then i else cnt + |places| - 2;
      if at < |before| then before[at := places[|places| - 1]] else before
  }

  /** What `node(i)` gives for an entry past the capacity: all bits set, no index into any array. */
  const NO_NODE := -1

  class Front {
    var primIds: array<int>
    var nodeIds: array<int>
    var cnt: nat

    ghost predicate Valid()
      reads this
    {
      primIds.Length == nodeIds.Length && primIds != nodeIds
    }

    constructor (capacity: nat)
      ensures Valid() && cnt == 0 && primIds.Length == capacity && fresh(primIds) && fresh(nodeIds)
    {
      primIds := new int[capacity];
      nodeIds := new int[capacity];
      cnt := 0;
    }

    /** `push_back`: the counter always advances; an entry past the capacity is dropped. */
    method PushBack(prim: int, node: int)
      requires Valid()
      modifies this`cnt, primIds, nodeIds
      ensures cnt == old(cnt) + 1
      ensures primIds[..] == if old(cnt) < primIds.Length then old(primIds[..])[old(cnt) := prim] else old(primIds[..])
      ensures nodeIds[..] == if old(cnt) < nodeIds.Length then old(nodeIds[..])[old(cnt) := node] else old(nodeIds[..])
    {
      var no := cnt;
      cnt := cnt + 1;
      if no < primIds.Length {
        primIds[no] := prim;
        nodeIds[no] := node;
      }
    }

    /** `assign(no, nid)`: replaces the node of an entry. */
    method Assign(no: nat, node: int)
      requires Valid()
      modifies nodeIds
      ensures nodeIds[..] == if no < nodeIds.Length then old(nodeIds[..])[no := node] else old(nodeIds[..])
    {
      if no < nodeIds.Length {
        nodeIds[no] := node;
      }
    }

    /** `node(i)`. */
    function NodeAt(i: nat): int
      reads this, nodeIds
    {
      if i < nodeIds.Length then nodeIds[i] else NO_NODE
    }

    /** The state of a refinement of entry `i`: `places` recorded so far, on top of the front
        as it was with `n` entries. */
    ghost predicate Refining(i: nat, prims: seq<int>, nodes: seq<int>, n: nat, places: seq<int>)
      requires Valid()
      reads this, primIds, nodeIds
    {
      && i < n && i < |prims| == primIds.Length
      && cnt == n + (if places == [] then 0 else |places| - 1)
      && nodeIds[..] == Recorded(nodes, i, n, places)
      && (forall k :: 0 <= k < n && k < |prims| ==> primIds[k] == prims[k])
      && (forall k :: n <= k < cnt && k < |prims| ==> primIds[k] == prims[i])
    }

    lemma Begin(i: nat)
      requires Valid() && i < cnt && i < primIds.Length
      ensures Refining(i, primIds[..], nodeIds[..], cnt, [])
    {
    }

    /** The `record` step: the first node replaces the entry, the others are appended. */
    method Record(expanded: bool, i: nat, primid: int, node: int, ghost prims: seq<int>, ghost nodes: seq<int>,
        ghost n: nat, ghost places: seq<int>)
      requires Valid() && Refining(i, prims, nodes, n, places) && primid == prims[i]
      requires expanded <==> places != []
      modifies this`cnt, primIds, nodeIds
      ensures Refining(i, prims, nodes, n, places + [node])
    {
      assert (places + [node])[..|places|] == places;
      if !expanded {
        Assign(i, node);
      } else {
        PushBack(primid, node);
      }
    }

    /** `reorder`: counts the entries of each node, scans, and moves every entry to its group.
        In any order of the two parallel passes the entries are permuted, grouped by node, and
        the groups are in node order. All accesses are in bounds exactly if the counter has not passed
        the capacity and all entries name nodes; otherwise the first pass counts out of bounds. */
    method Reorder(numNodes: nat, counting: seq<nat>, moving: seq<nat>) returns (inBounds: bool, ghost slots: seq<nat>)
      requires Valid() && Schedule(counting, cnt) && Schedule(moving, cnt)
      modifies this`primIds, this`nodeIds
      ensures Valid() && nodeIds.Length == old(nodeIds.Length)
      ensures inBounds <==> cnt <= nodeIds.Length && forall i :: 0 <= i < cnt ==> 0 <= old(nodeIds[i]) < numNodes
      ensures !inBounds ==> primIds == old(primIds) && nodeIds == old(nodeIds)
      ensures inBounds ==>
                && Permutes(slots, cnt)
                && (forall i :: 0 <= i < cnt ==>
                      nodeIds[slots[i]] == old(nodeIds[i]) && primIds[slots[i]] == old(primIds[i]))
                && forall a, b :: 0 <= a < b < cnt ==> nodeIds[a] <= nodeIds[b]
    {
      hide Below, AtNode, All;
      slots := [];
      var counts;
      inBounds, counts := CountNodes(this, numNodes, counting);
      if !inBounds {
        return;
      }
      var offsets := ScanCounts(nodeIds[..], cnt, counts);
      var prims2, nodes2;
      prims2, nodes2, slots := MoveEntries(primIds, nodeIds, offsets, cnt, moving);
      Grouped(nodeIds[..], nodes2[..], cnt, slots);
      primIds, nodeIds := prims2, nodes2;
    }
  }

  /** A front that has been pushed more entries than it has room for: `reorder` leaves the arrays. */
  method Overfull() returns (front: Front, inBounds: bool)
    ensures front.Valid() && front.cnt == 2 && front.nodeIds.Length == 1 && front.nodeIds[0] == 0 && !inBounds
  {
    front := new Front(1);
    front.PushBack(0, 0);
    front.PushBack(1, 0);
    assert front.nodeIds[..][0] == 0;
    ghost var slots;
    inBounds, slots := front.Reorder(1, [0, 1], [0, 1]);
  }

  /** The first pass: how many entries sit at each node, as long as every entry has one. */
  method CountNodes(front: Front, numNodes: nat, order: seq<nat>) returns (inBounds: bool, counts: array<int>)
    requires front.Valid() && Schedule(order, front.cnt)
    ensures fresh(counts) && counts.Length == numNodes
    ensures inBounds <==>
              front.cnt <= front.nodeIds.Length && forall i :: 0 <= i < front.cnt ==> 0 <= front.nodeIds[i] < numNodes
    ensures inBounds ==> forall v :: 0 <= v < numNodes ==> counts[v] == |AtNode(front.nodeIds[..], All(front.cnt), v)|
  {
    hide AtNode, All;
    counts := new int[numNodes](_ => 0);
    ghost var nodes := front.nodeIds[..];
    NoneAtNode(nodes);
    for m := 0 to |order|
      invariant forall v :: 0 <= v < numNodes ==> counts[v] == |AtNode(nodes, Elements(order[..m]), v)|
      invariant forall j :: 0 <= j < m ==> 0 <= front.NodeAt(order[j]) < numNodes
    {
      var node := front.NodeAt(order[m]);
      if !(0 <= node < numNodes) {
        assert order[m] < front.cnt;
        assert order[m] < front.nodeIds.Length ==> front.nodeIds[order[m]] == node;
        return false, counts;
      }
      ElementsStep(order, m);
      CountStep(nodes, Elements(order[..m]), order[m], numNodes, counts[..]);
      counts[node] := counts[node] + 1;
    }
    inBounds := true;
    ScheduleElements(order, front.cnt);
    forall i | 0 <= i < front.cnt
      ensures 0 <= front.NodeAt(i) < numNodes
    {
      ScheduleHas(order, front.cnt, i);
      var j :| 0 <= j < |order| && order[j] == i;
    }
    assert front.cnt > 0 ==> 0 <= front.NodeAt(front.cnt - 1);
    assert forall i :: 0 <= i < front.cnt && i < front.nodeIds.Length ==> front.nodeIds[i] == front.NodeAt(i);
  }

  lemma ScheduleHas(order: seq<nat>, n: nat, i: nat)
    requires Schedule(order, n) && i < n
    ensures i in order
  {
  }

  /** The exclusive scan: where the stretch of each node begins. */
  method ScanCounts(nodes: seq<int>, n: nat, counts: array<int>) returns (offsets: array<int>)
    requires n <= |nodes| && forall i :: 0 <= i < n ==> 0 <= nodes[i]
    requires forall v :: 0 <= v < counts.Length ==> counts[v] == |AtNode(nodes, All(n), v)|
    ensures fresh(offsets) && offsets.Length == counts.Length
    ensures forall v :: 0 <= v < counts.Length ==> offsets[v] == |Below(nodes, n, v)|
  {
    hide Below, AtNode, All;
    offsets := new int[counts.Length];
    var total := 0;
    BelowZero(nodes, n);
    for v := 0 to counts.Length
      invariant total == |Below(nodes, n, v)|
      invariant forall u :: 0 <= u < v ==> offsets[u] == |Below(nodes, n, u)|
    {
      BelowStep(nodes, n, v);
      offsets[v] := total;
      total := total + counts[v];
    }
  }

  /** The second pass: every entry goes to the next free slot of its node's stretch. */
  method MoveEntries(primIds: array<int>, nodeIds: array<int>, offsets: array<int>, n: nat, order: seq<nat>)
    returns (prims2: array<int>, nodes2: array<int>, ghost slots: seq<nat>)
    requires primIds.Length == nodeIds.Length && n <= nodeIds.Length && Schedule(order, n)
    requires forall i :: 0 <= i < n ==> 0 <= nodeIds[i] < offsets.Length
    requires forall v :: 0 <= v < offsets.Length ==> offsets[v] == |Below(nodeIds[..], n, v)|
    ensures fresh(prims2) && fresh(nodes2) && prims2 != nodes2
    ensures prims2.Length == nodes2.Length == nodeIds.Length && |slots| == n
    ensures Placed(nodeIds[..], n, All(n), slots)
    ensures forall i :: 0 <= i < n ==> slots[i] < n && nodes2[slots[i]] == nodeIds[i] && prims2[slots[i]] == primIds[i]
  {
    hide Below, AtNode, All, Placed;
    var counts := new int[offsets.Length](_ => 0);
    prims2 := new int[primIds.Length](i requires 0 <= i < primIds.Length reads primIds => primIds[i]);
    nodes2 := new int[nodeIds.Length](i requires 0 <= i < nodeIds.Length reads nodeIds => nodeIds[i]);
    ghost var nodes := nodeIds[..];
    slots := seq(n, _ => 0);
    NoneAtNode(nodes);
    PlacedNone(nodes, n, slots);
    for m := 0 to |order|
      invariant |slots| == n && prims2 != nodes2 && counts != prims2 && counts != nodes2
      invariant forall v :: 0 <= v < offsets.Length ==> counts[v] == |AtNode(nodes, Elements(order[..m]), v)|
      invariant Placed(nodes, n, Elements(order[..m]), slots)
      invariant forall i :: 0 <= i < n && i in Elements(order[..m]) ==>
                  slots[i] < n && nodes2[slots[i]] == nodes[i] && prims2[slots[i]] == primIds[i]
    {
      var i := order[m];
      ElementsStep(order, m);
      ghost var done := Elements(order[..m]);
      CountStep(nodes, done, i, offsets.Length, counts[..]);
      PlacedStep(nodes, n, done, slots, i);
      PlacedApart(nodes, n, done, slots, i);
      var nodeid := nodeIds[i];
      var loc := offsets[nodeid] + counts[nodeid];
      counts[nodeid] := counts[nodeid] + 1;
      prims2[loc] := primIds[i];
      nodes2[loc] := nodeid;
      slots := slots[i := loc];
    }
    ScheduleElements(order, n);
  }

  lemma PlacedNone(nodes: seq<int>, n: nat, slots: seq<nat>)
    requires n == |slots| <= |nodes|
    ensures Placed(nodes, n, Elements([]), slots)
  {
  }

  /** The recorded places are tops of subtrees that follow one another without gap or overlap
      and together hold exactly the leaves `lo..hi`. */
  ghost predicate Tiles(t: Tree, places: seq<int>, lo: int, hi: int)
    decreases |places|
  {
    if places == [] then lo == hi
    else
      var p := places[|places| - 1];
      && 0 <= p < Size(t) && Hi(PreOrder(t)[p]) + 1 == hi && Lo(PreOrder(t)[p]) < hi
      && Tiles(t, places[..|places| - 1], lo, Lo(PreOrder(t)[p]))
  }

  /** First leaf at or after a place. */
  ghost function Frontier(t: Tree, p: int): int
  {
    if 0 <= p < Size(t) then Lo(PreOrder(t)[p]) else Hi(t) + 1
  }

  lemma TilesNone(t: Tree, lo: int)
    ensures Tiles(t, [], lo, lo)
  {
  }

  lemma TilesExtend(t: Tree, places: seq<int>, lo: int, p: nat)
    requires Consecutive(t) && p < Size(t) && Tiles(t, places, lo, Frontier(t, p))
    ensures Tiles(t, places + [p], lo, Hi(PreOrder(t)[p]) + 1)
    ensures Hi(PreOrder(t)[p]) + 1 == Frontier(t, p + Size(PreOrder(t)[p]))
  {
    hide PreOrder;
    NodeInside(t, p);
    Block(t, p);
    if p + Size(PreOrder(t)[p]) < Size(t) {
      NextBlock(t, p);
    } else {
      LastBlock(t, p);
    }
    assert (places + [p])[..|places|] == places;
  }

  /** Where the descent from a place ends: at the first box that misses the query, or at a leaf. */
  ghost function Stop(t: Tree, bvs: seq<Box>, q: Box, p: nat): (d: nat)
    requires p < Size(t) == |bvs|
    ensures p <= d < Size(t)
    decreases Size(t) - p
  {
    if PreOrder(t)[p].Trunk? && Overlaps(bvs[p], q) && p + 1 < Size(t) then Stop(t, bvs, q, p + 1) else p
  }

  /** The nodes that the walk from place `p` to place `e` records. */
  ghost function Places(t: Tree, bvs: seq<Box>, q: Box, p: nat, e: nat): seq<int>
    requires |bvs| == Size(t)
    decreases if p < e then e - p else 0
  {
    if p >= e || p >= Size(t) then []
    else
      var d := Stop(t, bvs, q, p);
      [d] + Places(t, bvs, q, d + Size(PreOrder(t)[d]), e)
  }

  lemma {:induction false} StopIs(t: Tree, bvs: seq<Box>, q: Box, p: nat, d: nat)
    requires p <= d < Size(t) == |bvs|
    requires forall x :: p <= x < d ==> PreOrder(t)[x].Trunk? && Overlaps(bvs[x], q)
    requires PreOrder(t)[d].Leaf? || !Overlaps(bvs[d], q)
    ensures Stop(t, bvs, q, p) == d
    decreases d - p
  {
    hide PreOrder, Overlaps;
    if p < d {
      StopIs(t, bvs, q, p + 1, d);
    }
  }

  /** The descent stays in its block, at the same first leaf. */
  lemma {:induction false} StopChain(t: Tree, bvs: seq<Box>, q: Box, p: nat)
    requires p < Size(t) == |bvs|
    ensures Lo(PreOrder(t)[Stop(t, bvs, q, p)]) == Lo(PreOrder(t)[p])
    ensures Stop(t, bvs, q, p) < p + Size(PreOrder(t)[p])
    decreases Size(t) - p
  {
    hide PreOrder, Overlaps;
    if PreOrder(t)[p].Trunk? && Overlaps(bvs[p], q) && p + 1 < Size(t) {
      BlockChildren(t, p);
      StopChain(t, bvs, q, p + 1);
    }
  }

  /** The nodes recorded for an entry tile its leaves. */
  lemma {:induction false} PlacesTile(t: Tree, bvs: seq<Box>, q: Box, start: nat, places: seq<int>, lo: int, p: nat)
    requires Consecutive(t) && start < Size(t) == |bvs| && start <= p <= start + Size(PreOrder(t)[start])
    requires Tiles(t, places, lo, Frontier(t, p))
    ensures start + Size(PreOrder(t)[start]) <= Size(t)
    ensures Tiles(t, places + Places(t, bvs, q, p, start + Size(PreOrder(t)[start])), lo, Hi(PreOrder(t)[start]) + 1)
    decreases start + Size(PreOrder(t)[start]) - p
  {
    hide PreOrder, Overlaps, Tiles, Consecutive, Stop, Lo, Hi, Size;
    var e := start + Size(PreOrder(t)[start]);
    Block(t, start);
    if p < e {
      var d := Stop(t, bvs, q, p);
      BlocksNest(t, start, p);
      StopChain(t, bvs, q, p);
      BlocksNest(t, start, d);
      TilesExtend(t, places, lo, d);
      PlacesTile(t, bvs, q, start, places + [d], lo, d + Size(PreOrder(t)[d]));
      assert places + [d] + Places(t, bvs, q, d + Size(PreOrder(t)[d]), e) == places + Places(t, bvs, q, p, e);
    } else {
      BlockEnd(t, start);
      assert places + Places(t, bvs, q, p, e) == places;
    }
  }

  lemma BlockEnd(t: Tree, start: nat)
    requires Consecutive(t) && start < Size(t)
    ensures Frontier(t, start + Size(PreOrder(t)[start])) == Hi(PreOrder(t)[start]) + 1
  {
    hide PreOrder;
    Block(t, start);
    if start + Size(PreOrder(t)[start]) < Size(t) {
      NextBlock(t, start);
    } else {
      LastBlock(t, start);
    }
  }

  /** What the pass over a front records for its entry `i`. */
  ghost function Replacement(t: Tree, bvs: seq<Box>, q: Box, node: nat): seq<int>
    requires node < Size(t) == |bvs|
  {
    Places(t, bvs, q, node, node + Size(PreOrder(t)[node]))
  }

  lemma ReplacementTiles(t: Tree, bvs: seq<Box>, q: Box, node: nat)
    requires Consecutive(t) && node < Size(t) == |bvs|
    ensures |Replacement(t, bvs, q, node)| >= 1
    ensures Tiles(t, Replacement(t, bvs, q, node), Lo(PreOrder(t)[node]), Hi(PreOrder(t)[node]) + 1)
  {
    hide PreOrder, Overlaps, Tiles, Consecutive, Stop, Lo, Hi;
    TilesNone(t, Frontier(t, node));
    PlacesTile(t, bvs, q, node, [], Frontier(t, node), node);
    assert [] + Replacement(t, bvs, q, node) == Replacement(t, bvs, q, node);
  }

  /** `iter_neighbors(bv, i, front, f)`: reports exactly the overlapping leaves below entry `i`
      and replaces that entry by nodes that hold exactly its leaves, each leaf once. Its accesses are
      in bounds exactly if the entry is within the capacity and names a node; the first one tells. */
  method IterFront(view: View, q: Box, i: nat, front: Front, ghost t: Tree, ghost prims: seq<int>,
      ghost primBvs: seq<Box>)
    returns (inBounds: bool, calls: seq<int>, ghost places: seq<int>)
    requires Serves(view, t, prims, primBvs) && front.Valid() && i < front.cnt
    modifies front`cnt, front.primIds, front.nodeIds
    ensures inBounds <==> i < front.nodeIds.Length && 0 <= old(front.nodeIds[i]) < Size(t)
    ensures !inBounds ==>
              && calls == [] && front.cnt == old(front.cnt)
              && front.primIds[..] == old(front.primIds[..]) && front.nodeIds[..] == old(front.nodeIds[..])
    ensures inBounds ==>
              var v := PreOrder(t)[old(front.nodeIds[i])];
              && Hi(v) < |prims|
              && calls == BruteForce(prims, primBvs, q, Lo(v), Hi(v) + 1)
              && places == Replacement(t, view.bvs, q, old(front.nodeIds[i]))
              && |places| >= 1 && Tiles(t, places, Lo(v), Hi(v) + 1)
              && front.Refining(i, old(front.primIds[..]), old(front.nodeIds[..]), old(front.cnt), places)
  {
    hide PreOrder, Overlaps, Inside, BruteForce, UpTo, Walkable, Matches, Front.Refining, Level, Consecutive, Tiles,
        Size, Lo, Hi, Replacement, Places, Stop;
    calls, places := [], [];
    Sizes(t, view.levels, view.aux, view.bvs);
    var numNodes := |view.levels|;
    var node := front.NodeAt(i);
    if !(0 <= node < numNodes) {
      return false, [], [];
    }
    inBounds := true;
    front.Begin(i);
    ghost var prims0, nodes0, n0 := front.primIds[..], front.nodeIds[..], front.cnt;
    ghost var start := front.nodeIds[i];
    var primid := front.primIds[i];
    var expanded := false;
    var ed := if view.levels[node] != 0 then view.aux[node] else node + 1;
    StepDown(t, view.levels, view.aux, view.bvs, node);
    EndIsBlock(t, view.levels, view.aux, view.bvs, node, ed);
    MatchesStep(t, view.aux, view.bvs, q, start, start);
    ReplacementTiles(t, view.bvs, q, start);
    PlacesWhole(t, view.bvs, q, start);
    while node != ed && node != numNodes
      invariant start <= Pos(node, numNodes) <= Pos(ed, numNodes)
      invariant node == -1 ==> ed == -1
      invariant calls == Matches(t, view.aux, view.bvs, q, start, Pos(node, numNodes))
      invariant expanded <==> |places| >= 1
      invariant Pos(node, numNodes) > start ==> expanded
      invariant places + Places(t, view.bvs, q, Pos(node, numNodes), Pos(ed, numNodes)) ==
                Replacement(t, view.bvs, q, start)
      invariant front.Refining(i, prims0, nodes0, n0, places)
      decreases numNodes - Pos(node, numNodes)
    {
      var level;
      ghost var p := node;
      node, level := Descend(view.levels, view.aux, view.bvs, q, node, start, ed, t);
      Escape(t, view.levels, view.aux, view.bvs, start, ed, node);
      StopIs(t, view.bvs, q, p, node);
      NextPlace(t, view.bvs, q, places, p, Pos(ed, numNodes));
      if level == 0 {
        MatchesStep(t, view.aux, view.bvs, q, start, node);
        if Overlaps(view.bvs[node], q) {
          calls := calls + [view.aux[node]];
        }
      } else {
        SkipBlock(t, view.levels, view.aux, view.bvs, q, start, node);
      }
      front.Record(expanded, i, primid, node, prims0, nodes0, n0, places);
      expanded, places := true, places + [node];
      node := if level == 0 then node + 1 else view.aux[node];
    }
    PlacesEnd(t, view.bvs, q, places, Pos(ed, numNodes));
    SubtreeIsBruteForce(view, t, prims, primBvs, q, start);
  }

  lemma PlacesWhole(t: Tree, bvs: seq<Box>, q: Box, node: nat)
    requires node < Size(t) == |bvs|
    ensures [] + Places(t, bvs, q, node, node + Size(PreOrder(t)[node])) == Replacement(t, bvs, q, node)
  {
    hide Places;
  }

  lemma PlacesEnd(t: Tree, bvs: seq<Box>, q: Box, places: seq<int>, e: nat)
    requires |bvs| == Size(t)
    ensures places + Places(t, bvs, q, e, e) == places
  {
  }

  lemma NextPlace(t: Tree, bvs: seq<Box>, q: Box, places: seq<int>, p: nat, e: nat)
    requires p < e <= Size(t) == |bvs|
    ensures var d := Stop(t, bvs, q, p);
            places + Places(t, bvs, q, p, e) == places + [d] + Places(t, bvs, q, d + Size(PreOrder(t)[d]), e)
  {
    hide Stop, PreOrder;
  }

  lemma EndIsBlock(t: Tree, levels: seq<int>, aux: seq<int>, bvs: seq<Box>, start: nat, ed: int)
    requires Walkable(t, levels, aux, bvs) && start < Size(t)
    requires ed == if levels[start] != 0 then aux[start] else start + 1
    ensures start < Pos(ed, |levels|) == start + Size(PreOrder(t)[start]) <= |levels|
    ensures Frontier(t, Pos(ed, |levels|)) == Hi(PreOrder(t)[start]) + 1
  {
    hide PreOrder;
    StepDown(t, levels, aux, bvs, start);
    Block(t, start);
    if start + Size(PreOrder(t)[start]) < Size(t) {
      NextBlock(t, start);
    } else {
      LastBlock(t, start);
    }
  }

  // The counting sort.

  /** Entries among `done` that sit at node `v`, and entries at nodes before `v`. */
  ghost function AtNode(nodes: seq<int>, done: set<nat>, v: int): set<nat>
  {
    set i | i in done && i < |nodes| && nodes[i] == v
  }

  ghost function Below(nodes: seq<int>, n: nat, v: int): set<nat>
  {
    set i: nat | i < n && i < |nodes| && nodes[i] < v
  }

  ghost function All(n: nat): (r: set<nat>)
    ensures forall i: nat :: i in r <==> i < n
  {
    if n == 0 then {} else All(n - 1) + {n - 1}
  }

  lemma {:induction false} AllSize(n: nat)
    ensures |All(n)| == n
  {
    if n > 0 {
      AllSize(n - 1);
    }
  }

  lemma SubsetSize<T>(a: set<T>, b: set<T>)
    requires a <= b
    ensures |a| <= |b|
  {
    assert b == a + (b - a);
  }

  lemma BelowStep(nodes: seq<int>, n: nat, v: int)
    requires n <= |nodes|
    ensures |Below(nodes, n, v + 1)| == |Below(nodes, n, v)| + |AtNode(nodes, All(n), v)|
  {
    assert Below(nodes, n, v + 1) == Below(nodes, n, v) + AtNode(nodes, All(n), v);
    assert Below(nodes, n, v) !! AtNode(nodes, All(n), v);
  }

  lemma BelowGrows(nodes: seq<int>, n: nat, u: int, v: int)
    requires n <= |nodes| && u <= v
    ensures |Below(nodes, n, u)| <= |Below(nodes, n, v)| <= n
  {
    SubsetSize(Below(nodes, n, u), Below(nodes, n, v));
    SubsetSize(Below(nodes, n, v), All(n));
    AllSize(n);
  }

  lemma AtNodeStep(nodes: seq<int>, done: set<nat>, i: nat, v: int)
    requires i !in done && i < |nodes|
    ensures |AtNode(nodes, done + {i}, v)| == |AtNode(nodes, done, v)| + if nodes[i] == v then 1 else 0
  {
    if nodes[i] == v {
      assert AtNode(nodes, done + {i}, v) == AtNode(nodes, done, v) + {i};
    } else {
      assert AtNode(nodes, done + {i}, v) == AtNode(nodes, done, v);
    }
  }

  /** The place an entry takes when it arrives after those in `done`. */
  ghost function Slot(nodes: seq<int>, n: nat, done: set<nat>, i: nat): nat
    requires i < |nodes|
  {
    |Below(nodes, n, nodes[i])| + |AtNode(nodes, done, nodes[i])|
  }

  lemma SlotInGroup(nodes: seq<int>, n: nat, done: set<nat>, i: nat)
    requires n <= |nodes| && i < n && i !in done && done <= All(n)
    ensures |Below(nodes, n, nodes[i])| <= Slot(nodes, n, done, i) < |Below(nodes, n, nodes[i] + 1)| <= n
  {
    BelowStep(nodes, n, nodes[i]);
    AtNodeStep(nodes, done, i, nodes[i]);
    SubsetSize(AtNode(nodes, done + {i}, nodes[i]), AtNode(nodes, All(n), nodes[i]));
    BelowGrows(nodes, n, nodes[i], nodes[i] + 1);
  }

  /** `slots` is a permutation of `0..n`. */
  ghost predicate Permutes(slots: seq<nat>, n: nat)
  {
    && |slots| == n
    && (forall i :: 0 <= i < n ==> slots[i] < n)
    && (forall i, j :: 0 <= i < j < n ==> slots[i] != slots[j])
  }

  ghost function Elements(s: seq<nat>): set<nat>
  {
    set x | x in s
  }

  lemma ElementsStep(s: seq<nat>, m: nat)
    requires m < |s| && forall p, q :: 0 <= p < q < |s| ==> s[p] != s[q]
    ensures Elements(s[..m + 1]) == Elements(s[..m]) + {s[m]} && s[m] !in Elements(s[..m])
  {
    assert s[..m + 1] == s[..m] + [s[m]];
  }

  lemma ScheduleElements(s: seq<nat>, n: nat)
    requires Schedule(s, n)
    ensures Elements(s[..|s|]) == All(n)
  {
    assert s[..|s|] == s;
  }

  lemma NoneAtNode(nodes: seq<int>)
    ensures forall v :: AtNode(nodes, Elements([]), v) == {}
  {
  }

  lemma BelowZero(nodes: seq<int>, n: nat)
    requires n <= |nodes| && forall i :: 0 <= i < n ==> nodes[i] >= 0
    ensures Below(nodes, n, 0) == {}
  {
  }

  lemma CountStep(nodes: seq<int>, done: set<nat>, i: nat, numNodes: nat, counts: seq<int>)
    requires i !in done && i < |nodes| && 0 <= nodes[i] < numNodes == |counts|
    requires forall v :: 0 <= v < numNodes ==> counts[v] == |AtNode(nodes, done, v)|
    ensures forall v :: 0 <= v < numNodes ==>
              counts[nodes[i] := counts[nodes[i]] + 1][v] == |AtNode(nodes, done + {i}, v)|
  {
    forall v | 0 <= v < numNodes
      ensures counts[nodes[i] := counts[nodes[i]] + 1][v] == |AtNode(nodes, done + {i}, v)|
    {
      AtNodeStep(nodes, done, i, v);
    }
  }

  /** The slots given out so far lie in the stretches of their nodes, each used once. */
  ghost predicate Placed(nodes: seq<int>, n: nat, done: set<nat>, slots: seq<nat>)
    requires n == |slots| <= |nodes|
  {
    && (forall i: nat :: i in done && i < n ==>
          |Below(nodes, n, nodes[i])| <= slots[i] < |Below(nodes, n, nodes[i])| + |AtNode(nodes, done, nodes[i])|
          && slots[i] < |Below(nodes, n, nodes[i] + 1)| <= n)
    && (forall i: nat, j: nat :: i in done && j in done && i < j < n ==> slots[i] != slots[j])
  }

  lemma PlacedApart(nodes: seq<int>, n: nat, done: set<nat>, slots: seq<nat>, i: nat)
    requires n == |slots| <= |nodes| && Placed(nodes, n, done, slots)
    requires i < n && i !in done && done <= All(n)
    ensures forall j: nat :: j in done && j < n ==> slots[j] != Slot(nodes, n, done, i)
  {
    hide Below, AtNode, All;
    SlotInGroup(nodes, n, done, i);
    forall j: nat | j in done && j < n
      ensures slots[j] != Slot(nodes, n, done, i)
    {
      if nodes[j] < nodes[i] {
        BelowGrows(nodes, n, nodes[j] + 1, nodes[i]);
      } else if nodes[i] < nodes[j] {
        BelowGrows(nodes, n, nodes[i] + 1, nodes[j]);
      }
    }
  }

  lemma PlacedStep(nodes: seq<int>, n: nat, done: set<nat>, slots: seq<nat>, i: nat)
    requires n == |slots| <= |nodes| && Placed(nodes, n, done, slots)
    requires i < n && i !in done && done <= All(n)
    ensures Slot(nodes, n, done, i) < n
    ensures Placed(nodes, n, done + {i}, slots[i := Slot(nodes, n, done, i)])
  {
    hide Below, AtNode, All;
    var s := Slot(nodes, n, done, i);
    var after := slots[i := s];
    SlotInGroup(nodes, n, done, i);
    PlacedApart(nodes, n, done, slots, i);
    forall j: nat | j in done && j < n
      ensures |AtNode(nodes, done, nodes[j])| <= |AtNode(nodes, done + {i}, nodes[j])|
    {
      AtNodeStep(nodes, done, i, nodes[j]);
    }
    AtNodeStep(nodes, done, i, nodes[i]);
  }

  lemma PlacedPermutes(nodes: seq<int>, n: nat, slots: seq<nat>)
    requires n == |slots| <= |nodes| && Placed(nodes, n, All(n), slots)
    ensures Permutes(slots, n)
  {
    hide Below, AtNode;
  }

  lemma AllPlaced(nodes: seq<int>, n: nat, slots: seq<nat>)
    requires n == |slots| <= |nodes| && Placed(nodes, n, All(n), slots)
    ensures Permutes(slots, n)
    ensures forall a: nat :: a < n ==> a in slots
    ensures forall i: nat, j: nat :: i < n && j < n && slots[i] < slots[j] ==> nodes[i] <= nodes[j]
  {
    hide Below, AtNode, Elements;
    PlacedPermutes(nodes, n, slots);
    Covers(slots, n);
    forall i: nat, j: nat | i < n && j < n && nodes[j] < nodes[i]
      ensures slots[j] <= slots[i]
    {
      BelowGrows(nodes, n, nodes[j] + 1, nodes[i]);
    }
  }

  lemma Grouped(nodes: seq<int>, after: seq<int>, n: nat, slots: seq<nat>)
    requires n == |slots| <= |nodes| == |after| && Placed(nodes, n, All(n), slots)
    requires forall i :: 0 <= i < n ==> slots[i] < n && after[slots[i]] == nodes[i]
    ensures Permutes(slots, n)
    ensures forall a, b :: 0 <= a < b < n ==> after[a] <= after[b]
  {
    AllPlaced(nodes, n, slots);
    forall a, b | 0 <= a < b < n
      ensures after[a] <= after[b]
    {
      assert a in slots && b in slots;
      var i :| 0 <= i < n && slots[i] == a;
      var j :| 0 <= j < n && slots[j] == b;
      assert after[slots[i]] == nodes[i] && after[slots[j]] == nodes[j];
    }
  }

  lemma {:induction false} DistinctSize(s: seq<nat>)
    requires forall i, j :: 0 <= i < j < |s| ==> s[i] != s[j]
    ensures |Elements(s)| == |s|
  {
    if s != [] {
      var r := s[..|s| - 1];
      DistinctSize(r);
      assert s == r + [s[|s| - 1]];
      assert Elements(s) == Elements(r) + {s[|s| - 1]};
    }
  }

  /** `n` distinct numbers below `n` are all of them. */
  lemma Covers(s: seq<nat>, n: nat)
    requires Permutes(s, n)
    ensures forall a: nat :: a < n ==> a in s
  {
    DistinctSize(s);
    AllSize(n);
    forall a: nat | a < n
      ensures a in s
    {
      if a !in s {
        SubsetSize(Elements(s) + {a}, All(n));
      }
    }
  }
}
