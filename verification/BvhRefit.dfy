/** `_refit_bottom_up` as a transition system: one thread per leaf, every shared access a step,
    any interleaving. */
module BvhRefit {
  import opened Boxes
  import opened Sums

  /** The arrays refit only reads. */
  datatype Config = Config(levels: seq<int>, aux: seq<int>, parents: seq<int>, leafInds: seq<int>, primBvs: seq<Box>)

  function Left(node: int): int
  {
    node + 1
  }

  function Right(c: Config, node: int): int
  {
    var lc := node + 1;
    if 0 <= lc < |c.levels| && lc < |c.aux| && c.levels[lc] != 0 then c.aux[lc] else lc + 1
  }

  predicate IsNode(c: Config, x: int)
  {
    0 <= x < |c.levels|
  }

  predicate IsTrunk(c: Config, x: int)
  {
    0 <= x < |c.levels| && c.levels[x] != 0
  }

  /** The read-only arrays form one tree: children and parents agree, leaves and threads agree. */
  ghost predicate Linked(c: Config)
  {
    && |c.levels| == |c.aux| == |c.parents| > 0
    && (forall u :: IsTrunk(c, u) ==>
          && u < Left(u) < Right(c, u) < |c.levels|
          && c.parents[Left(u)] == u && c.parents[Right(c, u)] == u)
    && c.parents[0] == -1
    && (forall x :: IsNode(c, x) && x > 0 ==>
          IsTrunk(c, c.parents[x]) && (x == Left(c.parents[x]) || x == Right(c, c.parents[x])))
    && (forall k :: 0 <= k < |c.leafInds| ==>
          IsNode(c, c.leafInds[k]) && !IsTrunk(c, c.leafInds[k]) && 0 <= c.aux[c.leafInds[k]] < |c.primBvs|)
    && (forall k, l :: 0 <= k < l < |c.leafInds| ==> c.leafInds[k] != c.leafInds[l])
    && (forall x :: IsNode(c, x) && !IsTrunk(c, x) ==> x in c.leafInds)
  }

  ghost predicate Proper(c: Config, dim: nat)
  {
    forall k :: 0 <= k < |c.primBvs| ==> Ordered(c.primBvs[k]) && Shaped(c.primBvs[k], dim)
  }

  /** The union of the primitive boxes below a node. */
  ghost function Final(c: Config, dim: nat, x: int): (r: Box)
    requires Linked(c) && Proper(c, dim) && IsNode(c, x)
    ensures Ordered(r) && Shaped(r, dim)
    decreases |c.levels| - x
  {
    if IsTrunk(c, x) then
      var (a, b) := (Final(c, dim, Left(x)), Final(c, dim, Right(c, x)));
      MergeIsUnion(a, b);
      Merge(a, b)
    else
      assert x in c.leafInds;
      c.primBvs[c.aux[x]]
  }

  datatype Pc =
    | Start
    | Arrive(from: int)
    | LoadLeft(at: int)
    | LoadRight(at: int, box: Box)
    | Store(at: int, box: Box)
    | Done

  /** Shared arrays and threads; `writes`, `arrived` and `who` only record what happened. */
  datatype State = State(bvs: seq<Box>, flags: seq<int>, pcs: seq<Pc>,
                         writes: seq<nat>, arrived: seq<bool>, who: seq<nat>)

  ghost predicate Sized(c: Config, s: State)
  {
    && |s.bvs| == |s.flags| == |s.writes| == |s.arrived| == |s.who| == |c.levels|
    && |s.pcs| == |c.leafInds|
  }

  ghost predicate Merging(pc: Pc, u: int)
  {
    (pc.LoadLeft? || pc.LoadRight? || pc.Store?) && pc.at == u
  }

  /** What a thread's program counter says about the nodes it works on. */
  ghost predicate ThreadOk(c: Config, dim: nat, s: State, i: nat)
    requires Linked(c) && Proper(c, dim) && Sized(c, s) && i < |s.pcs|
  {
    match s.pcs[i]
    case Start => s.writes[c.leafInds[i]] == 0
    case Arrive(x) => IsNode(c, x) && s.writes[x] == 1 && !s.arrived[x] && s.who[x] == i
    case LoadLeft(u) => IsTrunk(c, u) && MergeReady(c, s, u, i)
    case LoadRight(u, b) => IsTrunk(c, u) && MergeReady(c, s, u, i) && b == Final(c, dim, Left(u))
    case Store(u, b) => IsTrunk(c, u) && MergeReady(c, s, u, i) && b == Final(c, dim, u)
    case Done => true
  }

  ghost predicate MergeReady(c: Config, s: State, u: int, i: nat)
    requires Linked(c) && Sized(c, s) && IsTrunk(c, u)
  {
    s.arrived[Left(u)] && s.arrived[Right(c, u)] && s.writes[u] == 0 && s.who[u] == i
  }

  /** A node is written at most once, with its final box, and only after both children; the
      thread that holds it is known. */
  ghost predicate NodeOk(c: Config, dim: nat, s: State, x: nat)
    requires Linked(c) && Proper(c, dim) && Sized(c, s) && IsNode(c, x)
  {
    && s.writes[x] <= 1
    && (s.writes[x] == 1 ==> s.bvs[x] == Final(c, dim, x))
    && (s.arrived[x] ==> s.writes[x] == 1)
    && (s.writes[x] == 1 && !s.arrived[x] ==> s.who[x] < |s.pcs| && s.pcs[s.who[x]] == Arrive(x))
    && (IsTrunk(c, x) ==>
          && s.flags[x] == (if s.arrived[Left(x)] || s.arrived[Right(c, x)] then 1 else 0)
          && (s.writes[x] == 1 ==> s.arrived[Left(x)] && s.arrived[Right(c, x)])
          && (s.arrived[Left(x)] && s.arrived[Right(c, x)] && s.writes[x] == 0 ==>
                s.who[x] < |s.pcs| && Merging(s.pcs[s.who[x]], x)))
  }

  ghost predicate LeafOk(c: Config, s: State, k: nat)
    requires Linked(c) && Sized(c, s) && k < |c.leafInds|
  {
    s.writes[c.leafInds[k]] == 0 ==> s.pcs[k] == Start
  }

  ghost predicate Inv(c: Config, dim: nat, s: State)
  {
    && Linked(c) && Proper(c, dim) && Sized(c, s)
    && (forall i: nat :: i < |s.pcs| ==> ThreadOk(c, dim, s, i))
    && (forall k: nat :: k < |s.pcs| ==> LeafOk(c, s, k))
    && (forall x: nat :: x < |c.levels| ==> NodeOk(c, dim, s, x))
  }

  /** The compare-and-swap at the parent: the first arrival ends, the second goes on. */
  ghost function AfterArrival(c: Config, s: State, i: nat, x: int): State
    requires Linked(c) && Sized(c, s) && i < |s.pcs| && IsNode(c, x)
  {
    var node := c.parents[x];
    var s1 := s.(arrived := s.arrived[x := true]);
    if node == -1 then s1.(pcs := s.pcs[i := Done])
    else
      assert IsTrunk(c, node);
      if s.flags[node] == 0 then s1.(flags := s.flags[node := 1], pcs := s.pcs[i := Done])
      else s1.(who := s.who[node := i], pcs := s.pcs[i := LoadLeft(node)])
  }

  /** One step of thread `i`. */
  ghost function Step(c: Config, dim: nat, s: State, i: nat): State
    requires Inv(c, dim, s) && i < |s.pcs|
  {
    assert ThreadOk(c, dim, s, i);
    match s.pcs[i]
    case Start =>
      // writes the leaf's box
      var node := c.leafInds[i];
      s.(bvs := s.bvs[node := c.primBvs[c.aux[node]]], writes := s.writes[node := s.writes[node] + 1],
         who := s.who[node := i], pcs := s.pcs[i := Arrive(node)])
    case Arrive(x) => AfterArrival(c, s, i, x)
    case LoadLeft(u) =>
      s.(pcs := s.pcs[i := LoadRight(u, s.bvs[Left(u)])])
    case LoadRight(u, b) =>
      assert NodeOk(c, dim, s, Right(c, u));
      s.(pcs := s.pcs[i := Store(u, Merge(b, s.bvs[Right(c, u)]))])
    case Store(u, b) =>
      s.(bvs := s.bvs[u := b], writes := s.writes[u := s.writes[u] + 1], pcs := s.pcs[i := Arrive(u)])
    case Done => s
  }

  lemma FinalNode(c: Config, dim: nat, x: int)
    requires Linked(c) && Proper(c, dim) && IsNode(c, x)
    ensures if IsTrunk(c, x) then Final(c, dim, x) == Merge(Final(c, dim, Left(x)), Final(c, dim, Right(c, x)))
            else 0 <= c.aux[x] < |c.primBvs| && Final(c, dim, x) == c.primBvs[c.aux[x]]
  {
    if !IsTrunk(c, x) {
      assert x in c.leafInds;
    }
  }

  lemma StartStep(c: Config, dim: nat, s: State, i: nat)
    requires Inv(c, dim, s) && i < |s.pcs| && s.pcs[i] == Start
    ensures Inv(c, dim, Step(c, dim, s, i))
  {
    hide Final, Proper, Merge;
    var s' := Step(c, dim, s, i);
    assert ThreadOk(c, dim, s, i);
    var node := c.leafInds[i];
    FinalNode(c, dim, node);
    assert NodeOk(c, dim, s, node);
    forall j: nat | j < |s.pcs|
      ensures ThreadOk(c, dim, s', j)
    {
      assert ThreadOk(c, dim, s, j);
    }
    forall k: nat | k < |s.pcs|
      ensures LeafOk(c, s', k)
    {
      assert LeafOk(c, s, k);
    }
    forall x: nat | x < |c.levels|
      ensures NodeOk(c, dim, s', x)
    {
      assert NodeOk(c, dim, s, x);
    }
  }

  /** What is known around one thread and one node. */
  lemma ThreadIs(c: Config, dim: nat, s: State, i: nat)
    requires Inv(c, dim, s) && i < |s.pcs|
    ensures Linked(c) && Proper(c, dim) && Sized(c, s) && ThreadOk(c, dim, s, i) && LeafOk(c, s, i)
  {
  }

  lemma NodeIs(c: Config, dim: nat, s: State, x: nat)
    requires Inv(c, dim, s) && x < |c.levels|
    ensures Linked(c) && Proper(c, dim) && Sized(c, s) && NodeOk(c, dim, s, x)
  {
  }

  lemma ParentIs(c: Config, x: int)
    requires Linked(c) && IsNode(c, x)
    ensures |c.parents| == |c.levels| && -1 <= c.parents[x] < |c.levels|
    ensures c.parents[x] != -1 ==> IsTrunk(c, c.parents[x]) && (x == Left(c.parents[x]) || x == Right(c, c.parents[x]))
    ensures IsTrunk(c, x) ==>
              && IsNode(c, Left(x)) && IsNode(c, Right(c, x)) && Left(x) != Right(c, x)
              && c.parents[Left(x)] == x && c.parents[Right(c, x)] == x
  {
    hide Right;
  }

  /** A thread other than the one that arrives: it holds other nodes. */
  lemma ArriveOther(c: Config, dim: nat, s: State, i: nat, j: nat, x: int)
    requires Linked(c) && Proper(c, dim) && Sized(c, s) && i < |s.pcs| && j < |s.pcs| && j != i && IsNode(c, x)
    requires ThreadOk(c, dim, s, i) && ThreadOk(c, dim, s, j) && s.pcs[i] == Arrive(x)
    requires c.parents[x] >= 0 ==> IsTrunk(c, c.parents[x]) && NodeOk(c, dim, s, c.parents[x])
    ensures Sized(c, AfterArrival(c, s, i, x)) && ThreadOk(c, dim, AfterArrival(c, s, i, x), j)
  {
    hide Linked, Final, Proper, Right;
    ParentIs(c, x);
    if c.parents[x] >= 0 {
      ParentIs(c, c.parents[x]);
    }
    if s.pcs[j].LoadLeft? || s.pcs[j].LoadRight? || s.pcs[j].Store? {
      ParentIs(c, s.pcs[j].at);
    }
  }

  /** The second arrival at a parent holds it. */
  lemma ArriveOwn(c: Config, dim: nat, s: State, i: nat, x: int)
    requires Linked(c) && Proper(c, dim) && Sized(c, s) && i < |s.pcs| && IsNode(c, x)
    requires ThreadOk(c, dim, s, i) && s.pcs[i] == Arrive(x)
    requires c.parents[x] >= 0 ==> IsTrunk(c, c.parents[x]) && NodeOk(c, dim, s, c.parents[x])
    ensures Sized(c, AfterArrival(c, s, i, x)) && ThreadOk(c, dim, AfterArrival(c, s, i, x), i)
  {
    hide Linked, Final, Proper, Right;
    ParentIs(c, x);
    if c.parents[x] >= 0 {
      ParentIs(c, c.parents[x]);
    }
  }

  lemma ArriveLeaf(c: Config, s: State, i: nat, j: nat, x: int)
    requires Linked(c) && Sized(c, s) && i < |s.pcs| && j < |s.pcs| && IsNode(c, x) && s.pcs[i] == Arrive(x)
             && LeafOk(c, s, j)
    ensures Sized(c, AfterArrival(c, s, i, x)) && LeafOk(c, AfterArrival(c, s, i, x), j)
  {
    hide Linked, Right;
    LeafIsNode(c, j);
    ParentIs(c, x);
  }

  lemma ArriveThread(c: Config, dim: nat, s: State, i: nat, j: nat)
    requires Inv(c, dim, s) && i < |s.pcs| && s.pcs[i].Arrive? && j < |s.pcs|
    ensures Sized(c, Step(c, dim, s, i)) && ThreadOk(c, dim, Step(c, dim, s, i), j)
    ensures LeafOk(c, Step(c, dim, s, i), j)
  {
    hide Inv, Linked, Final, Proper, Right, NodeOk, AfterArrival, LeafOk;
    ThreadIs(c, dim, s, i);
    ThreadIs(c, dim, s, j);
    var x := s.pcs[i].from;
    ParentIs(c, x);
    if c.parents[x] != -1 {
      NodeIs(c, dim, s, c.parents[x]);
    }
    ArriveLeaf(c, s, i, j, x);
    if j == i {
      ArriveOwn(c, dim, s, i, x);
    } else {
      ArriveOther(c, dim, s, i, j, x);
    }
  }

  lemma LeafIsNode(c: Config, j: nat)
    requires Linked(c) && j < |c.leafInds|
    ensures IsNode(c, c.leafInds[j]) && !IsTrunk(c, c.leafInds[j])
  {
  }

  /** A node whose fields, children and thread are as before. */
  lemma NodeSame(c: Config, dim: nat, s: State, s': State, y: nat)
    requires Linked(c) && Proper(c, dim) && Sized(c, s) && Sized(c, s') && IsNode(c, y) && NodeOk(c, dim, s, y)
    requires s'.bvs[y] == s.bvs[y] && s'.writes[y] == s.writes[y] && s'.arrived[y] == s.arrived[y]
             && s'.flags[y] == s.flags[y] && s'.who[y] == s.who[y]
    requires IsTrunk(c, y) ==>
             s'.arrived[Left(y)] == s.arrived[Left(y)] && s'.arrived[Right(c, y)] == s.arrived[Right(c, y)]
    requires s.who[y] < |s.pcs| && (s.pcs[s.who[y]] == Arrive(y) || Merging(s.pcs[s.who[y]], y)) ==>
             s'.pcs[s.who[y]] == s.pcs[s.who[y]]
    ensures NodeOk(c, dim, s', y)
  {
    hide Linked, Final, Proper, Right;
    ParentIs(c, y);
  }

  /** A node that is neither the one that arrives nor its parent: its children do not arrive. */
  lemma ArriveAside(c: Config, dim: nat, s: State, i: nat, x: int, y: nat)
    requires Linked(c) && Proper(c, dim) && Sized(c, s) && i < |s.pcs| && IsNode(c, x) && IsNode(c, y)
    requires s.pcs[i] == Arrive(x) && NodeOk(c, dim, s, y) && c.parents[x] != y && x != y
    ensures Sized(c, AfterArrival(c, s, i, x)) && NodeOk(c, dim, AfterArrival(c, s, i, x), y)
  {
    hide Linked, Final, Proper, Right, NodeOk;
    ParentIs(c, x);
    ParentIs(c, y);
    NodeSame(c, dim, s, AfterArrival(c, s, i, x), y);
  }

  lemma ArriveSelf(c: Config, dim: nat, s: State, i: nat, x: int)
    requires Linked(c) && Proper(c, dim) && Sized(c, s) && i < |s.pcs| && IsNode(c, x) && c.parents[x] != x
    requires ThreadOk(c, dim, s, i) && s.pcs[i] == Arrive(x) && NodeOk(c, dim, s, x)
    ensures Sized(c, AfterArrival(c, s, i, x)) && NodeOk(c, dim, AfterArrival(c, s, i, x), x)
  {
    hide Linked, Final, Proper, Right;
    ParentIs(c, x);
  }

  /** The parent of the node that arrives. */
  lemma ArriveAt(c: Config, dim: nat, s: State, i: nat, x: int)
    requires Linked(c) && Proper(c, dim) && Sized(c, s) && i < |s.pcs| && IsNode(c, x) && c.parents[x] >= 0
    requires ThreadOk(c, dim, s, i) && s.pcs[i] == Arrive(x) && IsNode(c, c.parents[x])
             && NodeOk(c, dim, s, c.parents[x])
    ensures Sized(c, AfterArrival(c, s, i, x)) && NodeOk(c, dim, AfterArrival(c, s, i, x), c.parents[x])
  {
    hide Linked, Final, Proper, Right;
    ParentIs(c, x);
    ParentIs(c, c.parents[x]);
  }

  lemma ArriveNode(c: Config, dim: nat, s: State, i: nat, x: nat)
    requires Inv(c, dim, s) && i < |s.pcs| && s.pcs[i].Arrive? && x < |c.levels|
    ensures Sized(c, Step(c, dim, s, i)) && NodeOk(c, dim, Step(c, dim, s, i), x)
  {
    hide Inv, Linked, Final, Proper, Right, NodeOk, AfterArrival;
    ThreadIs(c, dim, s, i);
    NodeIs(c, dim, s, x);
    ParentIs(c, s.pcs[i].from);
    if c.parents[s.pcs[i].from] == x {
      ArriveAt(c, dim, s, i, s.pcs[i].from);
    } else if s.pcs[i].from == x {
      ArriveSelf(c, dim, s, i, x);
    } else {
      ArriveAside(c, dim, s, i, s.pcs[i].from, x);
    }
  }

  lemma ArriveStep(c: Config, dim: nat, s: State, i: nat)
    requires Inv(c, dim, s) && i < |s.pcs| && s.pcs[i].Arrive?
    ensures Inv(c, dim, Step(c, dim, s, i))
  {
    hide Final, Proper, Step, ThreadOk, NodeOk, LeafOk;
    forall j: nat | j < |s.pcs|
      ensures Sized(c, Step(c, dim, s, i)) && ThreadOk(c, dim, Step(c, dim, s, i), j)
              && LeafOk(c, Step(c, dim, s, i), j)
    {
      ArriveThread(c, dim, s, i, j);
    }
    forall x: nat | x < |c.levels|
      ensures Sized(c, Step(c, dim, s, i)) && NodeOk(c, dim, Step(c, dim, s, i), x)
    {
      ArriveNode(c, dim, s, i, x);
    }
    ArriveThread(c, dim, s, i, i);
  }

  lemma LoadStep(c: Config, dim: nat, s: State, i: nat)
    requires Inv(c, dim, s) && i < |s.pcs| && (s.pcs[i].LoadLeft? || s.pcs[i].LoadRight?)
    ensures Inv(c, dim, Step(c, dim, s, i))
  {
    hide Final, Proper, Merge;
    var s' := Step(c, dim, s, i);
    assert ThreadOk(c, dim, s, i);
    var u := s.pcs[i].at;
    FinalNode(c, dim, u);
    assert NodeOk(c, dim, s, Left(u)) && NodeOk(c, dim, s, Right(c, u));
    forall j: nat | j < |s.pcs|
      ensures ThreadOk(c, dim, s', j)
    {
      assert ThreadOk(c, dim, s, j);
    }
    forall k: nat | k < |s.pcs|
      ensures LeafOk(c, s', k)
    {
      assert LeafOk(c, s, k);
    }
    forall x: nat | x < |c.levels|
      ensures NodeOk(c, dim, s', x)
    {
      assert NodeOk(c, dim, s, x);
    }
  }

  lemma StoreStep(c: Config, dim: nat, s: State, i: nat)
    requires Inv(c, dim, s) && i < |s.pcs| && s.pcs[i].Store?
    ensures Inv(c, dim, Step(c, dim, s, i))
  {
    hide Final, Proper, Merge;
    var s' := Step(c, dim, s, i);
    assert ThreadOk(c, dim, s, i);
    var u := s.pcs[i].at;
    assert NodeOk(c, dim, s, u);
    forall j: nat | j < |s.pcs|
      ensures ThreadOk(c, dim, s', j)
    {
      assert ThreadOk(c, dim, s, j);
    }
    forall k: nat | k < |s.pcs|
      ensures LeafOk(c, s', k)
    {
      assert LeafOk(c, s, k);
    }
    forall x: nat | x < |c.levels|
      ensures NodeOk(c, dim, s', x)
    {
      assert NodeOk(c, dim, s, x);
    }
  }

  lemma StepKeepsInv(c: Config, dim: nat, s: State, i: nat)
    requires Inv(c, dim, s) && i < |s.pcs|
    ensures Inv(c, dim, Step(c, dim, s, i))
  {
    hide Inv, Step;
    match s.pcs[i]
    case Start => StartStep(c, dim, s, i);
    case Arrive(_) => ArriveStep(c, dim, s, i);
    case LoadLeft(_) => LoadStep(c, dim, s, i);
    case LoadRight(_, _) => LoadStep(c, dim, s, i);
    case Store(_, _) => StoreStep(c, dim, s, i);
    case Done => StayStep(c, dim, s, i);
  }

  lemma StayStep(c: Config, dim: nat, s: State, i: nat)
    requires Inv(c, dim, s) && i < |s.pcs| && s.pcs[i] == Done
    ensures Step(c, dim, s, i) == s
  {
  }

  /** The state before the parallel loop: flags reset, boxes arbitrary. */
  ghost function Init(c: Config, bvs: seq<Box>): State
    requires |bvs| == |c.levels|
  {
    var n := |c.levels|;
    State(bvs, seq(n, _ => 0), seq(|c.leafInds|, _ => Start), seq(n, _ => 0), seq(n, _ => false), seq(n, _ => 0))
  }

  lemma InitInv(c: Config, dim: nat, bvs: seq<Box>)
    requires Linked(c) && Proper(c, dim) && |bvs| == |c.levels|
    ensures Inv(c, dim, Init(c, bvs))
  {
    hide Final, Proper;
  }

  /** Any interleaving: the threads named by `schedule`, one step each. */
  ghost function Run(c: Config, dim: nat, s: State, schedule: seq<nat>): (r: State)
    requires Inv(c, dim, s) && forall k :: 0 <= k < |schedule| ==> schedule[k] < |s.pcs|
    ensures Inv(c, dim, r) && |r.pcs| == |s.pcs|
    decreases |schedule|
  {
    if schedule == [] then s
    else
      StepKeepsInv(c, dim, s, schedule[0]);
      Run(c, dim, Step(c, dim, s, schedule[0]), schedule[1..])
  }

  ghost predicate Finished(s: State)
  {
    forall i :: 0 <= i < |s.pcs| ==> s.pcs[i] == Done
  }

  lemma {:induction false} AllArrived(c: Config, dim: nat, s: State, x: nat)
    requires Inv(c, dim, s) && Finished(s) && x < |c.levels|
    ensures s.arrived[x] && s.writes[x] == 1
    decreases |c.levels| - x
  {
    hide Final, Proper;
    assert NodeOk(c, dim, s, x);
    if IsTrunk(c, x) {
      AllArrived(c, dim, s, Left(x));
      AllArrived(c, dim, s, Right(c, x));
    } else {
      assert x in c.leafInds;
      var k :| 0 <= k < |c.leafInds| && c.leafInds[k] == x;
      assert LeafOk(c, s, k);
    }
  }

  /** Whatever the interleaving, once all threads are through, every node has been written
      exactly once and holds the union of the primitive boxes below it. */
  lemma RefitFinal(c: Config, dim: nat, bvs: seq<Box>, schedule: seq<nat>)
    requires Linked(c) && Proper(c, dim) && |bvs| == |c.levels|
    requires forall k :: 0 <= k < |schedule| ==> schedule[k] < |c.leafInds|
    ensures Inv(c, dim, Init(c, bvs))
    ensures var r := Run(c, dim, Init(c, bvs), schedule);
            Finished(r) ==>
              && |r.writes| == |r.bvs| == |c.levels|
              && forall x: nat :: x < |c.levels| ==> r.writes[x] == 1 && r.bvs[x] == Final(c, dim, x)
  {
    InitInv(c, dim, bvs);
    var r := Run(c, dim, Init(c, bvs), schedule);
    if Finished(r) {
      forall x: nat | x < |c.levels|
        ensures r.writes[x] == 1 && r.bvs[x] == Final(c, dim, x)
      {
        AllArrived(c, dim, r, x);
        assert NodeOk(c, dim, r, x);
      }
    }
  }

  // Every step of a thread that is not through makes progress, so every fair run ends.

  function NodeWork(writes: nat, arrived: bool): nat
  {
    if writes == 0 then 4 else if !arrived then 3 else 0
  }

  function ThreadWork(pc: Pc): nat
  {
    match pc
    case LoadLeft(_) => 2
    case LoadRight(_, _) => 1
    case _ => 0
  }

  ghost function NodeWorks(s: State): seq<nat>
    requires |s.writes| == |s.arrived|
  {
    seq(|s.writes|, x requires 0 <= x < |s.writes| => NodeWork(s.writes[x], s.arrived[x]))
  }

  ghost function ThreadWorks(s: State): seq<nat>
  {
    seq(|s.pcs|, i requires 0 <= i < |s.pcs| => ThreadWork(s.pcs[i]))
  }

  ghost function Work(s: State): nat
    requires |s.writes| == |s.arrived|
  {
    Sum(NodeWorks(s)) + Sum(ThreadWorks(s))
  }

  lemma StepProgress(c: Config, dim: nat, s: State, i: nat)
    requires Inv(c, dim, s) && i < |s.pcs| && s.pcs[i] != Done
    ensures Sized(c, Step(c, dim, s, i)) && Work(Step(c, dim, s, i)) < Work(s)
  {
    hide Final, Proper, Merge, Sum;
    var s' := Step(c, dim, s, i);
    assert ThreadOk(c, dim, s, i);
    var x := match s.pcs[i]
      case Start => c.leafInds[i]
      case Arrive(y) => y
      case LoadLeft(u) => u
      case LoadRight(u, _) => u
      case Store(u, _) => u;
    SumUpdate(NodeWorks(s), x, NodeWork(s'.writes[x], s'.arrived[x]));
    SumUpdate(ThreadWorks(s), i, ThreadWork(s'.pcs[i]));
    assert NodeWorks(s') == NodeWorks(s)[x := NodeWork(s'.writes[x], s'.arrived[x])];
    assert ThreadWorks(s') == ThreadWorks(s)[i := ThreadWork(s'.pcs[i])];
    assert NodeOk(c, dim, s, x);
  }

  /** The union of the primitive boxes below a node: it contains every leaf's box below, and
      every box that does so contains it. */
  ghost predicate Below(c: Config, x: int, y: int)
    requires Linked(c)
    decreases |c.levels| - x
  {
    IsNode(c, x) && IsNode(c, y) && (x == y || (IsTrunk(c, x) && (Below(c, Left(x), y) || Below(c, Right(c, x), y))))
  }

  lemma {:induction false} FinalContains(c: Config, dim: nat, x: int, y: int)
    requires Linked(c) && Proper(c, dim) && Below(c, x, y)
    ensures IsNode(c, y) && Inside(Final(c, dim, y), Final(c, dim, x))
    decreases |c.levels| - x
  {
    if x != y {
      var (a, b) := (Final(c, dim, Left(x)), Final(c, dim, Right(c, x)));
      MergeIsUnion(a, b);
      if Below(c, Left(x), y) {
        FinalContains(c, dim, Left(x), y);
      } else {
        FinalContains(c, dim, Right(c, x), y);
      }
    }
  }

  lemma {:induction false} FinalIsLeast(c: Config, dim: nat, x: int, box: Box)
    requires Linked(c) && Proper(c, dim) && IsNode(c, x)
    requires forall y :: Below(c, x, y) && !IsTrunk(c, y) ==> Inside(Final(c, dim, y), box)
    ensures Inside(Final(c, dim, x), box)
    decreases |c.levels| - x
  {
    if IsTrunk(c, x) {
      var (a, b) := (Final(c, dim, Left(x)), Final(c, dim, Right(c, x)));
      MergeIsUnion(a, b);
      FinalIsLeast(c, dim, Left(x), box);
      FinalIsLeast(c, dim, Right(c, x), box);
    } else {
      assert Below(c, x, x);
    }
  }
}
