/** A pass over a whole `BvttFront`: one thread per entry records the nodes by which its entry is
    replaced. Assignments, draws of a number and the writes that follow are steps, the steps of
    all threads interleave freely. */
module BvhFrontPass {
  import opened Boxes
  import opened BvhTrees
  import opened BvhPreOrder
  import opened BvhFront
  import opened BvhTraversal
  import opened Sums

  /** The primitives of the entries, the nodes each thread records, and the capacity of the front. */
  datatype Plan = Plan(prims: seq<int>, work: seq<seq<int>>, cap: nat)

  datatype Pc =
    | Next             // about to record the next node
    | Writing(no: nat) // has drawn a number for it

  /** The front and the threads; `slots` are the entries each thread has taken, its own first. */
  datatype State = State(prims: seq<int>, nodes: seq<int>, cnt: nat, pcs: seq<Pc>, slots: seq<seq<nat>>)

  ghost predicate Sized(m: Plan, s: State)
  {
    && |m.prims| == |m.work| == |s.pcs| == |s.slots| <= s.cnt
    && |s.prims| == |s.nodes| == m.cap && forall k :: 0 <= k < |m.work| ==> |m.work[k]| >= 1
  }

  /** What a slot must hold once its thread has written it. */
  predicate Holds(m: Plan, s: State, x: nat, prim: int, node: int)
    requires |s.prims| == |s.nodes| == m.cap
  {
    x < m.cap ==> s.prims[x] == prim && s.nodes[x] == node
  }

  ghost predicate SlotOk(m: Plan, s: State, k: nat, j: nat)
    requires Sized(m, s) && k < |m.work| && j < |s.slots[k]| <= |m.work[k]|
  {
    && (if j == 0 then s.slots[k][j] == k else |m.work| <= s.slots[k][j] < s.cnt)
    && (s.pcs[k] != Writing(s.slots[k][j]) ==> Holds(m, s, s.slots[k][j], m.prims[k], m.work[k][j]))
  }

  ghost predicate ThreadOk(m: Plan, s: State, k: nat)
    requires Sized(m, s) && k < |m.work|
  {
    && |s.slots[k]| <= |m.work[k]|
    && (forall j: nat :: j < |s.slots[k]| ==> SlotOk(m, s, k, j))
    && (k < m.cap ==> s.prims[k] == m.prims[k])
    && (s.pcs[k].Writing? ==> |s.slots[k]| >= 2 && s.slots[k][|s.slots[k]| - 1] == s.pcs[k].no)
  }

  /** Different recordings have different slots. */
  ghost predicate Apart(s: State, k: nat, j: nat, l: nat, i: nat)
    requires k < |s.slots| && l < |s.slots| && j < |s.slots[k]| && i < |s.slots[l]|
  {
    k != l || j != i ==> s.slots[k][j] != s.slots[l][i]
  }

  ghost predicate TakenBy(s: State, x: nat, k: nat, j: nat)
  {
    k < |s.slots| && j < |s.slots[k]| && s.slots[k][j] == x
  }

  ghost predicate Taken(s: State, x: nat)
  {
    exists k: nat, j: nat :: TakenBy(s, x, k, j)
  }

  function Extra(slots: seq<seq<nat>>): seq<nat>
  {
    seq(|slots|, k requires 0 <= k < |slots| => if slots[k] == [] then 0 else |slots[k]| - 1)
  }

  ghost predicate Inv(m: Plan, s: State)
  {
    && Sized(m, s) && s.cnt == |m.work| + Sum(Extra(s.slots))
    && (forall k: nat :: k < |m.work| ==> ThreadOk(m, s, k))
    && (forall k: nat, j: nat, l: nat, i: nat ::
          k < |s.slots| && l < |s.slots| && j < |s.slots[k]| && i < |s.slots[l]| ==> Apart(s, k, j, l, i))
    && (forall x: nat :: |m.work| <= x < s.cnt ==> Taken(s, x))
  }

  /** One step of thread `k`: the first node replaces its entry, each other one is appended; an entry
      past the capacity is dropped. */
  function Step(m: Plan, s: State, k: nat): State
    requires Sized(m, s) && k < |m.work|
  {
    var j := |s.slots[k]|;
    match s.pcs[k]
    case Next =>
      if j >= |m.work[k]| then s
      else if j == 0 then s.(nodes := if k < m.cap then s.nodes[k := m.work[k][0]]
          else s.nodes, slots := s.slots[k := [k]])
      else s.(cnt := s.cnt + 1, slots := s.slots[k := s.slots[k] + [s.cnt]], pcs := s.pcs[k := Writing(s.cnt)])
    case Writing(no) =>
      if 1 <= j <= |m.work[k]| && no < m.cap then
          s.(prims := s.prims[no := m.prims[k]], nodes := s.nodes[no := m.work[k][j - 1]], pcs := s.pcs[k := Next])
      else s.(pcs := s.pcs[k := Next])
  }

  lemma ThreadIs(m: Plan, s: State, k: nat)
    requires Inv(m, s) && k < |m.work|
    ensures Sized(m, s) && ThreadOk(m, s, k)
  {
  }

  lemma SlotIs(m: Plan, s: State, k: nat, j: nat)
    requires Inv(m, s) && k < |m.work| && k < |s.slots| && j < |s.slots[k]|
    ensures Sized(m, s) && |s.slots[k]| <= |m.work[k]| && SlotOk(m, s, k, j)
  {
    hide Apart, Taken, Sum;
    assert ThreadOk(m, s, k);
  }

  lemma ApartIs(m: Plan, s: State, k: nat, j: nat, l: nat, i: nat)
    requires Inv(m, s) && k < |s.slots| && l < |s.slots| && j < |s.slots[k]| && i < |s.slots[l]|
    ensures Apart(s, k, j, l, i)
  {
  }

  lemma StepSized(m: Plan, s: State, k: nat)
    requires Inv(m, s) && k < |m.work|
    ensures var s' := Step(m, s, k);
            && Sized(m, s) && Sized(m, s') && s'.cnt == |m.work| + Sum(Extra(s'.slots))
            && (forall l: nat :: l < |m.work| && l != k ==> s'.slots[l] == s.slots[l] && s'.pcs[l] == s.pcs[l])
            && |s.slots[k]| <= |s'.slots[k]| && s'.slots[k][..|s.slots[k]|] == s.slots[k]
            && (|s'.slots[k]| > |s.slots[k]| ==> s'.slots[k] == s.slots[k] + [if s.slots[k] == [] then k else s.cnt])
  {
    hide ThreadOk, Apart, Taken, Sum;
    var s' := Step(m, s, k);
    var e := if s'.slots[k] == [] then 0 else |s'.slots[k]| - 1;
    SumUpdate(Extra(s.slots), k, e);
    assert Extra(s'.slots) == Extra(s.slots)[k := e];
  }

  /** The slots of the other threads, and those taken before, stay as they are. */
  lemma StepSlot(m: Plan, s: State, k: nat, l: nat, j: nat)
    requires Inv(m, s) && k < |m.work| && l < |m.work| && l < |s.slots| && j < |s.slots[l]|
    ensures Sized(m, s) && Sized(m, Step(m, s, k)) && j < |Step(m, s, k).slots[l]| <= |m.work[l]|
            && SlotOk(m, Step(m, s, k), l, j)
  {
    hide Inv, Sum, Extra, ThreadOk;
    StepSized(m, s, k);
    SlotIs(m, s, l, j);
    ThreadIs(m, s, k);
    StepRoom(m, s, k, l);
    if s.pcs[k].Writing? {
      LastSlot(m, s, k);
      ApartIs(m, s, l, j, k, |s.slots[k]| - 1);
    }
  }

  lemma LastSlot(m: Plan, s: State, k: nat)
    requires Inv(m, s) && k < |m.work| && k < |s.pcs| && s.pcs[k].Writing?
    ensures |s.slots| == |m.work| && |s.slots[k]| >= 2 && s.slots[k][|s.slots[k]| - 1] == s.pcs[k].no >= |m.work|
            && |s.slots[k]| <= |m.work[k]|
  {
    hide Apart, Taken, Sum;
    assert ThreadOk(m, s, k);
    assert SlotOk(m, s, k, |s.slots[k]| - 1);
  }

  lemma StepRoom(m: Plan, s: State, k: nat, l: nat)
    requires Inv(m, s) && k < |m.work| && l < |m.work|
    ensures Sized(m, s) && Sized(m, Step(m, s, k)) && |Step(m, s, k).slots[l]| <= |m.work[l]|
  {
    hide Inv, Sum, Extra;
    StepSized(m, s, k);
    ThreadIs(m, s, k);
    ThreadIs(m, s, l);
  }

  /** The slot a step takes. */
  lemma StepNew(m: Plan, s: State, k: nat)
    requires Inv(m, s) && k < |m.work| && k < |s.slots| && Sized(m, s) && |Step(m, s, k).slots[k]| > |s.slots[k]|
    ensures Sized(m, Step(m, s, k)) && |Step(m, s, k).slots[k]| <= |m.work[k]|
            && SlotOk(m, Step(m, s, k), k, |s.slots[k]|)
  {
    hide Inv, Sum, Extra, ThreadOk;
    StepSized(m, s, k);
    StepRoom(m, s, k, k);
    EntryPrim(m, s, k);
  }

  lemma EntryPrim(m: Plan, s: State, k: nat)
    requires Inv(m, s) && k < |m.work|
    ensures Sized(m, s) && (k < m.cap ==> s.prims[k] == m.prims[k])
  {
    hide Apart, Taken, Sum;
    assert ThreadOk(m, s, k);
  }

  lemma StepThread(m: Plan, s: State, k: nat, l: nat)
    requires Inv(m, s) && k < |m.work| && l < |m.work|
    ensures Sized(m, Step(m, s, k)) && ThreadOk(m, Step(m, s, k), l)
  {
    hide Inv, Sum, Extra, SlotOk;
    StepSized(m, s, k);
    StepRoom(m, s, k, l);
    ThreadIs(m, s, l);
    var s' := Step(m, s, k);
    if s.pcs[k].Writing? {
      LastSlot(m, s, k);
    }
    forall j: nat | j < |s'.slots[l]|
      ensures SlotOk(m, s', l, j)
    {
      if j < |s.slots[l]| {
        StepSlot(m, s, k, l, j);
      } else {
        StepNew(m, s, k);
      }
    }
  }

  lemma StepApart(m: Plan, s: State, k: nat, a: nat, j: nat, b: nat, i: nat)
    requires Inv(m, s) && k < |m.work| && Sized(m, s)
    requires var s' := Step(m, s, k); a < |s'.slots| && b < |s'.slots| && j < |s'.slots[a]| && i < |s'.slots[b]|
    ensures Apart(Step(m, s, k), a, j, b, i)
  {
    hide Inv, Sum, Extra, ThreadOk;
    StepSized(m, s, k);
    var s' := Step(m, s, k);
    if j < |s.slots[a]| {
      SlotIs(m, s, a, j);
    }
    if i < |s.slots[b]| {
      SlotIs(m, s, b, i);
    }
    if j < |s.slots[a]| && i < |s.slots[b]| {
      ApartIs(m, s, a, j, b, i);
    }
  }

  lemma StepKeepsInv(m: Plan, s: State, k: nat)
    requires Inv(m, s) && k < |m.work|
    ensures Sized(m, s) && Inv(m, Step(m, s, k))
  {
    hide Sum, Extra, ThreadOk, Apart, TakenBy;
    StepSized(m, s, k);
    var s' := Step(m, s, k);
    forall l: nat | l < |m.work|
      ensures ThreadOk(m, s', l)
    {
      StepThread(m, s, k, l);
    }
    forall a: nat, j: nat, b: nat, i: nat | a < |s'.slots| && b < |s'.slots| && j < |s'.slots[a]| && i < |s'.slots[b]|
      ensures Apart(s', a, j, b, i)
    {
      StepApart(m, s, k, a, j, b, i);
    }
    forall x: nat | |m.work| <= x < s'.cnt
      ensures Taken(s', x)
    {
      StepTaken(m, s, k, x);
    }
  }

  lemma StepTaken(m: Plan, s: State, k: nat, x: nat)
    requires Inv(m, s) && k < |m.work| && Sized(m, s) && |m.work| <= x < Step(m, s, k).cnt
    ensures Taken(Step(m, s, k), x)
  {
    hide Sum, Extra, ThreadOk, Apart;
    StepSized(m, s, k);
    var s' := Step(m, s, k);
    if x < s.cnt {
      assert Taken(s, x);
      var l: nat, j: nat :| TakenBy(s, x, l, j);
      assert s'.slots[l][..|s.slots[l]|][j] == x;
      assert TakenBy(s', x, l, j);
    } else {
      assert TakenBy(s', x, k, |s.slots[k]|);
    }
  }

  /** The front before the pass: `n` entries, none recorded yet. */
  ghost predicate Begun(m: Plan, s: State)
  {
    && Sized(m, s) && s.cnt == |m.work|
    && (forall k :: 0 <= k < |m.work| ==>
        s.slots[k] == [] && s.pcs[k] == Next && (k < m.cap ==> s.prims[k] == m.prims[k]))
  }

  lemma BegunInv(m: Plan, s: State)
    requires Begun(m, s)
    ensures Inv(m, s)
  {
    SumZero(Extra(s.slots));
  }

  /** Any interleaving. */
  ghost function Run(m: Plan, s: State, schedule: seq<nat>): (r: State)
    requires Inv(m, s) && forall k :: 0 <= k < |schedule| ==> schedule[k] < |m.work|
    ensures Inv(m, r)
    decreases |schedule|
  {
    if schedule == [] then s
    else
      StepKeepsInv(m, s, schedule[0]);
      Run(m, Step(m, s, schedule[0]), schedule[1..])
  }

  ghost predicate Finished(m: Plan, s: State)
  {
    |s.pcs| == |s.slots| == |m.work| && forall k :: 0 <= k < |m.work| ==>
        s.pcs[k] == Next && |s.slots[k]| >= |m.work[k]|
  }

  /** Steps that a thread still takes. */
  function StepsLeft(m: Plan, s: State, k: nat): int
    requires Sized(m, s) && k < |m.work|
  {
    var left := |m.work[k]| - |s.slots[k]|;
    2 * left + (if s.pcs[k].Writing? then 1 else 0) - (if s.slots[k] == [] && left > 0 then 1 else 0)
  }

  /** Every step of a thread that is not through takes it on by one, and the others stay where they
      are; with nothing left a thread is through. */
  lemma StepProgress(m: Plan, s: State, k: nat, l: nat)
    requires Inv(m, s) && k < |m.work| && l < |m.work|
    ensures var s' := Step(m, s, k);
            && Sized(m, s) && Sized(m, s') && StepsLeft(m, s, l) >= 0
            && StepsLeft(m, s', l) ==
                if l == k && StepsLeft(m, s, k) > 0 then StepsLeft(m, s, l) - 1 else StepsLeft(m, s, l)
    ensures StepsLeft(m, s, l) == 0 <==> s.pcs[l] == Next && |s.slots[l]| >= |m.work[l]|
  {
    hide Apart, Taken, Sum, SlotOk;
    StepSized(m, s, k);
    ThreadIs(m, s, k);
    ThreadIs(m, s, l);
  }

  /** The nodes in some entries of a front. */
  function Gather(nodes: seq<int>, slots: seq<nat>): seq<int>
  {
    seq(|slots|, j requires 0 <= j < |slots| => if slots[j] < |nodes| then nodes[slots[j]] else -1)
  }

  /** Every entry of the new front has come from exactly one entry of the old one, with its
      primitive, and the nodes that have come from an entry hold exactly its leaves, each once. */
  ghost predicate Refined(m: Plan, t: Tree, olds: seq<int>, r: State)
    requires |olds| == |m.work|
  {
    && |r.slots| == |m.work| == |m.prims| && |r.prims| == |r.nodes|
    && (forall x: nat :: x < r.cnt ==> Taken(r, x))
    && (forall k: nat, j: nat, l: nat, i: nat ::
          k < |r.slots| && l < |r.slots| && j < |r.slots[k]| && i < |r.slots[l]| ==> Apart(r, k, j, l, i))
    && forall k: nat :: k < |m.work| ==> EntryRefined(m, t, olds[k], r, k)
  }

  ghost predicate EntryRefined(m: Plan, t: Tree, was: int, r: State, k: nat)
    requires k < |r.slots| == |m.prims| && |r.prims| == |r.nodes|
  {
    && 0 <= was < Size(t)
    && (forall j: nat :: j < |r.slots[k]| ==>
        r.slots[k][j] < r.cnt && r.slots[k][j] < |r.prims| && r.prims[r.slots[k][j]] == m.prims[k])
    && Tiles(t, Gather(r.nodes, r.slots[k]), Lo(PreOrder(t)[was]), Hi(PreOrder(t)[was]) + 1)
  }

  lemma EntryIs(m: Plan, t: Tree, was: int, r: State, k: nat)
    requires Inv(m, r) && Finished(m, r) && k < |m.work| && r.cnt <= m.cap && 0 <= was < Size(t)
    requires Tiles(t, m.work[k], Lo(PreOrder(t)[was]), Hi(PreOrder(t)[was]) + 1)
    ensures Sized(m, r) && EntryRefined(m, t, was, r, k)
  {
    hide Inv, Tiles, PreOrder, Lo, Hi, Size;
    ThreadIs(m, r, k);
    forall j: nat | j < |r.slots[k]|
      ensures r.slots[k][j] < r.cnt && r.prims[r.slots[k][j]] == m.prims[k] && r.nodes[r.slots[k][j]] == m.work[k][j]
    {
      assert SlotOk(m, r, k, j);
    }
    assert Gather(r.nodes, r.slots[k]) == m.work[k];
  }

  /** Whatever the interleaving: when all threads are through and the front was large enough, the
      whole front has been refined; the counter tells how many entries it needs in any case. */
  lemma PassRefines(m: Plan, t: Tree, olds: seq<int>, s: State, schedule: seq<nat>)
    requires Begun(m, s) && (forall k :: 0 <= k < |schedule| ==> schedule[k] < |m.work|) && |olds| == |m.work|
    requires forall k :: 0 <= k < |olds| ==>
               0 <= olds[k] < Size(t) && Tiles(t, m.work[k], Lo(PreOrder(t)[olds[k]]), Hi(PreOrder(t)[olds[k]]) + 1)
    ensures Inv(m, s)
    ensures var r := Run(m, s, schedule);
            Finished(m, r) ==> r.cnt == |m.work| + Sum(Extra(r.slots)) && (r.cnt <= m.cap ==> Refined(m, t, olds, r))
  {
    hide Tiles, PreOrder, Lo, Hi, Size, Sum, Extra, EntryRefined, Apart, ThreadOk, Begun, Run;
    BegunInv(m, s);
    var r := Run(m, s, schedule);
    if Finished(m, r) && r.cnt <= m.cap {
      forall k: nat | k < |m.work|
        ensures EntryRefined(m, t, olds[k], r, k)
      {
        EntryIs(m, t, olds[k], r, k);
      }
      forall x: nat | x < r.cnt
        ensures Taken(r, x)
      {
        if x < |m.work| {
          OwnTaken(m, r, x);
        }
      }
    }
  }

  lemma OwnTaken(m: Plan, r: State, x: nat)
    requires Inv(m, r) && Finished(m, r) && x < |m.work|
    ensures Taken(r, x)
  {
    hide Apart, Sum, Extra;
    ThreadIs(m, r, x);
    assert SlotOk(m, r, x, 0);
    assert TakenBy(r, x, x, 0);
  }

  // The pass over a front of `n` entries, with a query for each.

  /** What the threads record: each the nodes that its walk visits. */
  ghost function PlanOf(t: Tree, bvs: seq<Box>, queries: seq<Box>, prims: seq<int>, nodes: seq<int>, n: nat): Plan
    requires n <= |prims| == |nodes| && n <= |queries| && Size(t) == |bvs|
    requires forall k :: 0 <= k < n ==> 0 <= nodes[k] < Size(t)
  {
    Plan(prims[..n], seq(n, k requires 0 <= k < n => Replacement(t, bvs, queries[k], nodes[k])), |nodes|)
  }

  function Opened(prims: seq<int>, nodes: seq<int>, n: nat): State
  {
    State(prims, nodes, n, seq(n, _ => Next), seq(n, _ => []))
  }

  lemma PlanBegins(t: Tree, bvs: seq<Box>, queries: seq<Box>, prims: seq<int>, nodes: seq<int>, n: nat)
    requires n <= |prims| == |nodes| && n <= |queries| && Size(t) == |bvs| && Consecutive(t)
    requires forall k :: 0 <= k < n ==> 0 <= nodes[k] < Size(t)
    ensures Begun(PlanOf(t, bvs, queries, prims, nodes, n), Opened(prims, nodes, n))
    ensures var m := PlanOf(t, bvs, queries, prims, nodes, n);
            |m.work| == n && forall k :: 0 <= k < n ==>
              Tiles(t, m.work[k], Lo(PreOrder(t)[nodes[k]]), Hi(PreOrder(t)[nodes[k]]) + 1)
  {
    hide Replacement, Tiles, PreOrder, Lo, Hi, Consecutive, Size;
    forall k: nat | k < n
      ensures |Replacement(t, bvs, queries[k], nodes[k])| >= 1
      ensures Tiles(t, Replacement(t, bvs, queries[k], nodes[k]), Lo(PreOrder(t)[nodes[k]]),
              Hi(PreOrder(t)[nodes[k]]) + 1)
    {
      ReplacementTiles(t, bvs, queries[k], nodes[k]);
    }
  }

  /** A pass over a whole front: the threads record what their walks visit, in any interleaving. If
      the capacity is enough, every entry has been replaced by nodes that tile its leaves. */
  lemma FrontRefined(t: Tree, bvs: seq<Box>, queries: seq<Box>, prims: seq<int>, nodes: seq<int>, n: nat,
      schedule: seq<nat>)
    requires n <= |prims| == |nodes| && n <= |queries| && Size(t) == |bvs| && Consecutive(t)
    requires forall k :: 0 <= k < n ==> 0 <= nodes[k] < Size(t)
    requires forall k :: 0 <= k < |schedule| ==> schedule[k] < n
    ensures var m := PlanOf(t, bvs, queries, prims, nodes, n);
            |m.work| == n && Inv(m, Opened(prims, nodes, n))
    ensures var m := PlanOf(t, bvs, queries, prims, nodes, n);
            var r := Run(m, Opened(prims, nodes, n), schedule);
            Finished(m, r) ==> r.cnt == n + Sum(Extra(r.slots)) && (r.cnt <= |nodes| ==> Refined(m, t, nodes[..n], r))
  {
    hide *;
    PlanBegins(t, bvs, queries, prims, nodes, n);
    PlanCap(t, bvs, queries, prims, nodes, n);
    PassRefines(PlanOf(t, bvs, queries, prims, nodes, n), t, nodes[..n], Opened(prims, nodes, n), schedule);
  }

  lemma PlanCap(t: Tree, bvs: seq<Box>, queries: seq<Box>, prims: seq<int>, nodes: seq<int>, n: nat)
    requires n <= |prims| == |nodes| && n <= |queries| && Size(t) == |bvs|
    requires forall k :: 0 <= k < n ==> 0 <= nodes[k] < Size(t)
    ensures PlanOf(t, bvs, queries, prims, nodes, n).cap == |nodes|
  {
  }
}
