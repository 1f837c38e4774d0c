/** `_build_build_topo_and_refit` as a transition system: one thread per leaf climbs and merges,
    the second thread to arrive at a trunk node goes on. Any interleaving. */
module BvhBottomUp {
  import opened Boxes
  import opened BvhChains
  import opened BvhShape
  import opened BvhSplits
  import opened BvhTrees
  import opened MortonCodes
  import opened Sums

  datatype Pc =
    | Enter
    | Arrive(from: int, cur: int)
    | Refit(cur: int)
    | Climb(cur: int)
    | Publish(cur: int)
    | Done

  /** The shared arrays and the threads. `complete`, `published`, `arrived`, `who`,
      `height` and `merges` only record what happened. */
  datatype State = State(
    tPars: seq<int>, tLcs: seq<int>, tRcs: seq<int>, tLs: seq<int>, tRs: seq<int>, tBvs: seq<Box>,
    lLcas: seq<int>, lDepths: seq<int>, lPars: seq<int>, flags: seq<int>, pcs: seq<Pc>,
    complete: seq<bool>, published: seq<bool>, arrived: seq<bool>, who: seq<nat>, height: seq<nat>, merges: seq<nat>)

  /** The merge loop: componentwise minimum and maximum. */
  function Join(a: Box, b: Box, dim: nat): (r: Box)
    requires Shaped(a, dim) && Shaped(b, dim)
    ensures Shaped(r, dim)
  {
    Box(seq(dim, d requires 0 <= d < dim => Min(a.lo[d], b.lo[d])),
        seq(dim, d requires 0 <= d < dim => Max(a.hi[d], b.hi[d])))
  }

  /** Fixed data: the splits, the boxes of the leaves, and the tables and boxes of the tree that
      is to come out. */
  datatype Plan = Plan(s: seq<int>, leafBvs: seq<Box>, dim: nat, h: Shape, fin: seq<Box>)

  ghost predicate Planned(p: Plan)
  {
    && Linked(p.h, p.s) && p.h.n >= 3
    && |p.leafBvs| == p.h.n && |p.fin| == 2 * p.h.n - 1
    && (forall x :: 0 <= x < |p.fin| ==> Shaped(p.fin[x], p.dim))
    && (forall k :: 0 <= k < p.h.n ==> p.fin[k + (p.h.n - 1)] == p.leafBvs[k])
    && (forall u :: 0 <= u < p.h.n - 1 ==> FinJoined(p, u))
    && (forall k :: 0 <= k < p.h.n - 1 ==> p.s[k] < p.s[p.h.n - 1])
  }

  ghost predicate FinJoined(p: Plan, u: int)
    requires 0 <= u < p.h.n - 1 && Linked(p.h, p.s) && |p.fin| == 2 * p.h.n - 1
    requires forall x :: 0 <= x < |p.fin| ==> Shaped(p.fin[x], p.dim)
  {
    assert TrunkLinked(p.h, u);
    p.fin[u] == Join(p.fin[p.h.lch[u]], p.fin[p.h.rch[u]], p.dim)
  }

  ghost predicate Sized(p: Plan, s: State)
  {
    var n := p.h.n;
    && n >= 3
    && |s.tPars| == |s.tLcs| == |s.tRcs| == |s.tLs| == |s.tRs| == |s.tBvs| == |s.flags| == |s.merges| == n - 1
    && |s.lLcas| == |s.lPars| == |s.pcs| == |s.height| == n && |s.lDepths| == n + 1
    && |s.complete| == |s.published| == |s.arrived| == |s.who| == 2 * n - 1
  }

  ghost predicate IsRef(p: Plan, x: int)
  {
    0 <= x < 2 * p.h.n - 1
  }

  ghost predicate IsTrunk(p: Plan, x: int)
  {
    0 <= x < p.h.n - 1
  }

  ghost predicate BothIn(p: Plan, s: State, u: int)
    requires Planned(p) && Sized(p, s) && IsTrunk(p, u)
  {
    assert TrunkLinked(p.h, u);
    s.arrived[p.h.lch[u]] && s.arrived[p.h.rch[u]]
  }

  ghost predicate MergeReady(p: Plan, s: State, u: int, i: nat)
    requires Planned(p) && Sized(p, s) && IsTrunk(p, u)
  {
    BothIn(p, s, u) && !s.complete[u] && s.who[u] == i
  }

  ghost predicate ThreadOk(p: Plan, s: State, i: nat)
    requires Planned(p) && Sized(p, s) && i < p.h.n
  {
    match s.pcs[i]
    case Enter => !s.published[i + (p.h.n - 1)]
    case Arrive(x, u) =>
      IsRef(p, x) && s.published[x] && !s.arrived[x] && s.who[x] == i && p.h.par[x] == u && IsTrunk(p, u)
    case Refit(u) => IsTrunk(p, u) && MergeReady(p, s, u, i) && s.merges[u] == 0
    case Climb(u) => IsTrunk(p, u) && MergeReady(p, s, u, i) && s.merges[u] == 1 && s.tBvs[u] == p.fin[u]
    case Publish(u) => IsTrunk(p, u) && s.complete[u] && !s.published[u] && s.who[u] == i
    case Done => true
  }

  /** Trunk nodes and leaves alike: completed, then published to the parent, then arrived there. */
  ghost predicate NodeOk(p: Plan, s: State, x: nat)
    requires Planned(p) && Sized(p, s) && IsRef(p, x)
  {
    HandOk(p, s, x) && if IsTrunk(p, x) then TrunkOk(p, s, x) else EndOk(p, s, x)
  }

  ghost predicate HandOk(p: Plan, s: State, x: nat)
    requires Planned(p) && Sized(p, s) && IsRef(p, x)
  {
    && (s.arrived[x] ==> s.published[x] && p.h.par[x] != -1) && (s.published[x] ==> s.complete[x])
    && (s.published[x] && !s.arrived[x] && p.h.par[x] != -1 ==>
          s.who[x] < p.h.n && s.pcs[s.who[x]] == Arrive(x, p.h.par[x]))
  }

  ghost predicate EndOk(p: Plan, s: State, x: nat)
    requires Planned(p) && Sized(p, s) && IsRef(p, x) && !IsTrunk(p, x)
  {
    var k := x - (p.h.n - 1);
    && s.complete[x] && (!s.published[x] ==> s.pcs[k] == Enter && s.height[k] == 0)
    && (s.published[x] ==> s.lPars[k] == p.h.par[x])
  }

  ghost predicate TrunkOk(p: Plan, s: State, u: nat)
    requires Planned(p) && Sized(p, s) && IsTrunk(p, u)
  {
    assert TrunkLinked(p.h, u);
    var (l, r) := (p.h.lch[u], p.h.rch[u]);
    && s.flags[u] == (if s.arrived[l] then 1 else 0) + (if s.arrived[r] then 1 else 0)
    && (s.published[l] ==> s.tLcs[u] == l && s.tLs[u] == p.h.lo[u])
    && (s.published[r] ==> s.tRcs[u] == r && s.tRs[u] == p.h.hi[u])
    && (s.complete[u] ==> BothIn(p, s, u) && s.merges[u] == 1 && s.tBvs[u] == p.fin[u])
    && (!BothIn(p, s, u) ==> s.merges[u] == 0)
    && (BothIn(p, s, u) && !s.complete[u] ==>
          s.who[u] < p.h.n && (s.pcs[s.who[u]] == Refit(u) || s.pcs[s.who[u]] == Climb(u)))
    && (s.complete[u] && !s.published[u] ==> s.who[u] < p.h.n && s.pcs[s.who[u]] == Publish(u))
    && (s.published[u] ==> s.tPars[u] == p.h.par[u])
    // the completed part of a left chain is its lower part
    && 0 <= p.h.lo[u] < p.h.n
    && (s.complete[u] <==> p.h.level[u] <= s.height[p.h.lo[u]])
  }

  ghost predicate LeafOk(p: Plan, s: State, k: nat)
    requires Planned(p) && Sized(p, s) && k < p.h.n
  {
    s.published[k + (p.h.n - 1)] ==>
      && s.lDepths[k] == 1 + s.height[k]
      && IsRef(p, s.lLcas[k]) && p.h.lo[s.lLcas[k]] == k && p.h.level[s.lLcas[k]] == s.height[k]
  }

  ghost predicate Inv(p: Plan, s: State)
  {
    && Planned(p) && Sized(p, s) && s.lDepths[p.h.n] == 0
    && (forall i: nat :: i < p.h.n ==> ThreadOk(p, s, i))
    && (forall k: nat :: k < p.h.n ==> LeafOk(p, s, k))
    && (forall x: nat :: x < 2 * p.h.n - 1 ==> NodeOk(p, s, x))
  }

  /** Writes a finished range into the fields of its parent `par`, on the side `mark` tells. */
  function Tell(s: State, mark: bool, par: int, ref: int, lo: int, hi: int): State
    requires 0 <= par < |s.tLcs| == |s.tRcs| == |s.tLs| == |s.tRs|
  {
    if mark then s.(tRcs := s.tRcs[par := ref], tRs := s.tRs[par := hi])
    else s.(tLcs := s.tLcs[par := ref], tLs := s.tLs[par := lo])
  }

  /** Where a finished range looks for its parent. */
  function ParentAt(s: seq<int>, lo: int, hi: int): int
  {
    if IsRightChild(s, lo, hi) then lo - 1 else hi
  }

  lemma ParentFound(p: Plan, x: int)
    requires Planned(p) && IsRef(p, x) && p.h.par[x] != -1
    ensures IsTrunk(p, p.h.par[x]) && p.h.par[x] == ParentAt(p.s, p.h.lo[x], p.h.hi[x])
    ensures var mark := IsRightChild(p.s, p.h.lo[x], p.h.hi[x]);
            if mark then p.h.rch[p.h.par[x]] == x && p.h.lch[p.h.par[x]] != x
            else p.h.lch[p.h.par[x]] == x && p.h.rch[p.h.par[x]] != x
  {
    hide IsRightChild, FinJoined;
    assert NodeLinked(p.h, p.s, x);
  }

  lemma LeafFacts(p: Plan, k: nat)
    requires Planned(p) && k < p.h.n
    ensures var x := k + (p.h.n - 1);
            IsRef(p, x) && p.h.lo[x] == k && p.h.hi[x] == k && p.h.level[x] == 0 && p.h.par[x] != -1
  {
    hide IsRightChild, FinJoined;
    assert NodeLinked(p.h, p.s, k + (p.h.n - 1));
  }

  /** What a thread finds in the fields of a node whose two children have arrived. */
  lemma Ready(p: Plan, s: State, u: int)
    requires Inv(p, s) && IsTrunk(p, u) && BothIn(p, s, u)
    ensures var (l, r) := (p.h.lch[u], p.h.rch[u]);
            && s.tLcs[u] == l && s.tRcs[u] == r && IsRef(p, l) && IsRef(p, r)
            && s.tLs[u] == p.h.lo[u] && s.tRs[u] == p.h.hi[u] && 0 <= p.h.lo[u] < p.h.n
            && s.published[l] && s.published[r]
            && Shaped(BoxAt(p, s, l), p.dim) && BoxAt(p, s, l) == p.fin[l]
            && Shaped(BoxAt(p, s, r), p.dim) && BoxAt(p, s, r) == p.fin[r]
            && p.fin[u] == Join(p.fin[l], p.fin[r], p.dim)
  {
    hide IsRightChild, NodeLinked, Join;
    assert TrunkLinked(p.h, u);
    assert NodeOk(p, s, u) && NodeOk(p, s, p.h.lch[u]) && NodeOk(p, s, p.h.rch[u]) && FinJoined(p, u);
  }

  function BoxAt(p: Plan, s: State, x: int): Box
    requires p.h.n >= 1 && |p.leafBvs| == p.h.n && |s.tBvs| == p.h.n - 1 && IsRef(p, x)
  {
    if x >= p.h.n - 1 then p.leafBvs[x - (p.h.n - 1)] else s.tBvs[x]
  }

  /** A thread starts at its leaf and hands it to the parent. */
  ghost function EnterStep(p: Plan, s: State, i: nat): State
    requires Sized(p, s) && i < p.h.n && |p.s| == p.h.n && IsTrunk(p, ParentAt(p.s, i, i))
  {
    var x := i + (p.h.n - 1);
    var cur := ParentAt(p.s, i, i);
    var s1 := s.(lLcas := s.lLcas[i := x], lDepths := s.lDepths[i := 1], lPars := s.lPars[i := cur]);
    Tell(s1, IsRightChild(p.s, i, i), cur, x, i, i)
    .(published := s.published[x := true], who := s.who[x := i], pcs := s.pcs[i := Arrive(x, cur)])
  }

  /** The atomic increment: only the second arrival goes on. */
  ghost function ArriveStep(p: Plan, s: State, i: nat, x: int, cur: int): State
    requires Sized(p, s) && i < p.h.n && IsRef(p, x) && IsTrunk(p, cur)
  {
    var before := s.flags[cur];
    s.(flags := s.flags[cur := before + 1], arrived := s.arrived[x := true],
       who := if before == 1 then s.who[cur := i] else s.who,
       pcs := s.pcs[i := if before == 1 then Refit(cur) else Done])
  }

  ghost function RefitStep(p: Plan, s: State, i: nat, cur: int): State
    requires Sized(p, s) && i < p.h.n && |p.leafBvs| == p.h.n
    requires IsTrunk(p, cur) && IsRef(p, s.tLcs[cur]) && IsRef(p, s.tRcs[cur])
    requires Shaped(BoxAt(p, s, s.tLcs[cur]), p.dim) && Shaped(BoxAt(p, s, s.tRcs[cur]), p.dim)
  {
    var box := Join(BoxAt(p, s, s.tLcs[cur]), BoxAt(p, s, s.tRcs[cur]), p.dim);
    s.(tBvs := s.tBvs[cur := box], merges := s.merges[cur := s.merges[cur] + 1], pcs := s.pcs[i := Climb(cur)])
  }

  /** The leaf that starts the range now ends one more chain link. */
  ghost function ClimbStep(p: Plan, s: State, i: nat, cur: int): State
    requires Sized(p, s) && i < p.h.n && IsTrunk(p, cur) && 0 <= s.tLs[cur] < p.h.n
  {
    var k := s.tLs[cur];
    s.(lLcas := s.lLcas[k := cur], lDepths := s.lDepths[k := s.lDepths[k] + 1],
       complete := s.complete[cur := true], height := s.height[k := s.height[k] + 1],
       pcs := s.pcs[i := Publish(cur)])
  }

  /** The whole range ends the thread; any other is handed to the parent. */
  ghost function PublishStep(p: Plan, s: State, i: nat, cur: int): State
    requires Sized(p, s) && i < p.h.n && |p.s| == p.h.n && IsTrunk(p, cur)
    requires !(s.tLs[cur] == 0 && s.tRs[cur] == p.h.n - 1) ==> IsTrunk(p, ParentAt(p.s, s.tLs[cur], s.tRs[cur]))
  {
    var (lo, hi) := (s.tLs[cur], s.tRs[cur]);
    var s1 := s.(published := s.published[cur := true]);
    if lo == 0 && hi == p.h.n - 1 then
      s1.(tPars := s.tPars[cur := -1], pcs := s.pcs[i := Done])
    else
      var par := ParentAt(p.s, lo, hi);
      Tell(s1, IsRightChild(p.s, lo, hi), par, cur, lo, hi)
      .(tPars := s.tPars[cur := par], pcs := s.pcs[i := Arrive(cur, par)])
  }

  lemma Enabled(p: Plan, s: State, i: nat)
    requires Inv(p, s) && i < p.h.n
    ensures match s.pcs[i]
            case Enter => IsTrunk(p, ParentAt(p.s, i, i))
            case Arrive(x, u) => IsRef(p, x) && IsTrunk(p, u)
            case Refit(u) =>
              && IsTrunk(p, u) && IsRef(p, s.tLcs[u]) && IsRef(p, s.tRcs[u])
              && Shaped(BoxAt(p, s, s.tLcs[u]), p.dim) && Shaped(BoxAt(p, s, s.tRcs[u]), p.dim)
            case Climb(u) => IsTrunk(p, u) && 0 <= s.tLs[u] < p.h.n
            case Publish(u) =>
              && IsTrunk(p, u)
              && (!(s.tLs[u] == 0 && s.tRs[u] == p.h.n - 1) ==> IsTrunk(p, ParentAt(p.s, s.tLs[u], s.tRs[u])))
            case Done => true
  {
    hide IsRightChild, Join, NodeLinked;
    assert ThreadOk(p, s, i);
    match s.pcs[i]
    case Enter =>
      LeafFacts(p, i);
      ParentFound(p, i + (p.h.n - 1));
    case Refit(u) => Ready(p, s, u);
    case Climb(u) => Ready(p, s, u);
    case Publish(u) =>
      assert NodeOk(p, s, u);
      Ready(p, s, u);
      WholeIsRoot(p, u);
      if p.h.par[u] != -1 {
        ParentFound(p, u);
      }
    case _ =>
  }

  lemma WholeIsRoot(p: Plan, x: int)
    requires Planned(p) && IsRef(p, x)
    ensures p.h.par[x] == -1 <==> p.h.lo[x] == 0 && p.h.hi[x] == p.h.n - 1
  {
    hide IsRightChild, FinJoined;
    assert NodeLinked(p.h, p.s, x);
  }

  /** One step of thread `i`. */
  ghost function Step(p: Plan, s: State, i: nat): State
    requires Inv(p, s) && i < p.h.n
  {
    Enabled(p, s, i);
    match s.pcs[i]
    case Enter => EnterStep(p, s, i)
    case Arrive(x, u) => ArriveStep(p, s, i, x, u)
    case Refit(u) => RefitStep(p, s, i, u)
    case Climb(u) => ClimbStep(p, s, i, u)
    case Publish(u) => PublishStep(p, s, i, u)
    case Done => s
  }

  /** The chain counter of a leaf is one short of the node about to be completed. */
  lemma NextLink(p: Plan, s: State, u: int)
    requires Inv(p, s) && IsTrunk(p, u) && BothIn(p, s, u) && !s.complete[u]
    ensures 0 <= p.h.lo[u] < p.h.n && p.h.level[u] == s.height[p.h.lo[u]] + 1
    ensures s.published[p.h.lo[u] + (p.h.n - 1)]
  {
    hide IsRightChild, Join, NodeLinked, FinJoined;
    var l := p.h.lch[u];
    assert TrunkLinked(p.h, u) && NodeOk(p, s, u) && NodeOk(p, s, l);
    assert NodeOk(p, s, p.h.lo[u] + (p.h.n - 1));
    if IsTrunk(p, l) {
      assert TrunkLinked(p.h, l);
    }
  }

  lemma OtherLevel(p: Plan, u: int, v: int)
    requires Planned(p) && IsTrunk(p, u) && IsTrunk(p, v) && u != v && p.h.lo[u] == p.h.lo[v]
    ensures p.h.level[u] != p.h.level[v]
  {
    hide IsRightChild, NodeLinked, FinJoined, TrunkLinked;
    var h := p.h;
    if u < v {
      assert h.lo[u] == h.lo[v];
    } else {
      assert h.lo[v] == h.lo[u];
    }
  }

  /** An arrival is the second one exactly when the sibling is in already; until then nothing
      has happened to the parent. */
  lemma Arrival(p: Plan, s: State, i: nat)
    requires Inv(p, s) && i < p.h.n && s.pcs[i].Arrive?
    ensures var (x, u) := (s.pcs[i].from, s.pcs[i].cur);
            && IsRef(p, x) && IsTrunk(p, u) && s.published[x] && !s.arrived[x] && s.who[x] == i && p.h.par[x] == u
            && IsRef(p, p.h.lch[u]) && IsRef(p, p.h.rch[u]) && p.h.lch[u] != p.h.rch[u]
            && (x == p.h.lch[u] || x == p.h.rch[u]) && x != u
            && s.flags[u] == (if s.arrived[if x == p.h.lch[u] then p.h.rch[u] else p.h.lch[u]] then 1 else 0)
            && !BothIn(p, s, u) && !s.complete[u] && !s.published[u] && s.merges[u] == 0
  {
    hide IsRightChild, Join, NodeLinked, FinJoined;
    assert ThreadOk(p, s, i);
    var (x, u) := (s.pcs[i].from, s.pcs[i].cur);
    ParentFound(p, x);
    assert NodeOk(p, s, u) && TrunkLinked(p.h, u);
  }

  /** A completed node is handed to the parent that the neighbouring splits name. */
  lemma Handing(p: Plan, s: State, i: nat)
    requires Inv(p, s) && i < p.h.n && s.pcs[i].Publish?
    ensures var u := s.pcs[i].cur;
            && IsTrunk(p, u) && s.complete[u] && !s.published[u] && !s.arrived[u] && s.who[u] == i && BothIn(p, s, u)
            && s.tLs[u] == p.h.lo[u] && s.tRs[u] == p.h.hi[u]
            && (p.h.par[u] == -1 <==> p.h.lo[u] == 0 && p.h.hi[u] == p.h.n - 1)
            && (p.h.par[u] != -1 ==>
                  var par := p.h.par[u];
                  && IsTrunk(p, par) && par == ParentAt(p.s, p.h.lo[u], p.h.hi[u])
                  && (if IsRightChild(p.s, p.h.lo[u], p.h.hi[u]) then p.h.rch[par] == u && p.h.lch[par] != u
                      else p.h.lch[par] == u && p.h.rch[par] != u)
                  && (p.h.lch[par] == u ==> p.h.lo[par] == p.h.lo[u])
                      && (p.h.rch[par] == u ==> p.h.hi[par] == p.h.hi[u]))
  {
    hide IsRightChild, Join, NodeLinked, FinJoined;
    var u := s.pcs[i].cur;
    assert ThreadOk(p, s, i) && NodeOk(p, s, u);
    Ready(p, s, u);
    WholeIsRoot(p, u);
    if p.h.par[u] != -1 {
      ParentFound(p, u);
      assert TrunkLinked(p.h, p.h.par[u]);
    }
  }

  lemma Entering(p: Plan, s: State, i: nat)
    requires Inv(p, s) && i < p.h.n && s.pcs[i].Enter?
    ensures var (x, par) := (i + (p.h.n - 1), p.h.par[i + (p.h.n - 1)]);
            && IsRef(p, x) && !IsTrunk(p, x) && p.h.lo[x] == i && p.h.hi[x] == i && p.h.level[x] == 0
            && s.complete[x] && !s.published[x] && !s.arrived[x] && s.height[i] == 0
            && IsTrunk(p, par) && par == ParentAt(p.s, i, i)
            && (if IsRightChild(p.s, i, i) then p.h.rch[par] == x && p.h.lch[par] != x
                else p.h.lch[par] == x && p.h.rch[par] != x)
            && (p.h.lch[par] == x ==> p.h.lo[par] == i) && (p.h.rch[par] == x ==> p.h.hi[par] == i)
  {
    hide IsRightChild, Join, NodeLinked, FinJoined;
    LeafFacts(p, i);
    ParentFound(p, i + (p.h.n - 1));
    assert ThreadOk(p, s, i) && NodeOk(p, s, i + (p.h.n - 1)) && TrunkLinked(p.h, p.h.par[i + (p.h.n - 1)]);
  }

  /** What is known of one thread, and of one trunk node. */
  lemma ThreadIs(p: Plan, s: State, j: nat)
    requires Inv(p, s) && j < p.h.n
    ensures Planned(p) && Sized(p, s) && s.lDepths[p.h.n] == 0 && ThreadOk(p, s, j) && LeafOk(p, s, j)
    ensures |p.s| == |p.leafBvs| == p.h.n
  {
    hide IsRightChild, Join, NodeLinked, FinJoined, TrunkLinked;
  }

  lemma TrunkIs(p: Plan, s: State, u: nat)
    requires Inv(p, s) && u < p.h.n - 1
    ensures Planned(p) && Sized(p, s) && IsTrunk(p, u) && TrunkOk(p, s, u) && HandOk(p, s, u) && TrunkLinked(p.h, u)
    ensures |p.s| == |p.leafBvs| == p.h.n
  {
    hide IsRightChild, Join, NodeLinked, FinJoined, TrunkOk, HandOk;
    assert NodeOk(p, s, u);
  }

  lemma EnterThread(p: Plan, s: State, i: nat, j: nat)
    requires Inv(p, s) && i < p.h.n && s.pcs[i].Enter? && j < p.h.n
    ensures Sized(p, Step(p, s, i)) && ThreadOk(p, Step(p, s, i), j) && LeafOk(p, Step(p, s, i), j)
    ensures Step(p, s, i).lDepths[p.h.n] == 0
  {
    hide Inv, Planned, IsRightChild, Join;
    Enabled(p, s, i);
    Entering(p, s, i);
    ThreadIs(p, s, j);
  }

  lemma EnterTrunk(p: Plan, s: State, i: nat, j: nat)
    requires Inv(p, s) && i < p.h.n && s.pcs[i].Enter? && j < p.h.n - 1
    ensures Sized(p, Step(p, s, i)) && TrunkOk(p, Step(p, s, i), j)
  {
    hide Inv, Planned, IsRightChild, Join;
    Enabled(p, s, i);
    Entering(p, s, i);
    TrunkIs(p, s, j);
  }

  lemma EnterNode(p: Plan, s: State, i: nat, x: nat)
    requires Inv(p, s) && i < p.h.n && s.pcs[i].Enter? && x < 2 * p.h.n - 1
    ensures Sized(p, Step(p, s, i)) && HandOk(p, Step(p, s, i), x)
    ensures !IsTrunk(p, x) ==> EndOk(p, Step(p, s, i), x)
  {
    hide IsRightChild, Join, NodeLinked, FinJoined, TrunkOk;
    Enabled(p, s, i);
    Entering(p, s, i);
    assert NodeOk(p, s, x);
  }

  lemma EnterKeeps(p: Plan, s: State, i: nat)
    requires Inv(p, s) && i < p.h.n && s.pcs[i].Enter?
    ensures Inv(p, Step(p, s, i))
  {
    hide Planned, Step, ThreadOk, LeafOk, HandOk, TrunkOk, EndOk;
    EnterThread(p, s, i, i);
    forall j: nat | j < p.h.n
      ensures ThreadOk(p, Step(p, s, i), j) && LeafOk(p, Step(p, s, i), j)
    {
      EnterThread(p, s, i, j);
    }
    forall x: nat | x < 2 * p.h.n - 1
      ensures NodeOk(p, Step(p, s, i), x)
    {
      EnterNode(p, s, i, x);
      if IsTrunk(p, x) {
        EnterTrunk(p, s, i, x);
      }
    }
  }

  lemma ArriveThread(p: Plan, s: State, i: nat, j: nat)
    requires Inv(p, s) && i < p.h.n && s.pcs[i].Arrive? && j < p.h.n
    ensures Sized(p, Step(p, s, i)) && ThreadOk(p, Step(p, s, i), j) && LeafOk(p, Step(p, s, i), j)
    ensures Step(p, s, i).lDepths[p.h.n] == 0
  {
    hide IsRightChild, Join, NodeLinked, FinJoined;
    Enabled(p, s, i);
    Arrival(p, s, i);
    var u := s.pcs[i].cur;
    assert ThreadOk(p, s, j) && LeafOk(p, s, j);
    if j == i {
      assert s.flags[u] == 1 ==> BothIn(p, Step(p, s, i), u);
    } else if s.pcs[j].Refit? || s.pcs[j].Climb? {
      assert BothIn(p, s, s.pcs[j].cur) && TrunkLinked(p.h, s.pcs[j].cur);
    }
  }

  lemma ArriveTrunk(p: Plan, s: State, i: nat, j: nat)
    requires Inv(p, s) && i < p.h.n && s.pcs[i].Arrive? && j < p.h.n - 1
    ensures Sized(p, Step(p, s, i)) && TrunkOk(p, Step(p, s, i), j)
  {
    hide Inv, Planned, IsRightChild, Join;
    Enabled(p, s, i);
    Arrival(p, s, i);
    ThreadIs(p, s, i);
    TrunkIs(p, s, s.pcs[i].cur);
    TrunkIs(p, s, j);
  }

  lemma ArriveNode(p: Plan, s: State, i: nat, x: nat)
    requires Inv(p, s) && i < p.h.n && s.pcs[i].Arrive? && x < 2 * p.h.n - 1
    ensures Sized(p, Step(p, s, i)) && HandOk(p, Step(p, s, i), x)
    ensures !IsTrunk(p, x) ==> EndOk(p, Step(p, s, i), x)
  {
    hide IsRightChild, Join, NodeLinked, FinJoined, TrunkOk;
    Enabled(p, s, i);
    Arrival(p, s, i);
    var u := s.pcs[i].cur;
    assert NodeOk(p, s, x);
  }

  lemma ArriveKeeps(p: Plan, s: State, i: nat)
    requires Inv(p, s) && i < p.h.n && s.pcs[i].Arrive?
    ensures Inv(p, Step(p, s, i))
  {
    hide Planned, Step, ThreadOk, LeafOk, HandOk, TrunkOk, EndOk;
    ArriveThread(p, s, i, i);
    forall j: nat | j < p.h.n
      ensures ThreadOk(p, Step(p, s, i), j) && LeafOk(p, Step(p, s, i), j)
    {
      ArriveThread(p, s, i, j);
    }
    forall x: nat | x < 2 * p.h.n - 1
      ensures NodeOk(p, Step(p, s, i), x)
    {
      ArriveNode(p, s, i, x);
      if IsTrunk(p, x) {
        ArriveTrunk(p, s, i, x);
      }
    }
  }

  lemma PublishThread(p: Plan, s: State, i: nat, j: nat)
    requires Inv(p, s) && i < p.h.n && s.pcs[i].Publish? && j < p.h.n
    ensures Sized(p, Step(p, s, i)) && ThreadOk(p, Step(p, s, i), j) && LeafOk(p, Step(p, s, i), j)
    ensures Step(p, s, i).lDepths[p.h.n] == 0
  {
    hide IsRightChild, Join, NodeLinked, FinJoined;
    Enabled(p, s, i);
    var u := s.pcs[i].cur;
    Handing(p, s, i);
    assert ThreadOk(p, s, j) && LeafOk(p, s, j);
  }

  lemma PublishTrunk(p: Plan, s: State, i: nat, j: nat)
    requires Inv(p, s) && i < p.h.n && s.pcs[i].Publish? && j < p.h.n - 1
    ensures Sized(p, Step(p, s, i)) && TrunkOk(p, Step(p, s, i), j)
  {
    hide Inv, Planned, IsRightChild, Join;
    Enabled(p, s, i);
    Handing(p, s, i);
    TrunkIs(p, s, j);
  }

  lemma PublishNode(p: Plan, s: State, i: nat, x: nat)
    requires Inv(p, s) && i < p.h.n && s.pcs[i].Publish? && x < 2 * p.h.n - 1
    ensures Sized(p, Step(p, s, i)) && HandOk(p, Step(p, s, i), x)
    ensures !IsTrunk(p, x) ==> EndOk(p, Step(p, s, i), x)
  {
    hide IsRightChild, Join, NodeLinked, FinJoined, TrunkOk;
    Enabled(p, s, i);
    var u := s.pcs[i].cur;
    Handing(p, s, i);
    assert NodeOk(p, s, x);
  }

  lemma PublishKeeps(p: Plan, s: State, i: nat)
    requires Inv(p, s) && i < p.h.n && s.pcs[i].Publish?
    ensures Inv(p, Step(p, s, i))
  {
    hide Planned, Step, ThreadOk, LeafOk, HandOk, TrunkOk, EndOk;
    PublishThread(p, s, i, i);
    forall j: nat | j < p.h.n
      ensures ThreadOk(p, Step(p, s, i), j) && LeafOk(p, Step(p, s, i), j)
    {
      PublishThread(p, s, i, j);
    }
    forall x: nat | x < 2 * p.h.n - 1
      ensures NodeOk(p, Step(p, s, i), x)
    {
      PublishNode(p, s, i, x);
      if IsTrunk(p, x) {
        PublishTrunk(p, s, i, x);
      }
    }
  }

  lemma RefitKeeps(p: Plan, s: State, i: nat)
    requires Inv(p, s) && i < p.h.n && s.pcs[i].Refit?
    ensures Inv(p, Step(p, s, i))
  {
    hide IsRightChild, Join, NodeLinked, FinJoined;
    Enabled(p, s, i);
    var (s', u) := (Step(p, s, i), s.pcs[i].cur);
    assert ThreadOk(p, s, i) && NodeOk(p, s, u);
    Ready(p, s, u);
    forall j: nat | j < p.h.n
      ensures ThreadOk(p, s', j) && LeafOk(p, s', j)
    {
      assert ThreadOk(p, s, j) && LeafOk(p, s, j);
    }
    forall x: nat | x < 2 * p.h.n - 1
      ensures NodeOk(p, s', x)
    {
      assert NodeOk(p, s, x);
    }
  }

  lemma ClimbKeeps(p: Plan, s: State, i: nat)
    requires Inv(p, s) && i < p.h.n && s.pcs[i].Climb?
    ensures Inv(p, Step(p, s, i))
  {
    hide IsRightChild, Join, NodeLinked, FinJoined;
    Enabled(p, s, i);
    var (s', u) := (Step(p, s, i), s.pcs[i].cur);
    assert ThreadOk(p, s, i) && NodeOk(p, s, u);
    Ready(p, s, u);
    NextLink(p, s, u);
    forall j: nat | j < p.h.n
      ensures ThreadOk(p, s', j) && LeafOk(p, s', j)
    {
      assert ThreadOk(p, s, j) && LeafOk(p, s, j);
    }
    forall x: nat | x < 2 * p.h.n - 1
      ensures NodeOk(p, s', x)
    {
      if IsTrunk(p, x) && x != u && p.h.lo[u] == p.h.lo[x] {
        OtherLevel(p, u, x);
      }
      assert NodeOk(p, s, x);
    }
  }

  lemma StepKeepsInv(p: Plan, s: State, i: nat)
    requires Inv(p, s) && i < p.h.n
    ensures Inv(p, Step(p, s, i))
  {
    hide Planned, ThreadOk, LeafOk, NodeOk, EnterStep, ArriveStep, RefitStep, ClimbStep, PublishStep;
    assert |s.pcs| == p.h.n;
    match s.pcs[i]
    case Enter => EnterKeeps(p, s, i);
    case Arrive(_, _) => ArriveKeeps(p, s, i);
    case Refit(_) => RefitKeeps(p, s, i);
    case Climb(_) => ClimbKeeps(p, s, i);
    case Publish(_) => PublishKeeps(p, s, i);
    case Done =>
  }

  /** The state in which the parallel loop starts: flags reset, other shared arrays arbitrary. */
  ghost predicate Begun(p: Plan, s: State)
  {
    && Sized(p, s) && s.lDepths[p.h.n] == 0
    && (forall u :: 0 <= u < |s.flags| ==> s.flags[u] == 0)
    && (forall i :: 0 <= i < |s.pcs| ==> s.pcs[i] == Enter)
    && (forall x :: 0 <= x < |s.published| ==> !s.published[x] && !s.arrived[x] && (s.complete[x] <==> x >= p.h.n - 1))
    && (forall k :: 0 <= k < |s.height| ==> s.height[k] == 0)
    && (forall u :: 0 <= u < |s.merges| ==> s.merges[u] == 0)
  }

  lemma BegunInv(p: Plan, s: State)
    requires Planned(p) && Begun(p, s)
    ensures Inv(p, s)
  {
    hide FinJoined;
    forall u | 0 <= u < p.h.n - 1
      ensures TrunkOk(p, s, u)
    {
      assert TrunkLinked(p.h, u) && NodeLinked(p.h, p.s, u);
    }
  }

  /** Any interleaving: the threads named by `schedule`, one step each. */
  ghost function Run(p: Plan, s: State, schedule: seq<nat>): (r: State)
    requires Inv(p, s) && forall k :: 0 <= k < |schedule| ==> schedule[k] < p.h.n
    ensures Inv(p, r)
    decreases |schedule|
  {
    if schedule == [] then s
    else
      StepKeepsInv(p, s, schedule[0]);
      Run(p, Step(p, s, schedule[0]), schedule[1..])
  }

  ghost predicate Finished(s: State)
  {
    forall i :: 0 <= i < |s.pcs| ==> s.pcs[i] == Done
  }

  lemma {:induction false} AllThrough(p: Plan, s: State, x: nat)
    requires Inv(p, s) && Finished(s) && x < 2 * p.h.n - 1
    ensures s.published[x] && s.complete[x] && (p.h.par[x] == -1 || s.arrived[x])
    decreases if 0 <= p.h.lo[x] <= p.h.hi[x] then p.h.hi[x] - p.h.lo[x] else 0
  {
    hide IsRightChild, Join, FinJoined, LeafOk;
    assert NodeOk(p, s, x) && NodeLinked(p.h, p.s, x);
    if IsTrunk(p, x) {
      assert TrunkLinked(p.h, x);
      var (l, r) := (p.h.lch[x], p.h.rch[x]);
      assert NodeLinked(p.h, p.s, l) && NodeLinked(p.h, p.s, r);
      AllThrough(p, s, l);
      AllThrough(p, s, r);
      assert BothIn(p, s, x);
    }
  }

  /** All arrays in terms of the tables of the tree. */
  ghost predicate Outcome(p: Plan, r: State)
  {
    && Planned(p) && Sized(p, r) && r.lDepths[p.h.n] == 0
    && (forall u :: 0 <= u < p.h.n - 1 ==> TrunkOutcome(p, r, u))
    && (forall k :: 0 <= k < p.h.n ==> LeafOutcome(p, r, k))
  }

  ghost predicate TrunkOutcome(p: Plan, r: State, u: int)
    requires Planned(p) && Sized(p, r) && IsTrunk(p, u)
  {
    && r.tPars[u] == p.h.par[u] && r.tLcs[u] == p.h.lch[u] && r.tRcs[u] == p.h.rch[u]
    && r.tLs[u] == p.h.lo[u] && r.tRs[u] == p.h.hi[u]
    && r.merges[u] == 1 && r.tBvs[u] == p.fin[u]
    && 0 <= p.h.lo[u] < p.h.n && p.h.level[u] <= r.height[p.h.lo[u]]
  }

  ghost predicate LeafOutcome(p: Plan, r: State, k: int)
    requires Planned(p) && Sized(p, r) && 0 <= k < p.h.n
  {
    && r.lPars[k] == p.h.par[k + (p.h.n - 1)] && r.lDepths[k] == 1 + r.height[k]
    && IsRef(p, r.lLcas[k]) && p.h.lo[r.lLcas[k]] == k && p.h.level[r.lLcas[k]] == r.height[k]
  }

  lemma FinishedTrunk(p: Plan, r: State, u: nat)
    requires Inv(p, r) && Finished(r) && u < p.h.n - 1
    ensures TrunkOutcome(p, r, u)
  {
    hide IsRightChild, Join, FinJoined, Finished, NodeLinked;
    Kids(p, u);
    AllThrough(p, r, u);
    AllThrough(p, r, p.h.lch[u]);
    AllThrough(p, r, p.h.rch[u]);
    assert NodeOk(p, r, u);
  }

  lemma FinishedLeaf(p: Plan, r: State, k: nat)
    requires Inv(p, r) && Finished(r) && k < p.h.n
    ensures LeafOutcome(p, r, k)
  {
    hide IsRightChild, Join, FinJoined, Finished, NodeLinked;
    AllThrough(p, r, k + (p.h.n - 1));
    assert NodeOk(p, r, k + (p.h.n - 1)) && LeafOk(p, r, k);
  }

  lemma FinishedOutcome(p: Plan, r: State)
    requires Inv(p, r) && Finished(r)
    ensures Outcome(p, r)
  {
    hide TrunkOutcome, LeafOutcome, Finished, ThreadOk, LeafOk, NodeOk, Planned;
    forall u | 0 <= u < p.h.n - 1
      ensures TrunkOutcome(p, r, u)
    {
      FinishedTrunk(p, r, u);
    }
    forall k | 0 <= k < p.h.n
      ensures LeafOutcome(p, r, k)
    {
      FinishedLeaf(p, r, k);
    }
  }

  lemma Kids(p: Plan, u: int)
    requires Planned(p) && IsTrunk(p, u)
    ensures IsRef(p, p.h.lch[u]) && IsRef(p, p.h.rch[u]) && p.h.par[p.h.lch[u]] == u && p.h.par[p.h.rch[u]] == u
  {
    hide IsRightChild, NodeLinked, FinJoined;
    assert TrunkLinked(p.h, u);
  }

  /** The merged box of a subtree. */
  function BoxOf(t: Tree, leafBvs: seq<Box>, dim: nat): (b: Box)
    requires forall k :: 0 <= k < |leafBvs| ==> Shaped(leafBvs[k], dim)
    ensures Shaped(b, dim)
  {
    match t
    case Leaf(k) => if k < |leafBvs| then leafBvs[k] else Box(seq(dim, _ => 0.0), seq(dim, _ => 0.0))
    case Trunk(_, l, r) => Join(BoxOf(l, leafBvs, dim), BoxOf(r, leafBvs, dim), dim)
  }

  /** It is the union: it contains the box of every leaf of the range, and lies inside every
      box that does. */
  lemma {:induction false} BoxOfIsUnion(t: Tree, leafBvs: seq<Box>, dim: nat, c: Box)
    requires Consecutive(t) && Hi(t) < |leafBvs|
    requires forall k :: 0 <= k < |leafBvs| ==> Shaped(leafBvs[k], dim)
    requires forall k :: 0 <= k < |leafBvs| ==> Ordered(leafBvs[k])
    ensures Inside(BoxOf(t, leafBvs, dim), c) <==> forall k :: Lo(t) <= k <= Hi(t) ==> Inside(leafBvs[k], c)
  {
    Extent(t);
    if t.Trunk? {
      Extent(t.left);
      Extent(t.right);
      BoxOfIsUnion(t.left, leafBvs, dim, c);
      BoxOfIsUnion(t.right, leafBvs, dim, c);
      JoinInside(BoxOf(t.left, leafBvs, dim), BoxOf(t.right, leafBvs, dim), dim, c);
    }
  }

  lemma JoinInside(a: Box, b: Box, dim: nat, c: Box)
    requires Shaped(a, dim) && Shaped(b, dim)
    ensures Inside(Join(a, b, dim), c) <==> Inside(a, c) && Inside(b, c)
  {
    if Inside(Join(a, b, dim), c) {
      forall d | 0 <= d < dim
        ensures c.lo[d] <= a.lo[d] && a.hi[d] <= c.hi[d] && c.lo[d] <= b.lo[d] && b.hi[d] <= c.hi[d]
      {
        assert c.lo[d] <= Join(a, b, dim).lo[d] && Join(a, b, dim).hi[d] <= c.hi[d];
      }
    }
  }

  /** The plan that the splits of a code sequence call for. */
  function PlanOf(s: seq<int>, leafBvs: seq<Box>, dim: nat): Plan
    requires |s| == |leafBvs| >= 3 && forall k :: 0 <= k < |leafBvs| ==> Shaped(leafBvs[k], dim)
  {
    var n := |s|;
    var t := Cartesian(s, 0, n - 1);
    Plan(s, leafBvs, dim, ShapeOf(t, n),
      seq(2 * n - 1, x requires 0 <= x < 2 * n - 1 => BoxOf(NodeOf(t, n, x), leafBvs, dim)))
  }

  lemma PlanAt(s: seq<int>, leafBvs: seq<Box>, dim: nat, x: nat)
    requires |s| == |leafBvs| >= 3 && forall k :: 0 <= k < |leafBvs| ==> Shaped(leafBvs[k], dim)
    requires forall k :: 0 <= k < |s| - 1 ==> s[k] < s[|s| - 1]
    requires x < 2 * |s| - 1
    ensures var (p, t) := (PlanOf(s, leafBvs, dim), Cartesian(s, 0, |s| - 1));
            && |p.fin| == 2 * |s| - 1 && p.fin[x] == BoxOf(NodeOf(t, |s|, x), leafBvs, dim)
            && (x >= |s| - 1 ==> p.fin[x] == leafBvs[x - (|s| - 1)])
  {
    hide Cartesian, Join, ShapeOf;
    var t := Cartesian(s, 0, |s| - 1);
    WholeTree(s);
    ShapeAt(t, s, x);
  }

  lemma PlanIsPlanned(s: seq<int>, leafBvs: seq<Box>, dim: nat)
    requires |s| == |leafBvs| >= 3 && forall k :: 0 <= k < |leafBvs| ==> Shaped(leafBvs[k], dim)
    requires forall k :: 0 <= k < |s| - 1 ==> s[k] < s[|s| - 1]
    ensures Planned(PlanOf(s, leafBvs, dim))
  {
    hide Cartesian, IsRightChild, Linked, Join, FinJoined, ShapeOf, NodeOf;
    var (n, t, p) := (|s|, Cartesian(s, 0, |s| - 1), PlanOf(s, leafBvs, dim));
    WholeTree(s);
    ShapeLinked(t, s);
    SizeOf(t, s);
    forall x | 0 <= x < 2 * n - 1
      ensures Shaped(p.fin[x], dim) && (x >= n - 1 ==> p.fin[x] == leafBvs[x - (n - 1)])
    {
      PlanAt(s, leafBvs, dim, x);
    }
    forall k | 0 <= k < n
      ensures p.fin[k + (n - 1)] == leafBvs[k]
    {
      PlanAt(s, leafBvs, dim, k + (n - 1));
    }
    forall u | 0 <= u < n - 1
      ensures FinJoined(p, u)
    {
      PlanJoined(s, leafBvs, dim, u);
    }
  }

  lemma SizeOf(t: Tree, s: seq<int>)
    requires |s| >= 1
    ensures ShapeOf(t, |s|).n == |s|
  {
  }

  lemma PlanJoined(s: seq<int>, leafBvs: seq<Box>, dim: nat, u: nat)
    requires |s| == |leafBvs| >= 3 && forall k :: 0 <= k < |leafBvs| ==> Shaped(leafBvs[k], dim)
    requires forall k :: 0 <= k < |s| - 1 ==> s[k] < s[|s| - 1]
    requires Linked(PlanOf(s, leafBvs, dim).h, s) && u < |s| - 1
    ensures FinJoined(PlanOf(s, leafBvs, dim), u)
  {
    hide Cartesian, IsRightChild, NodeLinked, TrunkLinked, Join, ShapeOf, NodeOf, Ref;
    var (t, p) := (Cartesian(s, 0, |s| - 1), PlanOf(s, leafBvs, dim));
    WholeTree(s);
    ShapeAt(t, s, u);
    PlanAt(s, leafBvs, dim, u);
    ChildRef(t, s, u, Sub(t, u).left);
    ChildRef(t, s, u, Sub(t, u).right);
    PlanAt(s, leafBvs, dim, Ref(Sub(t, u).left, |s| - 1));
    PlanAt(s, leafBvs, dim, Ref(Sub(t, u).right, |s| - 1));
  }

  lemma SplitsEnd(mcs: seq<Code>)
    requires |mcs| >= 1
    ensures forall k :: 0 <= k < |mcs| - 1 ==> Splits(mcs)[k] < Splits(mcs)[|mcs| - 1]
  {
    forall k | 0 <= k < |mcs| - 1
      ensures Splits(mcs)[k] < Splits(mcs)[|mcs| - 1]
    {
      SplitAt(mcs, k + 1);
    }
  }

  /** The tables of the tree, read as the tree. */
  lemma TrunkRead(s: seq<int>, leafBvs: seq<Box>, dim: nat, r: State, u: nat)
    requires |s| == |leafBvs| >= 3 && forall k :: 0 <= k < |leafBvs| ==> Shaped(leafBvs[k], dim)
    requires forall k :: 0 <= k < |s| - 1 ==> s[k] < s[|s| - 1]
    requires Outcome(PlanOf(s, leafBvs, dim), r) && u < |s| - 1
    ensures var (t, n) := (Cartesian(s, 0, |s| - 1), |s|);
            && u in Ids(t) && |r.tPars| == |r.tLcs| == |r.tRcs| == |r.tLs| == |r.tRs| == |r.tBvs| == |r.merges| == n - 1
            && r.tPars[u] == TrunkParent(t, u)
            && r.tLs[u] == Lo(Sub(t, u)) && r.tRs[u] == Hi(Sub(t, u))
            && r.tLcs[u] == Ref(Sub(t, u).left, n - 1) && r.tRcs[u] == Ref(Sub(t, u).right, n - 1)
            && r.merges[u] == 1 && r.tBvs[u] == BoxOf(Sub(t, u), leafBvs, dim)
            && |r.height| == n && Lo(Sub(t, u)) < n && Level(Sub(t, u)) <= r.height[Lo(Sub(t, u))]
  {
    hide Cartesian, ShapeOf, Sub, Ref, BoxOf, Planned;
    var t := Cartesian(s, 0, |s| - 1);
    WholeTree(s);
    SizeOf(t, s);
    assert TrunkOutcome(PlanOf(s, leafBvs, dim), r, u);
    ShapeAt(t, s, u);
    PlanAt(s, leafBvs, dim, u);
  }

  /** What a leaf's record names, in terms of the tree. */
  lemma LeafFound(s: seq<int>, leafBvs: seq<Box>, dim: nat, r: State, k: nat)
    requires |s| == |leafBvs| >= 3 && forall k :: 0 <= k < |leafBvs| ==> Shaped(leafBvs[k], dim)
    requires forall k :: 0 <= k < |s| - 1 ==> s[k] < s[|s| - 1]
    requires Outcome(PlanOf(s, leafBvs, dim), r) && k < |s|
    ensures var (t, n) := (Cartesian(s, 0, |s| - 1), |s|);
            && |r.lPars| == |r.lLcas| == |r.height| == n && |r.lDepths| == n + 1 && 0 <= r.lLcas[k] < 2 * n - 1
            && r.lPars[k] == ParentOf(t, n, k + (n - 1)) && r.lDepths[k] == 1 + r.height[k]
            && Lo(NodeOf(t, n, r.lLcas[k])) == k && Level(NodeOf(t, n, r.lLcas[k])) == r.height[k]
  {
    hide Cartesian, ShapeOf, Sub, BoxOf, Planned, Top, Link, NodeOf, ParentOf, Lo, Hi, Level, Ref;
    var (t, n) := (Cartesian(s, 0, |s| - 1), |s|);
    WholeTree(s);
    SizeOf(t, s);
    assert LeafOutcome(PlanOf(s, leafBvs, dim), r, k);
    ShapeAt(t, s, k + (n - 1));
    ShapeAt(t, s, r.lLcas[k]);
  }

  lemma LeafRead(s: seq<int>, leafBvs: seq<Box>, dim: nat, r: State, k: nat)
    requires |s| == |leafBvs| >= 3 && forall k :: 0 <= k < |leafBvs| ==> Shaped(leafBvs[k], dim)
    requires forall k :: 0 <= k < |s| - 1 ==> s[k] < s[|s| - 1]
    requires Outcome(PlanOf(s, leafBvs, dim), r) && k < |s|
    ensures var (t, n) := (Cartesian(s, 0, |s| - 1), |s|);
            && |r.lPars| == |r.lLcas| == n && |r.lDepths| == n + 1
            && r.lPars[k] == LeafParent(t, k) && r.lDepths[k] == 1 + Level(Top(t, k))
            && r.lLcas[k] == Ref(Top(t, k), n - 1)
  {
    hide Cartesian, ShapeOf, Sub, BoxOf, Planned, Top, Link, Outcome, NodeOf;
    var (t, n) := (Cartesian(s, 0, |s| - 1), |s|);
    WholeTree(s);
    LeafFound(s, leafBvs, dim, r, k);
    var (c, x) := (Top(t, k), r.lLcas[k]);
    ShapeAt(t, s, x);
    TopStart(t, k);
    LinkEnds(c);
    if c.Trunk? {
      LinkOf(t, k, Level(c));
      TrunkRead(s, leafBvs, dim, r, c.id);
    }
    if x < n - 1 {
      LinkIs(t, x);
    }
  }

  lemma OutcomeRecorded(s: seq<int>, leafBvs: seq<Box>, dim: nat, r: State)
    requires |s| == |leafBvs| >= 3 && forall k :: 0 <= k < |leafBvs| ==> Shaped(leafBvs[k], dim)
    requires forall k :: 0 <= k < |s| - 1 ==> s[k] < s[|s| - 1]
    requires Outcome(PlanOf(s, leafBvs, dim), r)
    ensures var (n, t) := (|s|, Cartesian(s, 0, |s| - 1));
              && Recorded(t, n, r.tPars, r.tLcs, r.tRcs, r.tLs, r.tRs, r.lPars, r.lDepths)
              && |r.lLcas| == n && |r.merges| == |r.tBvs| == n - 1
              && (forall k: nat :: k < n ==> r.lLcas[k] == Ref(Top(t, k), n - 1))
              && (forall u: nat :: u < n - 1 ==>
                  u in Ids(t) && r.merges[u] == 1 && r.tBvs[u] == BoxOf(Sub(t, u), leafBvs, dim))
  {
    hide Cartesian, Sub, Ref, BoxOf, Planned, Top, ShapeOf, NodeOf, Recorded;
    var (n, t) := (|s|, Cartesian(s, 0, |s| - 1));
    SizeOf(t, s);
    WholeTree(s);
    forall u: nat | u < n - 1
      ensures u in Ids(t) && r.merges[u] == 1 && r.tBvs[u] == BoxOf(Sub(t, u), leafBvs, dim)
    {
      TrunkRead(s, leafBvs, dim, r, u);
    }
    forall k: nat | k < n
      ensures r.lLcas[k] == Ref(Top(t, k), n - 1)
    {
      LeafRead(s, leafBvs, dim, r, k);
    }
    AsRecorded(s, leafBvs, dim, r);
  }

  /** `buildRefit`, whatever the interleaving: once every thread is through, the scratch arrays
      describe the Cartesian tree of the splits, every trunk node has been merged exactly once
      and holds the union of the leaf boxes of its range, and the tops of the left chains are
      recorded at their leaves. */
  lemma BuildRefitDone(mcs: seq<Code>, leafBvs: seq<Box>, dim: nat, start: State, schedule: seq<nat>)
    requires |mcs| == |leafBvs| >= 3 && forall k :: 0 <= k < |leafBvs| ==> Shaped(leafBvs[k], dim)
    requires Begun(PlanOf(Splits(mcs), leafBvs, dim), start)
    requires forall k :: 0 <= k < |schedule| ==> schedule[k] < |mcs|
    ensures Inv(PlanOf(Splits(mcs), leafBvs, dim), start)
    ensures var (n, t) := (|mcs|, Cartesian(Splits(mcs), 0, |mcs| - 1));
            var r := Run(PlanOf(Splits(mcs), leafBvs, dim), start, schedule);
            Finished(r) ==>
              && Recorded(t, n, r.tPars, r.tLcs, r.tRcs, r.tLs, r.tRs, r.lPars, r.lDepths)
              && |r.lLcas| == n && |r.merges| == |r.tBvs| == n - 1
              && (forall k: nat :: k < n ==> r.lLcas[k] == Ref(Top(t, k), n - 1))
              && (forall u: nat :: u < n - 1 ==>
                  u in Ids(t) && r.merges[u] == 1 && r.tBvs[u] == BoxOf(Sub(t, u), leafBvs, dim))
  {
    hide Cartesian, Sub, Ref, BoxOf, Planned, Top, ShapeOf, NodeOf, Splits, Inv, Outcome, Recorded;
    var (s, n) := (Splits(mcs), |mcs|);
    var (p, t) := (PlanOf(s, leafBvs, dim), Cartesian(s, 0, n - 1));
    SplitsEnd(mcs);
    PlanIsPlanned(s, leafBvs, dim);
    BegunInv(p, start);
    SizeOf(t, s);
    var r := Run(p, start, schedule);
    if Finished(r) {
      FinishedOutcome(p, r);
      OutcomeRecorded(s, leafBvs, dim, r);
    }
  }

  lemma AsRecorded(s: seq<int>, leafBvs: seq<Box>, dim: nat, r: State)
    requires |s| == |leafBvs| >= 3 && forall k :: 0 <= k < |leafBvs| ==> Shaped(leafBvs[k], dim)
    requires forall k :: 0 <= k < |s| - 1 ==> s[k] < s[|s| - 1]
    requires Outcome(PlanOf(s, leafBvs, dim), r)
    ensures Recorded(Cartesian(s, 0, |s| - 1), |s|, r.tPars, r.tLcs, r.tRcs, r.tLs, r.tRs, r.lPars, r.lDepths)
  {
    hide Cartesian, Sub, Ref, BoxOf, Planned, Top, ShapeOf, NodeOf, TrunkOutcome, LeafOutcome, Consecutive, UniqueIds,
        Ids, TrunkParent, LeafParent, Level;
    var (n, t) := (|s|, Cartesian(s, 0, |s| - 1));
    WholeTree(s);
    SizeOf(t, s);
    forall u: nat | u in Ids(t)
      ensures && r.tPars[u] == TrunkParent(t, u) && r.tLs[u] == Lo(Sub(t, u)) && r.tRs[u] == Hi(Sub(t, u))
              && r.tLcs[u] == Ref(Sub(t, u).left, n - 1) && r.tRcs[u] == Ref(Sub(t, u).right, n - 1)
    {
      TrunkRead(s, leafBvs, dim, r, u);
    }
    forall k: nat | k < n
      ensures r.lPars[k] == LeafParent(t, k) && r.lDepths[k] == 1 + Level(Top(t, k))
    {
      LeafRead(s, leafBvs, dim, r, k);
    }
  }

  // Every step of a thread that is not through makes progress, so every fair run ends.

  function NodeWork(complete: bool, published: bool, arrived: bool): nat
  {
    (if complete then 0 else 1) + (if published then 0 else 1) + (if arrived then 0 else 3)
  }

  function ThreadWork(pc: Pc): nat
  {
    match pc
    case Refit(_) => 2
    case Climb(_) => 1
    case _ => 0
  }

  ghost function NodeWorks(s: State): seq<nat>
    requires |s.complete| == |s.published| == |s.arrived|
  {
    seq(|s.complete|, x requires 0 <= x < |s.complete| => NodeWork(s.complete[x], s.published[x], s.arrived[x]))
  }

  ghost function ThreadWorks(s: State): seq<nat>
  {
    seq(|s.pcs|, i requires 0 <= i < |s.pcs| => ThreadWork(s.pcs[i]))
  }

  ghost function Work(s: State): nat
    requires |s.complete| == |s.published| == |s.arrived|
  {
    Sum(NodeWorks(s)) + Sum(ThreadWorks(s))
  }

  /** The node a step is about. */
  function About(n: nat, pc: Pc, i: nat): int
  {
    match pc
    case Enter => i + (n - 1)
    case Arrive(x, _) => x
    case Refit(u) => u
    case Climb(u) => u
    case Publish(u) => u
    case Done => 0
  }

  ghost predicate Local(p: Plan, s: State, s': State, i: nat)
    requires Sized(p, s) && Sized(p, s') && i < p.h.n && IsRef(p, About(p.h.n, s.pcs[i], i))
  {
    var x := About(p.h.n, s.pcs[i], i);
    && s'.pcs == s.pcs[i := s'.pcs[i]]
    && s'.complete == s.complete[x := s'.complete[x]]
    && s'.published == s.published[x := s'.published[x]]
    && s'.arrived == s.arrived[x := s'.arrived[x]]
    && NodeWork(s'.complete[x], s'.published[x], s'.arrived[x]) + ThreadWork(s'.pcs[i])
       < NodeWork(s.complete[x], s.published[x], s.arrived[x]) + ThreadWork(s.pcs[i])
  }

  lemma HandsOn(p: Plan, s: State, i: nat)
    requires Inv(p, s) && i < p.h.n && (s.pcs[i].Enter? || s.pcs[i].Publish?)
    ensures Sized(p, s) && Sized(p, Step(p, s, i)) && IsRef(p, About(p.h.n, s.pcs[i], i))
            && Local(p, s, Step(p, s, i), i)
  {
    hide Inv, Planned, IsRightChild, Join, LeafOk;
    ThreadIs(p, s, i);
    if s.pcs[i].Publish? {
      Handing(p, s, i);
    }
    Enabled(p, s, i);
  }

  lemma Works(p: Plan, s: State, i: nat)
    requires Inv(p, s) && i < p.h.n && (s.pcs[i].Arrive? || s.pcs[i].Refit? || s.pcs[i].Climb?)
    ensures Sized(p, s) && Sized(p, Step(p, s, i)) && IsRef(p, About(p.h.n, s.pcs[i], i))
            && Local(p, s, Step(p, s, i), i)
  {
    hide Inv, Planned, IsRightChild, Join, LeafOk, BoxAt;
    ThreadIs(p, s, i);
    Enabled(p, s, i);
  }

  lemma StepLocal(p: Plan, s: State, i: nat)
    requires Inv(p, s) && i < p.h.n && s.pcs[i] != Done
    ensures Sized(p, s) && Sized(p, Step(p, s, i)) && IsRef(p, About(p.h.n, s.pcs[i], i))
            && Local(p, s, Step(p, s, i), i)
  {
    hide Inv, Step, Local, About, ThreadOk, LeafOk, Planned;
    ThreadIs(p, s, i);
    if s.pcs[i].Enter? || s.pcs[i].Publish? {
      HandsOn(p, s, i);
    } else {
      Works(p, s, i);
    }
  }

  lemma StepProgress(p: Plan, s: State, i: nat)
    requires Inv(p, s) && i < p.h.n && s.pcs[i] != Done
    ensures Sized(p, Step(p, s, i)) && Work(Step(p, s, i)) < Work(s)
  {
    hide Step, Planned, Sum, ThreadWork, NodeWork, ThreadOk, NodeOk, LeafOk;
    StepLocal(p, s, i);
    var (s', x) := (Step(p, s, i), About(p.h.n, s.pcs[i], i));
    SumUpdate(NodeWorks(s), x, NodeWork(s'.complete[x], s'.published[x], s'.arrived[x]));
    SumUpdate(ThreadWorks(s), i, ThreadWork(s'.pcs[i]));
    assert NodeWorks(s') == NodeWorks(s)[x := NodeWork(s'.complete[x], s'.published[x], s'.arrived[x])];
    assert ThreadWorks(s') == ThreadWorks(s)[i := ThreadWork(s'.pcs[i])];
  }
}
