/** The rebuild in `HashTable::resize`: all listed keys are inserted under their numbers into an empty
    table, one thread a key. Compare-and-swaps and plain writes are steps, the steps of all threads
    interleave freely. */
module HashRebuilds {
  import opened HashTables
  import opened Sums

  datatype Move =
    | Search(k: nat) // about to compare and swap the slot of the `k`th probe
    | Store(p: nat)  // has placed its key in slot `p`, about to store its number
    | Restored(p: nat)
    | Refused        // has found its key in the table

  /** The table and the threads; thread `i` inserts the key listed under number `i`. */
  datatype Rebuild = Rebuild(keys: seq<int>, indices: seq<int>, moves: seq<Move>)

  function Searching(moves: seq<Move>): seq<nat>
  {
    seq(|moves|, i requires 0 <= i < |moves| => if moves[i].Search? then 1 else 0)
  }

  /** The list names different keys. */
  ghost predicate ListOk(list: seq<int>)
  {
    (forall i :: 0 <= i < |list| ==> list[i] != EMPTY) && forall i, j :: 0 <= i < j < |list| ==> list[i] != list[j]
  }

  ghost predicate MoveOk(c: Config, list: seq<int>, s: Rebuild, i: nat)
    requires |s.keys| == |s.indices| == Size(c) && i < |list| == |s.moves|
  {
    match s.moves[i]
    case Search(k) => Behind(c, s.keys, list[i], k)
    case Store(p) => p < |s.keys| && s.keys[p] == list[i]
    case Restored(p) => p < |s.keys| && s.keys[p] == list[i] && s.indices[p] == i
    case Refused => false
  }

  ghost predicate FilledBy(s: Rebuild, p: nat, i: nat)
  {
    i < |s.moves| && (s.moves[i].Store? || s.moves[i].Restored?) && s.moves[i].p == p
  }

  /** A filled slot is that of a thread. */
  ghost predicate SlotFilled(s: Rebuild, p: nat)
    requires p < |s.keys|
  {
    s.keys[p] != EMPTY ==> exists i: nat :: FilledBy(s, p, i)
  }

  ghost predicate RebuildInv(c: Config, list: seq<int>, s: Rebuild)
  {
    && ListOk(list) && TableOk(c, s.keys) && |s.keys| == |s.indices| == Size(c) && |s.moves| == |list|
    && Sum(Marks(s.keys)) + Sum(Searching(s.moves)) == |list|
    && (forall i: nat :: i < |list| ==> MoveOk(c, list, s, i))
    && forall p: nat :: p < |s.keys| ==> SlotFilled(s, p)
  }

  lemma MoveIs(c: Config, list: seq<int>, s: Rebuild, i: nat)
    requires RebuildInv(c, list, s) && i < |list|
    ensures MoveOk(c, list, s, i) && TableOk(c, s.keys) && |s.keys| == |s.indices| == Size(c) && |s.moves| == |list|
    ensures list[i] != EMPTY && ListOk(list)
  {
    hide MoveOk, TableOk, SlotFilled, Sum;
  }

  ghost function Step(c: Config, list: seq<int>, s: Rebuild, i: nat): Rebuild
    requires RebuildInv(c, list, s) && i < |list|
  {
    MoveIs(c, list, s, i);
    match s.moves[i]
    case Search(k) =>
      var p := Spot(c, list[i], k);
      if s.keys[p] == EMPTY then s.(keys := s.keys[p := list[i]], moves := s.moves[i := Store(p)])
      else s.(moves := s.moves[i := if s.keys[p] == list[i] then Refused else Search(k + 1)])
    case Store(p) => s.(indices := s.indices[p := i], moves := s.moves[i := Restored(p)])
    case _ => s
  }

  lemma SearchingPut(moves: seq<Move>, i: nat, x: Move)
    requires i < |moves|
    ensures Sum(Searching(moves[i := x])) + One(moves[i].Search?) == Sum(Searching(moves)) + One(x.Search?)
  {
    SumUpdate(Searching(moves), i, One(x.Search?));
    assert Searching(moves[i := x]) == Searching(moves)[i := One(x.Search?)];
  }

  /** A searching thread does not find its own key. */
  lemma NotThere(c: Config, list: seq<int>, s: Rebuild, i: nat, p: nat)
    requires RebuildInv(c, list, s) && i < |list| && s.moves[i].Search? && p < |s.keys|
    ensures s.keys[p] != list[i]
  {
    hide TableOk, Sum, Behind;
    assert SlotFilled(s, p);
    MoveIs(c, list, s, i);
    if s.keys[p] != EMPTY {
      var j: nat :| FilledBy(s, p, j);
      assert MoveOk(c, list, s, j);
    }
  }

  lemma StepTable(c: Config, list: seq<int>, s: Rebuild, i: nat)
    requires RebuildInv(c, list, s) && i < |list|
    ensures var s' := Step(c, list, s, i);
            && TableOk(c, s'.keys) && |s'.keys| == |s'.indices| == Size(c) && |s'.moves| == |list|
            && Sum(Marks(s'.keys)) + Sum(Searching(s'.moves)) == |list|
  {
    MoveIs(c, list, s, i);
    var s' := Step(c, list, s, i);
    if s.moves[i].Search? {
      var p := Spot(c, list[i], s.moves[i].k);
      if s.keys[p] == EMPTY {
        Placed(c, s.keys, list[i], s.moves[i].k);
        MarksPut(s.keys, p, list[i]);
      } else {
        NotThere(c, list, s, i, p);
      }
    }
    SearchingPut(s.moves, i, s'.moves[i]);
    hide TableOk, MoveOk, SlotFilled, Behind, Spot, Sum, Marks, Searching, ListOk;
  }

  lemma StepMove(c: Config, list: seq<int>, s: Rebuild, i: nat, j: nat)
    requires RebuildInv(c, list, s) && i < |list| && j < |list|
    ensures var s' := Step(c, list, s, i);
            |s'.keys| == |s'.indices| == Size(c) && |s'.moves| == |list| && MoveOk(c, list, s', j)
  {
    MoveIs(c, list, s, i);
    MoveIs(c, list, s, j);
    if s.moves[i].Search? {
      NotThere(c, list, s, i, Spot(c, list[i], s.moves[i].k));
    }
    hide RebuildInv, TableOk, Spot;
  }

  lemma StepFilled(c: Config, list: seq<int>, s: Rebuild, i: nat, p: nat)
    requires RebuildInv(c, list, s) && i < |list| && p < |Step(c, list, s, i).keys|
    ensures SlotFilled(Step(c, list, s, i), p)
  {
    MoveIs(c, list, s, i);
    var s' := Step(c, list, s, i);
    assert |s'.keys| == |s.keys|;
    assert SlotFilled(s, p);
    hide RebuildInv, TableOk, Behind, Spot;
    if s'.keys[p] != EMPTY {
      if s.keys[p] != EMPTY {
        var j: nat :| FilledBy(s, p, j);
        assert FilledBy(s', p, j);
      } else {
        assert FilledBy(s', p, i);
      }
    }
  }

  lemma StepKeepsInv(c: Config, list: seq<int>, s: Rebuild, i: nat)
    requires RebuildInv(c, list, s) && i < |list|
    ensures RebuildInv(c, list, Step(c, list, s, i))
  {
    StepTable(c, list, s, i);
    hide TableOk, MoveOk, SlotFilled, Step, Sum, Marks, Searching;
    var s' := Step(c, list, s, i);
    forall j: nat | j < |list|
      ensures MoveOk(c, list, s', j)
    {
      StepMove(c, list, s, i, j);
    }
    forall p: nat | p < |s'.keys|
      ensures SlotFilled(s', p)
    {
      StepFilled(c, list, s, i, p);
    }
  }

  ghost function Run(c: Config, list: seq<int>, s: Rebuild, schedule: seq<nat>): (r: Rebuild)
    requires RebuildInv(c, list, s) && forall k :: 0 <= k < |schedule| ==> schedule[k] < |list|
    ensures RebuildInv(c, list, r)
    decreases |schedule|
  {
    if schedule == [] then s
    else
      StepKeepsInv(c, list, s, schedule[0]);
      Run(c, list, Step(c, list, s, schedule[0]), schedule[1..])
  }

  // Progress.

  function Ahead(n: nat, x: Move): nat
  {
    match x
    case Search(k) => if k < n then n - k + 2 else 2
    case Store(_) => 1
    case _ => 0
  }

  function AllAhead(n: nat, moves: seq<Move>): seq<nat>
  {
    seq(|moves|, i requires 0 <= i < |moves| => Ahead(n, moves[i]))
  }

  /** If the table has a slot for every listed key, every step of a thread that is not through makes
      progress. */
  lemma StepProgress(c: Config, list: seq<int>, s: Rebuild, i: nat)
    requires RebuildInv(c, list, s) && |list| <= Size(c) && i < |list| && !s.moves[i].Restored?
    ensures Sum(AllAhead(Size(c), Step(c, list, s, i).moves)) < Sum(AllAhead(Size(c), s.moves))
  {
    MoveIs(c, list, s, i);
    if s.moves[i].Search? {
      FewSearches(c, list, s, i);
    }
    var (n, s') := (Size(c), Step(c, list, s, i));
    SumUpdate(AllAhead(n, s.moves), i, Ahead(n, s'.moves[i]));
    assert AllAhead(n, s'.moves) == AllAhead(n, s.moves)[i := Ahead(n, s'.moves[i])];
    hide TableOk, Spot, Behind, Sum, Marks, Searching, SlotFilled, Size;
  }

  lemma FewSearches(c: Config, list: seq<int>, s: Rebuild, i: nat)
    requires RebuildInv(c, list, s) && |list| <= Size(c) && i < |list| && s.moves[i].Search?
    ensures s.moves[i].k < Size(c)
  {
    MoveIs(c, list, s, i);
    SumBounds(Searching(s.moves), i, 1);
    FreeSlot(s.keys);
    ProbingEnds(c, s.keys, list[i]);
    hide RebuildInv, Size, Spot;
  }

  // The whole rebuild.

  function Emptied(c: Config, indices: seq<int>, n: nat): Rebuild
  {
    Rebuild(seq(Size(c), _ => EMPTY), indices, seq(n, _ => Search(0)))
  }

  lemma EmptiedInv(c: Config, list: seq<int>, indices: seq<int>)
    requires ListOk(list) && |indices| == Size(c)
    ensures RebuildInv(c, list, Emptied(c, indices, |list|))
  {
    hide Spot, Size;
    var s := Emptied(c, indices, |list|);
    SumZero(Marks(s.keys));
    AllOnes(Searching(s.moves));
  }

  lemma {:induction false} AllOnes(w: seq<nat>)
    requires forall i :: 0 <= i < |w| ==> w[i] == 1
    ensures Sum(w) == |w|
  {
    if w != [] {
      AllOnes(w[1..]);
    }
  }

  ghost predicate Through(s: Rebuild)
  {
    forall i :: 0 <= i < |s.moves| ==> s.moves[i].Restored?
  }

  /** Whatever the interleaving, when all threads are through the table is at rest with the list it had:
      no key and no number has changed. */
  lemma RebuildRests(c: Config, active: seq<int>, cnt: nat, indices: seq<int>, schedule: seq<nat>)
    requires |active| == |indices| == Size(c) && cnt <= |active| && ListOk(active[..cnt])
    requires forall k :: 0 <= k < |schedule| ==> schedule[k] < cnt
    ensures RebuildInv(c, active[..cnt], Emptied(c, indices, cnt))
    ensures var r := Run(c, active[..cnt], Emptied(c, indices, cnt), schedule);
            Through(r) ==> Rest(c, r.keys, r.indices, active, cnt)
  {
    EmptiedInv(c, active[..cnt], indices);
    var r := Run(c, active[..cnt], Emptied(c, indices, cnt), schedule);
    if Through(r) {
      ThroughRests(c, active, cnt, r);
    }
  }

  lemma ThroughRests(c: Config, active: seq<int>, cnt: nat, r: Rebuild)
    requires |active| == Size(c) && cnt <= |active| && RebuildInv(c, active[..cnt], r) && Through(r)
    ensures Rest(c, r.keys, r.indices, active, cnt)
  {
    var list := active[..cnt];
    SumZero(Searching(r.moves));
    hide TableOk, Sum, Marks, Behind;
    forall p: nat | p < |r.keys|
      ensures Entry(r.keys, r.indices, active, cnt, p)
    {
      assert SlotFilled(r, p);
      if r.keys[p] != EMPTY {
        var i: nat :| FilledBy(r, p, i);
        assert MoveOk(c, list, r, i);
      }
    }
    forall n: nat | n < cnt
      ensures Used(r.keys, r.indices, n)
    {
      assert MoveOk(c, list, r, n);
      assert UsedAt(r.keys, r.indices, n, r.moves[n].p);
    }
  }

  /** `resize` to a larger table, from one at rest to one at rest: `more` is what stands in the new
      part of the list. */
  lemma ResizeRests(c: Config, keys: seq<int>, indices: seq<int>, active: seq<int>, cnt: nat, c': Config,
      more: seq<int>, indices': seq<int>, schedule: seq<nat>)
    requires Rest(c, keys, indices, active, cnt) && Size(c) < Size(c') == |indices'| == |active + more|
    requires forall k :: 0 <= k < |schedule| ==> schedule[k] < cnt
    ensures cnt <= |active| && ListOk(active[..cnt]) && (active + more)[..cnt] == active[..cnt]
    ensures RebuildInv(c', active[..cnt], Emptied(c', indices', cnt))
    ensures var r := Run(c', active[..cnt], Emptied(c', indices', cnt), schedule);
            Through(r) ==>
              && Rest(c', r.keys, r.indices, active + more, cnt)
              && forall k :: k != EMPTY ==> (k in r.keys <==> k in keys)
  {
    hide Rest, RebuildInv, Run, Size;
    RestKeys(c, keys, indices, active, cnt);
    assert (active + more)[..cnt] == active[..cnt];
    RebuildRests(c', active + more, cnt, indices', schedule);
    var r := Run(c', active[..cnt], Emptied(c', indices', cnt), schedule);
    if Through(r) {
      RestKeys(c', r.keys, r.indices, active + more, cnt);
    }
  }
}
