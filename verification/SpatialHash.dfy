/** The cells of a box in a uniform grid, in the order in which `Collapse` visits them. */
module CellRanges {
  import Boxes

  /** A grid cell, or an offset between cells. */
  type Cell = seq<int>

  /** `Collapse::iterator::increment`: the last coordinate first, with a carry to the one before. */
  function Increment(it: Cell, ns: Cell, d: nat): (r: Cell)
    requires d < |it| == |ns|
    ensures |r| == |it|
    decreases d
  {
    var n := it[d] + 1;
    if d > 0 && n >= ns[d] then Increment(it[d := 0], ns, d - 1) else it[d := n]
  }

  /** How many values coordinate `d` takes: an extent of 0 counts as 1, but for the first coordinate. */
  function Width(ns: Cell, d: nat): int
    requires d < |ns|
  {
    if d > 0 && ns[d] < 1 then 1 else ns[d]
  }

  ghost predicate Inside(v: Cell, ns: Cell)
  {
    |v| == |ns| && forall d :: 0 <= d < |ns| ==> 0 <= v[d] < Width(ns, d)
  }

  /** All coordinates but the first are in range. */
  ghost predicate Normal(v: Cell, ns: Cell, d: nat)
  {
    d < |v| == |ns| && forall k :: 0 < k <= d ==> 0 <= v[k] < Width(ns, k)
  }

  /** The place of an offset in lexicographic order. */
  function Rank(v: Cell, ns: Cell, d: nat): int
    requires d < |v| == |ns|
  {
    if d == 0 then v[0] else Rank(v, ns, d - 1) * Width(ns, d) + v[d]
  }

  function Volume(ns: Cell, d: nat): int
    requires d < |ns|
  {
    if d == 0 then ns[0] else Volume(ns, d - 1) * Width(ns, d)
  }

  lemma {:induction false} RankPrefix(v: Cell, w: Cell, ns: Cell, d: nat)
    requires d < |v| == |w| == |ns| && forall k :: 0 <= k <= d ==> v[k] == w[k]
    ensures Rank(v, ns, d) == Rank(w, ns, d)
  {
    if d > 0 {
      RankPrefix(v, w, ns, d - 1);
    }
  }

  /** An increment is the next offset in the order. */
  lemma {:induction false} IncrementRank(v: Cell, ns: Cell, d: nat)
    requires Normal(v, ns, d)
    ensures var w := Increment(v, ns, d);
            && Normal(w, ns, d) && Rank(w, ns, d) == Rank(v, ns, d) + 1
            && (w[0] == v[0] || (w[0] == v[0] + 1 && forall k :: 0 < k <= d ==> w[k] == 0))
            && forall k :: d < k < |v| ==> w[k] == v[k]
    decreases d
  {
    if d > 0 {
      var u := v[d := 0];
      RankPrefix(u, v, ns, d - 1);
      if v[d] + 1 >= ns[d] {
        IncrementRank(u, ns, d - 1);
        Carry(Rank(v, ns, d - 1), Width(ns, d), v[d]);
      } else {
        RankPrefix(v[d := v[d] + 1], v, ns, d - 1);
      }
    }
  }

  lemma Carry(r: int, w: int, x: int)
    requires x == w - 1
    ensures (r + 1) * w == r * w + x + 1
  {
  }

  lemma {:induction false} RankBounds(v: Cell, ns: Cell, d: nat)
    requires Normal(v, ns, d) && 0 <= v[0] < ns[0]
    ensures 0 <= Rank(v, ns, d) < Volume(ns, d)
  {
    if d > 0 {
      RankBounds(v, ns, d - 1);
      Fits(Rank(v, ns, d - 1), Volume(ns, d - 1), Width(ns, d), v[d]);
    }
  }

  lemma Fits(r: int, n: int, w: int, x: int)
    requires 0 <= r < n && 0 <= x < w
    ensures 0 <= r * w + x < n * w
  {
    assert (n - r) * w == n * w - r * w;
    assert (n - r - 1) * w >= 0 && r * w >= 0;
    assert (n - r - 1) * w == (n - r) * w - w;
  }

  lemma {:induction false} RankEnd(v: Cell, ns: Cell, d: nat)
    requires d < |v| == |ns| && v[0] == ns[0] && forall k :: 0 < k <= d ==> v[k] == 0
    ensures Rank(v, ns, d) == Volume(ns, d)
  {
    if d > 0 {
      RankEnd(v, ns, d - 1);
    }
  }

  lemma {:induction false} RankInjective(v: Cell, w: Cell, ns: Cell, d: nat)
    requires Normal(v, ns, d) && Normal(w, ns, d) && Rank(v, ns, d) == Rank(w, ns, d)
    ensures forall k :: 0 <= k <= d ==> v[k] == w[k]
  {
    if d > 0 {
      SameDigits(Rank(v, ns, d - 1), Rank(w, ns, d - 1), Width(ns, d), v[d], w[d]);
      RankInjective(v, w, ns, d - 1);
    }
  }

  lemma SameDigits(r: int, s: int, w: int, x: int, y: int)
    requires 0 <= x < w && 0 <= y < w && r * w + x == s * w + y
    ensures r == s && x == y
  {
    assert (r - s) * w == r * w - s * w;
    assert r - s >= 1 ==> (r - s) * w >= w;
    assert r - s <= -1 ==> (r - s) * w <= 0 - w;
  }

  /** A loop over `Collapse(ns)` visits every offset inside the extents exactly once. */
  method Collapse(ns: Cell) returns (locs: seq<Cell>)
    requires |ns| > 0 && ns[0] >= 0
    ensures forall v :: v in locs <==> Inside(v, ns)
    ensures forall i, j :: 0 <= i < j < |locs| ==> locs[i] != locs[j]
  {
    var last := |ns| - 1;
    var it := seq(|ns|, _ => 0);
    var end := it[0 := ns[0]];
    locs := [];
    RankZero(it, ns, last);
    while it != end
      invariant Normal(it, ns, last) && 0 <= it[0] <= ns[0] && (it[0] == ns[0] ==> it == end)
      invariant Rank(it, ns, last) == |locs|
      invariant forall r :: 0 <= r < |locs| ==> Inside(locs[r], ns) && Rank(locs[r], ns, last) == r
      decreases Volume(ns, last) - |locs|
    {
      RankBounds(it, ns, last);
      IncrementRank(it, ns, last);
      var next := Increment(it, ns, last);
      assert next[0] == ns[0] ==> next == end;
      locs := locs + [it];
      it := next;
    }
    RankEnd(it, ns, last);
    forall v | Inside(v, ns)
      ensures v in locs
    {
      RankBounds(v, ns, last);
      var r := Rank(v, ns, last);
      RankInjective(v, locs[r], ns, last);
      assert v == locs[r];
    }
  }

  lemma {:induction false} RankZero(v: Cell, ns: Cell, d: nat)
    requires d < |v| == |ns| && forall k :: 0 <= k <= d ==> v[k] == 0
    ensures Rank(v, ns, d) == 0
  {
    if d > 0 {
      RankZero(v, ns, d - 1);
    }
  }

  function Plus(a: Cell, b: Cell): Cell
    requires |a| == |b|
  {
    seq(|a|, d requires 0 <= d < |a| => a[d] + b[d])
  }

  function Minus(a: Cell, b: Cell): Cell
    requires |a| == |b|
  {
    seq(|a|, d requires 0 <= d < |a| => a[d] - b[d])
  }

  // Boxes.

  /** A box in units of the cell side, as the code scales it before rounding. */
  type Box = Boxes.Box

  ghost predicate IsBox(b: Box, dim: nat)
  {
    Boxes.Ordered(b) && |b.lo| == dim > 0
  }

  /** The least integer not below. */
  function Ceil(x: real): (c: int)
    ensures x <= c as real < x + 1.0
  {
    -((-x).Floor)
  }

  function MinCell(b: Box): Cell
  {
    seq(|b.lo|, d requires 0 <= d < |b.lo| => b.lo[d].Floor)
  }

  function MaxCell(b: Box): Cell
  {
    seq(|b.hi|, d requires 0 <= d < |b.hi| => Ceil(b.hi[d]))
  }

  /** The cell belongs to the box: half-open intervals of cells, of which an empty one counts as
      one cell, but not for the first coordinate. */
  ghost predicate Covers(b: Box, v: Cell)
  {
    |v| == |b.lo| == |b.hi| && forall d :: 0 <= d < |v| ==>
      b.lo[d].Floor <= v[d] && (v[d] < Ceil(b.hi[d]) || (d > 0 && v[d] == b.lo[d].Floor))
  }

  /** On the axis, for a box that is not flat there: the cell `[v, v + 1)` meets the interval. */
  lemma CoversIff(b: Box, v: Cell)
    requires |v| == |b.lo| == |b.hi| && forall d :: 0 <= d < |v| ==> b.lo[d] < b.hi[d]
    ensures Covers(b, v) <==> forall d :: 0 <= d < |v| ==>
              v[d] as real < b.hi[d] && b.lo[d] < v[d] as real + 1.0
  {
    forall d | 0 <= d < |v|
      ensures v[d] < Ceil(b.hi[d]) <==> v[d] as real < b.hi[d]
      ensures b.lo[d].Floor <= v[d] <==> b.lo[d] < v[d] as real + 1.0
    {
    }
  }

  /** The cells of a box. */
  method CellsOf(b: Box) returns (cells: seq<Cell>)
    requires IsBox(b, |b.lo|)
    ensures forall v :: v in cells <==> Covers(b, v)
    ensures forall i, j :: 0 <= i < j < |cells| ==> cells[i] != cells[j]
  {
    var mi, ma := MinCell(b), MaxCell(b);
    Extents(b);
    var locs := Collapse(Minus(ma, mi));
    cells := [];
    hide MinCell, MaxCell, Covers;
    for k := 0 to |locs|
      invariant |cells| == k
      invariant forall r :: 0 <= r < k ==> |locs[r]| == |mi| && cells[r] == Plus(mi, locs[r])
    {
      assert Inside(locs[k], Minus(ma, mi));
      cells := cells + [Plus(mi, locs[k])];
    }
    Translated(b, mi, ma, locs, cells);
  }

  lemma Extents(b: Box)
    requires IsBox(b, |b.lo|)
    ensures |MinCell(b)| == |MaxCell(b)| == |b.lo| && MinCell(b)[0] <= MaxCell(b)[0]
  {
  }

  lemma Translated(b: Box, mi: Cell, ma: Cell, locs: seq<Cell>, cells: seq<Cell>)
    requires IsBox(b, |b.lo|) && mi == MinCell(b) && ma == MaxCell(b) && |cells| == |locs| && |mi| == |ma| == |b.lo|
    requires forall v :: v in locs <==> Inside(v, Minus(ma, mi))
    requires forall i, j :: 0 <= i < j < |locs| ==> locs[i] != locs[j]
    requires forall r :: 0 <= r < |locs| ==> |locs[r]| == |mi| && cells[r] == Plus(mi, locs[r])
    ensures forall v :: v in cells <==> Covers(b, v)
    ensures forall i, j :: 0 <= i < j < |cells| ==> cells[i] != cells[j]
  {
    hide Inside, MinCell, MaxCell, Covers;
    forall r | 0 <= r < |locs|
      ensures Minus(cells[r], mi) == locs[r] && locs[r] in locs
    {
      Back(mi, locs[r]);
    }
    forall v
      ensures v in cells <==> Covers(b, v)
    {
      Offset(b, v);
      if Covers(b, v) {
        var r :| 0 <= r < |locs| && locs[r] == Minus(v, mi);
        assert cells[r] == v;
      }
    }
  }

  lemma Back(mi: Cell, loc: Cell)
    requires |loc| == |mi|
    ensures Minus(Plus(mi, loc), mi) == loc
  {
  }

  lemma Offset(b: Box, v: Cell)
    requires IsBox(b, |b.lo|) && |MinCell(b)| == |MaxCell(b)| == |b.lo|
    ensures Covers(b, v) ==> |v| == |b.lo|
    ensures |v| == |b.lo| ==> (Covers(b, v) <==> Inside(Minus(v, MinCell(b)), Minus(MaxCell(b), MinCell(b))))
    ensures |v| == |b.lo| ==> Plus(MinCell(b), Minus(v, MinCell(b))) == v
  {
    if |v| == |b.lo| {
      var (x, ns) := (Minus(v, MinCell(b)), Minus(MaxCell(b), MinCell(b)));
      forall d | 0 <= d < |v|
        ensures 0 <= x[d] < Width(ns, d) <==>
                b.lo[d].Floor <= v[d] && (v[d] < Ceil(b.hi[d]) || (d > 0 && v[d] == b.lo[d].Floor))
      {
      }
    }
  }

  /** Two boxes have a cell in common exactly if in each direction their rounded intervals meet. */
  lemma SharedIff(a: Box, b: Box, dim: nat)
    requires IsBox(a, dim) && IsBox(b, dim)
    ensures (exists v :: Covers(a, v) && Covers(b, v)) <==>
            forall d :: 0 <= d < dim ==> Meets(a, b, d) && Meets(b, a, d)
  {
    if forall d :: 0 <= d < dim ==> Meets(a, b, d) && Meets(b, a, d) {
      var v := seq(dim, d requires 0 <= d < dim =>
          if a.lo[d].Floor < b.lo[d].Floor then b.lo[d].Floor else a.lo[d].Floor);
      forall d | 0 <= d < dim
        ensures a.lo[d].Floor <= v[d] && (v[d] < Ceil(a.hi[d]) || (d > 0 && v[d] == a.lo[d].Floor))
        ensures b.lo[d].Floor <= v[d] && (v[d] < Ceil(b.hi[d]) || (d > 0 && v[d] == b.lo[d].Floor))
      {
        assert Meets(a, b, d) && Meets(b, a, d);
      }
      assert Covers(a, v) && Covers(b, v);
    }
    if v :| Covers(a, v) && Covers(b, v) {
      forall d | 0 <= d < dim
        ensures Meets(a, b, d) && Meets(b, a, d)
      {
        assert a.lo[d].Floor <= v[d] && b.lo[d].Floor <= v[d];
      }
    }
  }

  /** The first cell of `a` lies before the end of `b`; in the first direction `a` must have one. */
  predicate Meets(a: Box, b: Box, d: nat)
    requires d < |a.lo| == |a.hi| && d < |b.lo| == |b.hi|
  {
    if d == 0 then a.lo[0].Floor < Ceil(b.hi[0]) && a.lo[0].Floor < Ceil(a.hi[0])
    else a.lo[d].Floor < Ceil(b.hi[d]) || a.lo[d].Floor <= b.lo[d].Floor
  }

  /** Boxes that overlap in every direction, and have some length in the first, share a cell. */
  lemma Overlapping(a: Box, b: Box, dim: nat)
    requires IsBox(a, dim) && IsBox(b, dim) && a.lo[0] < a.hi[0] && b.lo[0] < b.hi[0]
    requires forall d :: 0 <= d < dim ==> a.lo[d] < b.hi[d] && b.lo[d] < a.hi[d]
    ensures exists v :: Covers(a, v) && Covers(b, v)
  {
    SharedIff(a, b, dim);
  }

  /** Touching is not enough: boxes that share only a face in a grid plane share no cell, and a
      box that lies flat in a grid plane across the first direction has no cell at all. */
  lemma TouchingMissed(v: Cell)
    ensures !(Covers(Boxes.Box([0.0], [1.0]), v) && Covers(Boxes.Box([1.0], [2.0]), v))
    ensures !Covers(Boxes.Box([1.0, 0.0], [1.0, 2.0]), v)
    ensures Covers(Boxes.Box([0.0, 1.0], [2.0, 1.0]), [0, 1])
  {
    var (a, b, c) := (Boxes.Box([0.0], [1.0]), Boxes.Box([1.0], [2.0]), Boxes.Box([1.0, 0.0], [1.0, 2.0]));
    assert a.hi[0] == b.lo[0] == c.lo[0] == c.hi[0] == 1.0 && Ceil(1.0) == 1;
  }
}

/** The counting and filling passes of `build`. Thread `i` handles the cells of primitive `i` one
    after the other; every atomic addition and every plain write is one step, and the steps of all
    threads interleave freely. `work[i]` are the numbers of the cells of primitive `i`. */
module SpatialFill {
  import opened Sums

  type Work = seq<seq<nat>>

  ghost predicate WorkOk(work: Work, n: nat)
  {
    forall i, k :: 0 <= i < |work| && 0 <= k < |work[i]| ==> work[i][k] < n
  }

  /** How often a cell occurs in a list. */
  function Occ(w: seq<nat>, c: nat): nat
  {
    if w == [] then 0 else (if w[0] == c then 1 else 0) + Occ(w[1..], c)
  }

  /** What is still to do for a cell, thread for thread. */
  function Left(work: Work, done: seq<nat>, c: nat): seq<nat>
    requires |done| == |work| && forall i :: 0 <= i < |work| ==> done[i] <= |work[i]|
  {
    seq(|work|, i requires 0 <= i < |work| => Occ(work[i][done[i]..], c))
  }

  function Zeros(n: nat): seq<nat>
  {
    seq(n, _ => 0)
  }

  /** How many primitives have the cell. */
  function Total(work: Work, c: nat): nat
  {
    Sum(Left(work, Zeros(|work|), c))
  }

  /** Where the segment of a cell starts. */
  function Start(work: Work, c: nat): nat
  {
    if c == 0 then 0 else Start(work, c - 1) + Total(work, c - 1)
  }

  ghost predicate Progress(work: Work, done: seq<nat>)
  {
    |done| == |work| && forall i :: 0 <= i < |work| ==> done[i] <= |work[i]|
  }

  /** One more cell of one thread is done. */
  lemma LeftStep(work: Work, done: seq<nat>, i: nat, c: nat)
    requires Progress(work, done) && i < |work| && done[i] < |work[i]|
    ensures Progress(work, done[i := done[i] + 1])
    ensures Sum(Left(work, done[i := done[i] + 1], c)) + (if work[i][done[i]] == c then 1 else 0) ==
            Sum(Left(work, done, c))
  {
    var (w, w') := (Left(work, done, c), Left(work, done[i := done[i] + 1], c));
    assert work[i][done[i]..][1..] == work[i][done[i] + 1..];
    SumUpdate(w, i, w'[i]);
    assert w' == w[i := w'[i]];
  }

  lemma LeftNone(work: Work, done: seq<nat>, c: nat)
    requires Progress(work, done) && forall i :: 0 <= i < |work| ==> done[i] == |work[i]|
    ensures Sum(Left(work, done, c)) == 0
  {
    SumZero(Left(work, done, c));
  }

  // The counting pass.

  datatype Counting = Counting(counts: seq<int>, done: seq<nat>)

  ghost predicate CountInv(work: Work, n: nat, s: Counting)
  {
    && WorkOk(work, n) && Progress(work, s.done) && |s.counts| == n + 1 && s.counts[n] == 0
    && forall c: nat :: c < n ==> s.counts[c] + Sum(Left(work, s.done, c)) == Total(work, c)
  }

  /** `atomic_add(&counts[cno], 1)`. */
  ghost function CountStep(work: Work, n: nat, s: Counting, i: nat): Counting
    requires CountInv(work, n, s) && i < |work|
  {
    if s.done[i] == |work[i]| then s
    else
      var c := work[i][s.done[i]];
      Counting(s.counts[c := s.counts[c] + 1], s.done[i := s.done[i] + 1])
  }

  lemma CountStepKeeps(work: Work, n: nat, s: Counting, i: nat)
    requires CountInv(work, n, s) && i < |work|
    ensures CountInv(work, n, CountStep(work, n, s, i))
  {
    var s' := CountStep(work, n, s, i);
    if s.done[i] < |work[i]| {
      hide Sum, Left, Total;
      forall c: nat | c < n
        ensures Progress(work, s'.done) && s'.counts[c] + Sum(Left(work, s'.done, c)) == Total(work, c)
      {
        LeftStep(work, s.done, i, c);
      }
    }
  }

  ghost function CountRun(work: Work, n: nat, s: Counting, schedule: seq<nat>): (r: Counting)
    requires CountInv(work, n, s) && forall k :: 0 <= k < |schedule| ==> schedule[k] < |work|
    ensures CountInv(work, n, r)
    decreases |schedule|
  {
    if schedule == [] then s
    else
      CountStepKeeps(work, n, s, schedule[0]);
      CountRun(work, n, CountStep(work, n, s, schedule[0]), schedule[1..])
  }

  function CountBegin(work: Work, n: nat): Counting
  {
    Counting(seq(n + 1, _ => 0), Zeros(|work|))
  }

  lemma CountBegins(work: Work, n: nat)
    requires WorkOk(work, n)
    ensures CountInv(work, n, CountBegin(work, n))
  {
  }

  ghost function CountPass(work: Work, n: nat, schedule: seq<nat>): (r: Counting)
    requires WorkOk(work, n) && forall k :: 0 <= k < |schedule| ==> schedule[k] < |work|
    ensures CountInv(work, n, r)
  {
    CountBegins(work, n);
    CountRun(work, n, CountBegin(work, n), schedule)
  }

  predicate Counted(work: Work, s: Counting)
    requires |s.done| == |work|
  {
    forall i :: 0 <= i < |work| ==> s.done[i] == |work[i]|
  }

  /** Steps that a thread of the counting pass still takes. */
  function CountLeft(work: Work, s: Counting, i: nat): int
    requires i < |work| == |s.done|
  {
    |work[i]| - s.done[i]
  }

  /** Every step of a thread that is not through takes it on by one, and the others stay where they
      are; with nothing left a thread is through. */
  lemma CountProgress(work: Work, n: nat, s: Counting, i: nat, j: nat)
    requires CountInv(work, n, s) && i < |work| && j < |work|
    ensures var s' := CountStep(work, n, s, i);
            && |s'.done| == |work| && CountLeft(work, s, j) >= 0
            && CountLeft(work, s', j) ==
                if j == i && CountLeft(work, s, i) > 0 then CountLeft(work, s, j) - 1 else CountLeft(work, s, j)
    ensures |s.done| == |work| && (CountLeft(work, s, j) == 0 <==> s.done[j] == |work[j]|)
  {
    hide Sum, Left, Total;
  }

  /** In every interleaving each counter ends as the number of primitives that have its cell. */
  lemma CountedTotals(work: Work, n: nat, s: Counting)
    requires CountInv(work, n, s) && Counted(work, s)
    ensures forall c: nat :: c < n ==> s.counts[c] == Total(work, c)
  {
    forall c: nat | c < n
      ensures s.counts[c] == Total(work, c)
    {
      LeftNone(work, s.done, c);
    }
  }

  /** What the exclusive scan promises. */
  ghost predicate Scanned(offsets: seq<int>, counts: seq<int>)
  {
    |offsets| == |counts| > 0 && offsets[0] == 0 && forall c :: 0 <= c < |counts| - 1 ==>
        offsets[c + 1] == offsets[c] + counts[c]
  }

  lemma {:induction false} ScannedStarts(work: Work, offsets: seq<int>, counts: seq<int>, c: nat)
    requires Scanned(offsets, counts) && c < |counts| && forall d: nat :: d < |counts| - 1 ==>
             counts[d] == Total(work, d)
    ensures offsets[c] == Start(work, c)
  {
    if c > 0 {
      ScannedStarts(work, offsets, counts, c - 1);
      assert offsets[c - 1 + 1] == offsets[c - 1] + counts[c - 1];
    }
  }

  lemma {:induction false} StartsGrow(work: Work, c: nat, d: nat)
    requires c < d
    ensures Start(work, c) + Total(work, c) <= Start(work, d)
  {
    if c + 1 < d {
      StartsGrow(work, c, d - 1);
    }
  }

  // The filling pass.

  datatype Pc = Draw(k: nat) | Put(k: nat, no: int)

  /** `nos[i][k]` is the number that primitive `i` has drawn in its `k`th cell. */
  datatype Filling = Filling(counts: seq<int>, slots: seq<int>, pcs: seq<Pc>, nos: seq<seq<int>>)

  function Drawn(s: Filling): seq<nat>
  {
    seq(|s.nos|, i requires 0 <= i < |s.nos| => |s.nos[i]|)
  }

  ghost predicate Shape(work: Work, n: nat, s: Filling)
  {
    && WorkOk(work, n) && |s.counts| == n + 1 && |s.pcs| == |s.nos| == |work| && |s.slots| == Start(work, n)
    && forall i :: 0 <= i < |work| ==>
         && |s.nos[i]| <= |work[i]|
         && (s.pcs[i].Draw? ==> |s.nos[i]| == s.pcs[i].k)
         && (s.pcs[i].Put? ==> |s.nos[i]| == s.pcs[i].k + 1 && s.nos[i][s.pcs[i].k] == s.pcs[i].no)
  }

  /** Primitive `i` has drawn a number in its `k`th cell. */
  predicate Has(s: Filling, i: int, k: int)
  {
    0 <= i < |s.nos| && 0 <= k < |s.nos[i]|
  }

  /** The numbers drawn in a cell are the top ones, and what is drawn and written is in its slot. */
  ghost predicate EntryOk(work: Work, n: nat, s: Filling, i: nat, k: nat)
    requires Shape(work, n, s) && Has(s, i, k)
  {
    var c := work[i][k];
    && 0 <= s.counts[c] <= s.nos[i][k] < Total(work, c)
    && Start(work, c) + s.nos[i][k] < |s.slots|
    && (k < s.pcs[i].k ==> s.slots[Start(work, c) + s.nos[i][k]] == i)
  }

  /** No number is drawn twice in a cell. */
  ghost predicate Apart(work: Work, n: nat, s: Filling, i: nat, k: nat, j: nat, l: nat)
    requires Shape(work, n, s) && Has(s, i, k) && Has(s, j, l)
  {
    (i != j || k != l) && work[i][k] == work[j][l] ==> s.nos[i][k] != s.nos[j][l]
  }

  ghost predicate TakenBy(work: Work, n: nat, s: Filling, c: nat, p: int, i: nat, k: nat)
    requires Shape(work, n, s)
  {
    Has(s, i, k) && work[i][k] == c && s.nos[i][k] == p
  }

  ghost predicate Taken(work: Work, n: nat, s: Filling, c: nat, p: int)
    requires Shape(work, n, s)
  {
    exists i: nat, k: nat :: TakenBy(work, n, s, c, p, i, k)
  }

  ghost predicate FillInv(work: Work, n: nat, s: Filling)
  {
    && Shape(work, n, s) && Progress(work, Drawn(s))
    && (forall c: nat :: c < n ==> s.counts[c] == Sum(Left(work, Drawn(s), c)))
    && (forall i: nat, k: nat :: Has(s, i, k) ==> EntryOk(work, n, s, i, k))
    && (forall i: nat, k: nat, j: nat, l: nat :: Has(s, i, k) && Has(s, j, l) ==> Apart(work, n, s, i, k, j, l))
    && (forall c: nat, p: int :: c < n && s.counts[c] <= p < Total(work, c) ==> Taken(work, n, s, c, p))
  }

  /** `atomic_add(&counts[cno], -1) - 1`, then the write to the slot of that number. */
  ghost function FillStep(work: Work, n: nat, s: Filling, i: nat): Filling
    requires FillInv(work, n, s) && i < |work|
  {
    match s.pcs[i]
    case Draw(k) =>
      if k == |work[i]| then s
      else
        var c := work[i][k];
        s.(counts := s.counts[c := s.counts[c] - 1], pcs := s.pcs[i := Put(k, s.counts[c] - 1)],
           nos := s.nos[i := s.nos[i] + [s.counts[c] - 1]])
    case Put(k, no) =>
      assert Has(s, i, k) && EntryOk(work, n, s, i, k);
      s.(slots := s.slots[Start(work, work[i][k]) + no := i], pcs := s.pcs[i := Draw(k + 1)])
  }

  lemma {:induction false} OccSuffix(w: seq<nat>, k: nat, c: nat)
    requires k <= |w|
    ensures Occ(w[k..], c) <= Occ(w, c)
    ensures k < |w| && w[k] == c ==> Occ(w[k..], c) >= 1
  {
    if k > 0 {
      assert w[k..] == w[1..][k - 1..];
      OccSuffix(w[1..], k - 1, c);
    }
  }

  /** A cell still to be handled has a number left, and never more than the total. */
  lemma Remaining(work: Work, done: seq<nat>, i: nat, c: nat)
    requires Progress(work, done) && i < |work|
    ensures Sum(Left(work, done, c)) <= Total(work, c)
    ensures done[i] < |work[i]| && work[i][done[i]] == c ==> Sum(Left(work, done, c)) >= 1
  {
    forall j | 0 <= j < |work|
      ensures Left(work, done, c)[j] <= Left(work, Zeros(|work|), c)[j]
    {
      OccSuffix(work[j], done[j], c);
      assert work[j][0..] == work[j];
    }
    SumOrder(Left(work, done, c), Left(work, Zeros(|work|), c));
    OccSuffix(work[i], done[i], c);
    SumHolds(Left(work, done, c), i);
  }

  // A step that draws a number.

  lemma DrawFacts(work: Work, n: nat, s: Filling, i: nat, c: nat)
    requires FillInv(work, n, s) && i < |work| && s.pcs[i].Draw? && s.pcs[i].k < |work[i]| && c == work[i][s.pcs[i].k]
    ensures c < n && 1 <= s.counts[c] <= Total(work, c) && Shape(work, n, FillStep(work, n, s, i))
    ensures Start(work, c) + Total(work, c) <= Start(work, n)
    ensures Drawn(FillStep(work, n, s, i)) == Drawn(s)[i := Drawn(s)[i] + 1]
  {
    Remaining(work, Drawn(s), i, c);
    StartsGrow(work, c, n);
    hide EntryOk, Apart, Taken, Left, Sum, Total;
  }

  lemma DrawEntry(work: Work, n: nat, s: Filling, i: nat, j: nat, l: nat)
    requires FillInv(work, n, s) && i < |work| && s.pcs[i].Draw? && s.pcs[i].k < |work[i]|
    requires Shape(work, n, FillStep(work, n, s, i)) && Has(FillStep(work, n, s, i), j, l)
    ensures EntryOk(work, n, FillStep(work, n, s, i), j, l)
  {
    DrawFacts(work, n, s, i, work[i][s.pcs[i].k]);
    assert Has(s, j, l) ==> EntryOk(work, n, s, j, l);
    hide FillInv, Left, Sum, Total, Start;
  }

  lemma DrawApart(work: Work, n: nat, s: Filling, i: nat, j: nat, l: nat, g: nat, h: nat)
    requires FillInv(work, n, s) && i < |work| && s.pcs[i].Draw? && s.pcs[i].k < |work[i]|
    requires Shape(work, n, FillStep(work, n, s, i)) && Has(FillStep(work, n, s, i), j, l)
             && Has(FillStep(work, n, s, i), g, h)
    ensures Apart(work, n, FillStep(work, n, s, i), j, l, g, h)
  {
    assert Has(s, j, l) && Has(s, g, h) ==> Apart(work, n, s, j, l, g, h);
    assert Has(s, j, l) ==> EntryOk(work, n, s, j, l);
    assert Has(s, g, h) ==> EntryOk(work, n, s, g, h);
    hide FillInv, Left, Sum, Total, Start;
  }

  lemma DrawTaken(work: Work, n: nat, s: Filling, i: nat, c: nat, p: int)
    requires FillInv(work, n, s) && i < |work| && s.pcs[i].Draw? && s.pcs[i].k < |work[i]| && c < n
    requires Shape(work, n, FillStep(work, n, s, i)) && FillStep(work, n, s, i).counts[c] <= p < Total(work, c)
    ensures Taken(work, n, FillStep(work, n, s, i), c, p)
  {
    var s' := FillStep(work, n, s, i);
    if s.counts[c] <= p {
      assert Taken(work, n, s, c, p);
      var j: nat, l: nat :| TakenBy(work, n, s, c, p, j, l);
      hide FillInv, Left, Sum, Total, Start;
      assert TakenBy(work, n, s', c, p, j, l);
    } else {
      hide FillInv, Left, Sum, Total, Start;
      assert TakenBy(work, n, s', c, p, i, s.pcs[i].k);
    }
  }

  lemma DrawKeeps(work: Work, n: nat, s: Filling, i: nat)
    requires FillInv(work, n, s) && i < |work| && s.pcs[i].Draw? && s.pcs[i].k < |work[i]|
    ensures FillInv(work, n, FillStep(work, n, s, i))
  {
    var s' := FillStep(work, n, s, i);
    DrawFacts(work, n, s, i, work[i][s.pcs[i].k]);
    forall c: nat | c < n
      ensures Progress(work, Drawn(s')) && s'.counts[c] == Sum(Left(work, Drawn(s'), c))
    {
      hide EntryOk, Apart, Taken, Left, Sum, Total;
      LeftStep(work, Drawn(s), i, c);
    }
    forall j: nat, l: nat | Has(s', j, l)
      ensures EntryOk(work, n, s', j, l)
    {
      DrawEntry(work, n, s, i, j, l);
    }
    forall j: nat, l: nat, g: nat, h: nat | Has(s', j, l) && Has(s', g, h)
      ensures Apart(work, n, s', j, l, g, h)
    {
      DrawApart(work, n, s, i, j, l, g, h);
    }
    forall c: nat, p: int | c < n && s'.counts[c] <= p < Total(work, c)
      ensures Taken(work, n, s', c, p)
    {
      DrawTaken(work, n, s, i, c, p);
    }
    hide EntryOk, Apart, Taken, Left, Sum, Total, FillStep, Has;
  }

  // A step that writes a slot.

  /** Different numbers drawn stand for different slots: every slot is written once. */
  lemma SlotApart(work: Work, n: nat, s: Filling, i: nat, k: nat, j: nat, l: nat)
    requires FillInv(work, n, s) && Has(s, i, k) && Has(s, j, l) && (i != j || k != l)
    ensures Start(work, work[i][k]) + s.nos[i][k] != Start(work, work[j][l]) + s.nos[j][l]
  {
    assert EntryOk(work, n, s, i, k) && EntryOk(work, n, s, j, l) && Apart(work, n, s, i, k, j, l);
    var (c, d) := (work[i][k], work[j][l]);
    if c < d {
      StartsGrow(work, c, d);
    } else if d < c {
      StartsGrow(work, d, c);
    }
    hide FillInv, Total, Start;
  }

  lemma PutKeeps(work: Work, n: nat, s: Filling, i: nat)
    requires FillInv(work, n, s) && i < |work| && s.pcs[i].Put?
    ensures FillInv(work, n, FillStep(work, n, s, i))
  {
    var (s', k) := (FillStep(work, n, s, i), s.pcs[i].k);
    assert Has(s, i, k) && EntryOk(work, n, s, i, k);
    assert Drawn(s') == Drawn(s);
    forall j: nat, l: nat | Has(s', j, l)
      ensures EntryOk(work, n, s', j, l)
    {
      assert Has(s, j, l) && EntryOk(work, n, s, j, l);
      hide Left, Sum, Total, Start;
      if j != i || l != k {
        SlotApart(work, n, s, i, k, j, l);
      }
    }
    forall j: nat, l: nat, g: nat, h: nat | Has(s', j, l) && Has(s', g, h)
      ensures Apart(work, n, s', j, l, g, h)
    {
      assert Has(s, j, l) && Has(s, g, h) && Apart(work, n, s, j, l, g, h);
    }
    forall c: nat, p: int | c < n && s'.counts[c] <= p < Total(work, c)
      ensures Taken(work, n, s', c, p)
    {
      assert Taken(work, n, s, c, p);
      var j: nat, l: nat :| TakenBy(work, n, s, c, p, j, l);
      assert TakenBy(work, n, s', c, p, j, l);
    }
    hide EntryOk, Apart, Taken, Left, Sum, Total, Has;
  }

  lemma FillStepKeeps(work: Work, n: nat, s: Filling, i: nat)
    requires FillInv(work, n, s) && i < |work|
    ensures FillInv(work, n, FillStep(work, n, s, i))
  {
    hide EntryOk, Apart, Taken, Left, Sum, Total;
    if s.pcs[i].Put? {
      PutKeeps(work, n, s, i);
    } else if s.pcs[i].k < |work[i]| {
      DrawKeeps(work, n, s, i);
    }
  }

  // Whole passes.

  ghost function FillRun(work: Work, n: nat, s: Filling, schedule: seq<nat>): (r: Filling)
    requires FillInv(work, n, s) && forall k :: 0 <= k < |schedule| ==> schedule[k] < |work|
    ensures FillInv(work, n, r)
    decreases |schedule|
  {
    if schedule == [] then s
    else
      FillStepKeeps(work, n, s, schedule[0]);
      FillRun(work, n, FillStep(work, n, s, schedule[0]), schedule[1..])
  }

  ghost predicate FillBegun(work: Work, n: nat, s: Filling)
  {
    && WorkOk(work, n) && |s.counts| == n + 1 && |s.slots| == Start(work, n) && |s.pcs| == |s.nos| == |work|
    && (forall i :: 0 <= i < |work| ==> s.pcs[i] == Draw(0) && s.nos[i] == [])
    && forall c: nat :: c < n ==> s.counts[c] == Total(work, c)
  }

  lemma FillBegins(work: Work, n: nat, s: Filling)
    requires FillBegun(work, n, s)
    ensures FillInv(work, n, s)
  {
    assert Drawn(s) == Zeros(|work|);
    hide Sum, Left, Start;
  }

  predicate Finished(work: Work, s: Filling)
  {
    |s.pcs| == |work| && forall i :: 0 <= i < |work| ==> s.pcs[i] == Draw(|work[i]|)
  }

  /** Steps that a thread of the filling pass still takes. */
  function FillLeft(work: Work, s: Filling, i: nat): int
    requires i < |work| == |s.pcs|
  {
    match s.pcs[i]
    case Draw(k) => 2 * (|work[i]| - k)
    case Put(k, _) => 2 * (|work[i]| - k) - 1
  }

  /** The same for the filling pass. */
  lemma FillProgress(work: Work, n: nat, s: Filling, i: nat, j: nat)
    requires FillInv(work, n, s) && i < |work| && j < |work|
    ensures var s' := FillStep(work, n, s, i);
            && |s.pcs| == |s'.pcs| == |work| && FillLeft(work, s, j) >= 0
            && FillLeft(work, s', j) ==
                if j == i && FillLeft(work, s, i) > 0 then FillLeft(work, s, j) - 1 else FillLeft(work, s, j)
    ensures |s.pcs| == |work| && (FillLeft(work, s, j) == 0 <==> s.pcs[j] == Draw(|work[j]|))
  {
    hide Sum, Left, Total, Start, EntryOk, Apart, Taken, Progress;
  }

  /** A segment holds exactly the primitives that have the cell, each once. */
  ghost predicate Grouped(work: Work, c: nat, segment: seq<int>)
  {
    && (forall i: nat :: i in segment <==> i < |work| && c in work[i])
    && (forall p :: 0 <= p < |segment| ==> segment[p] >= 0)
    && forall p, q :: 0 <= p < q < |segment| ==> segment[p] != segment[q]
  }

  ghost predicate NoRepeats(w: seq<nat>)
  {
    forall k, l :: 0 <= k < l < |w| ==> w[k] != w[l]
  }

  /** Every slot of a segment has been written by one of the threads that have the cell. */
  lemma SlotWritten(work: Work, n: nat, s: Filling, c: nat, p: nat) returns (i: nat, k: nat)
    requires FillInv(work, n, s) && Finished(work, s) && c < n && p < Total(work, c)
    ensures Has(s, i, k) && i < |work| && k < |work[i]| && work[i][k] == c && s.nos[i][k] == p
    ensures Start(work, c) + p < |s.slots| && s.slots[Start(work, c) + p] == i
  {
    LeftNone(work, Drawn(s), c);
    assert Taken(work, n, s, c, p);
    i, k :| TakenBy(work, n, s, c, p, i, k);
    assert EntryOk(work, n, s, i, k);
  }

  /** Two slots of a segment belong to different primitives. */
  lemma SlotsDiffer(work: Work, n: nat, s: Filling, c: nat, p: nat, q: nat)
    requires FillInv(work, n, s) && Finished(work, s) && c < n && p < q < Total(work, c)
             && forall i :: 0 <= i < |work| ==> NoRepeats(work[i])
    ensures Start(work, c) + q < |s.slots| && s.slots[Start(work, c) + p] != s.slots[Start(work, c) + q]
  {
    var i, k := SlotWritten(work, n, s, c, p);
    var j, l := SlotWritten(work, n, s, c, q);
    hide FillInv, Start, Total, Finished;
    if i == j {
      SamePlace(work[i], k, l);
    }
  }

  lemma SamePlace(w: seq<nat>, k: nat, l: nat)
    requires NoRepeats(w) && k < |w| && l < |w| && w[k] == w[l]
    ensures k == l
  {
  }

  /** A primitive has a slot in the segment of each of its cells. */
  lemma HasSlot(work: Work, n: nat, s: Filling, i: nat, k: nat)
    requires FillInv(work, n, s) && Finished(work, s) && i < |work| && k < |work[i]|
    ensures Has(s, i, k) && 0 <= s.nos[i][k] < Total(work, work[i][k])
    ensures Start(work, work[i][k]) + s.nos[i][k] < |s.slots| && s.slots[Start(work, work[i][k]) + s.nos[i][k]] == i
  {
    assert Has(s, i, k) && EntryOk(work, n, s, i, k);
    hide Start, Total, Left, Sum;
  }

  lemma SegmentFits(work: Work, n: nat, s: Filling, c: nat)
    requires FillInv(work, n, s) && c < n
    ensures Start(work, c + 1) == Start(work, c) + Total(work, c) && Start(work, c + 1) <= |s.slots|
  {
    hide Total;
    if c + 1 < n {
      StartsGrow(work, c + 1, n);
    }
  }

  /** The slots of a cell. */
  function Segment(work: Work, slots: seq<int>, c: nat): seq<int>
  {
    if Start(work, c) <= Start(work, c + 1) <= |slots| then slots[Start(work, c)..Start(work, c + 1)] else []
  }

  lemma SegmentAt(work: Work, n: nat, s: Filling, c: nat)
    requires FillInv(work, n, s) && c < n
    ensures |Segment(work, s.slots, c)| == Total(work, c)
    ensures forall p :: 0 <= p < Total(work, c) ==>
            Start(work, c) + p < |s.slots| && Segment(work, s.slots, c)[p] == s.slots[Start(work, c) + p]
  {
    SegmentFits(work, n, s, c);
    hide FillInv, Start, Total;
  }

  lemma FilledGrouped(work: Work, n: nat, s: Filling, c: nat)
    requires FillInv(work, n, s) && Finished(work, s) && c < n && forall i :: 0 <= i < |work| ==> NoRepeats(work[i])
    ensures Grouped(work, c, Segment(work, s.slots, c))
  {
    hide FillInv, Finished, Start, Total, NoRepeats, Segment;
    var segment := Segment(work, s.slots, c);
    SegmentAt(work, n, s, c);
    forall p: nat | p < |segment|
      ensures 0 <= segment[p] < |work| && c in work[segment[p]]
    {
      var i, k := SlotWritten(work, n, s, c, p);
    }
    forall p: nat, q: nat | p < q < |segment|
      ensures segment[p] != segment[q]
    {
      SlotsDiffer(work, n, s, c, p, q);
    }
    forall i: nat | i < |work| && c in work[i]
      ensures i in segment
    {
      var k: nat :| k < |work[i]| && work[i][k] == c;
      HasSlot(work, n, s, i, k);
      assert segment[s.nos[i][k]] == i;
    }
  }

  /** Whatever the interleaving, the segment of every cell holds exactly the primitives that have
      the cell, each once. */
  lemma Filled(work: Work, n: nat, s: Filling, schedule: seq<nat>, c: nat)
    requires FillBegun(work, n, s) && forall k :: 0 <= k < |schedule| ==> schedule[k] < |work|
    requires c < n && forall i :: 0 <= i < |work| ==> NoRepeats(work[i])
    ensures FillInv(work, n, s)
    ensures var r := FillRun(work, n, s, schedule);
            Finished(work, r) ==> Grouped(work, c, Segment(work, r.slots, c))
  {
    FillBegins(work, n, s);
    var r := FillRun(work, n, s, schedule);
    if Finished(work, r) {
      FilledGrouped(work, n, r, c);
    }
  }
}

/** The spatial hash: cells numbered by the table of cells, primitives grouped by cell, and the
    two queries. */
module SpatialHashes {
  import opened BhtTable
  import opened Buckets
  import opened CellRanges
  import opened SpatialFill

  /** The table of cells: the cells of the primitives, each with its own number below `n`. */
  ghost predicate Numbers(number: map<Cell, nat>, n: nat, prims: seq<Box>)
  {
    && (forall v :: v in number <==> exists i :: 0 <= i < |prims| && Covers(prims[i], v))
    && (forall v :: v in number ==> number[v] < n)
    && forall v, w :: v in number && w in number && v != w ==> number[v] != number[w]
  }

  /** The cell numbers of one primitive. */
  ghost predicate WorkOf(number: map<Cell, nat>, b: Box, w: seq<nat>)
  {
    && NoRepeats(w)
    && (forall v :: Covers(b, v) ==> v in number && number[v] in w)
    && forall c :: c in w ==> exists v :: Covers(b, v) && v in number && number[v] == c
  }

  /** The loop over a primitive's cells, common to the passes of `build`: each cell is looked up. */
  method NumbersOf(ghost prims: seq<Box>, number: map<Cell, nat>, ghost n: nat, ghost i: nat,
      b: Box) returns (w: seq<nat>)
    requires Numbers(number, n, prims) && i < |prims| && b == prims[i] && IsBox(b, |b.lo|)
    ensures WorkOf(number, b, w) && forall k :: 0 <= k < |w| ==> w[k] < n
  {
    var cells := CellsOf(b);
    hide Covers, IsBox;
    w := [];
    for k := 0 to |cells|
      invariant |w| == k && forall r :: 0 <= r < k ==> cells[r] in number && w[r] == number[cells[r]]
    {
      assert cells[k] in cells && Covers(prims[i], cells[k]);
      w := w + [number[cells[k]]];
    }
    forall v | Covers(b, v)
      ensures v in number && number[v] in w
    {
      var r :| 0 <= r < |cells| && cells[r] == v;
      assert w[r] == number[v];
    }
    forall c | c in w
      ensures exists v :: Covers(b, v) && v in number && number[v] == c
    {
      var r :| 0 <= r < |w| && w[r] == c;
      assert cells[r] in cells && Covers(b, cells[r]);
    }
  }

  ghost predicate Works(number: map<Cell, nat>, prims: seq<Box>, work: Work)
  {
    |work| == |prims| && forall i :: 0 <= i < |prims| ==> WorkOf(number, prims[i], work[i])
  }

  /** The segment of a cell: the primitives that have the cell, each once. */
  ghost predicate CellOk(prims: seq<Box>, v: Cell, segment: seq<int>)
  {
    && (forall i: int :: i in segment <==> 0 <= i < |prims| && Covers(prims[i], v))
    && forall p, q :: 0 <= p < q < |segment| ==> segment[p] != segment[q]
  }

  ghost predicate Bounds(offsets: seq<int>, indices: seq<int>, c: nat)
  {
    c + 1 < |offsets| && 0 <= offsets[c] <= offsets[c + 1] <= |indices|
  }

  /** A spatial hash over the primitives. */
  ghost predicate Built(prims: seq<Box>, number: map<Cell, nat>, offsets: seq<int>, indices: seq<int>)
  {
    && (forall v :: v in number <==> exists i :: 0 <= i < |prims| && Covers(prims[i], v))
    && forall v :: v in number ==>
         Bounds(offsets, indices, number[v]) && CellOk(prims, v, indices[offsets[number[v]]..offsets[number[v] + 1]])
  }

  lemma GroupedCell(number: map<Cell, nat>, n: nat, prims: seq<Box>, work: Work, v: Cell, segment: seq<int>)
    requires Numbers(number, n, prims) && Works(number, prims, work) && v in number && Grouped(work, number[v], segment)
    ensures CellOk(prims, v, segment)
  {
    hide Covers;
    forall i: int
      ensures i in segment <==> 0 <= i < |prims| && Covers(prims[i], v)
    {
      if 0 <= i < |prims| {
        assert WorkOf(number, prims[i], work[i]);
        if number[v] in work[i] {
          var w :| Covers(prims[i], w) && w in number && number[w] == number[v];
        }
      }
    }
  }

  lemma NumberBound(number: map<Cell, nat>, n: nat, prims: seq<Box>, v: Cell)
    requires Numbers(number, n, prims) && v in number
    ensures number[v] < n
  {
  }

  lemma NoneRepeats(number: map<Cell, nat>, prims: seq<Box>, work: Work)
    requires Works(number, prims, work)
    ensures forall i :: 0 <= i < |work| ==> NoRepeats(work[i])
  {
    hide NoRepeats, Covers;
    forall i | 0 <= i < |work|
      ensures NoRepeats(work[i])
    {
      assert WorkOf(number, prims[i], work[i]);
    }
  }

  /** The offsets are the scan of the totals. */
  ghost predicate Offsets(work: Work, n: nat, offsets: seq<int>, counts: seq<int>)
  {
    |counts| == n + 1 && Scanned(offsets, counts) && forall d: nat :: d < n ==> counts[d] == Total(work, d)
  }

  lemma OffsetIs(work: Work, n: nat, offsets: seq<int>, counts: seq<int>, c: nat)
    requires Offsets(work, n, offsets, counts) && c <= n
    ensures |offsets| == n + 1 && offsets[c] == Start(work, c)
  {
    hide Total;
    ScannedStarts(work, offsets, counts, c);
  }

  lemma SegmentIs(work: Work, offsets: seq<int>, slots: seq<int>, c: nat)
    requires c + 1 < |offsets| && offsets[c] == Start(work, c) && offsets[c + 1] == Start(work, c + 1)
    requires Start(work, c) <= Start(work, c + 1) <= |slots|
    ensures Bounds(offsets, slots, c) && slots[offsets[c]..offsets[c + 1]] == Segment(work, slots, c)
  {
    hide Start;
  }

  lemma CellBuilt(prims: seq<Box>, number: map<Cell, nat>, n: nat, work: Work, offsets: seq<int>, counts: seq<int>,
      f: Filling, v: Cell)
    requires Numbers(number, n, prims) && Works(number, prims, work) && Offsets(work, n, offsets, counts)
    requires FillInv(work, n, f) && Finished(work, f) && v in number
    ensures Bounds(offsets, f.slots, number[v]) && CellOk(prims, v, f.slots[offsets[number[v]]..offsets[number[v] + 1]])
  {
    hide *;
    var c := number[v];
    NumberBound(number, n, prims, v);
    NoneRepeats(number, prims, work);
    FilledGrouped(work, n, f, c);
    SegmentFits(work, n, f, c);
    OffsetIs(work, n, offsets, counts, c);
    OffsetIs(work, n, offsets, counts, c + 1);
    SegmentIs(work, offsets, f.slots, c);
    GroupedCell(number, n, prims, work, v, Segment(work, f.slots, c));
  }

  lemma AllBuilt(prims: seq<Box>, number: map<Cell, nat>, n: nat, work: Work, offsets: seq<int>, counts: seq<int>,
      f: Filling)
    requires Numbers(number, n, prims) && Works(number, prims, work) && Offsets(work, n, offsets, counts)
    requires FillInv(work, n, f) && Finished(work, f)
    ensures Built(prims, number, offsets, f.slots)
  {
    hide Works, Offsets, FillInv, Finished, CellOk, Covers;
    forall v | v in number
      ensures Bounds(offsets, f.slots, number[v])
              && CellOk(prims, v, f.slots[offsets[number[v]]..offsets[number[v] + 1]])
    {
      CellBuilt(prims, number, n, work, offsets, counts, f, v);
    }
  }

  /** Between the passes: counted, scanned, and ready to fill. */
  lemma Counts(work: Work, n: nat, counting: seq<nat>, offsets: seq<int>, s: Filling)
    requires WorkOk(work, n) && forall k :: 0 <= k < |counting| ==> counting[k] < |work|
    requires var r := CountPass(work, n, counting);
             Counted(work, r) && Scanned(offsets, r.counts) && s.counts == r.counts
    requires |s.slots| == offsets[n] && s.pcs == seq(|work|, _ => Draw(0)) && s.nos == seq(|work|, _ => [])
    ensures Offsets(work, n, offsets, s.counts) && FillBegun(work, n, s) && FillInv(work, n, s)
  {
    CountedTotals(work, n, CountPass(work, n, counting));
    assert |s.counts| == n + 1;
    ScannedStarts(work, offsets, s.counts, n);
    hide CountPass, CountInv, Total, Start;
    FillBegins(work, n, s);
  }

  /** The passes of `build` one after the other, each in any interleaving of its threads: the
      counts, their scan as `_offsets`, and `_indices` filled by drawing the counts down again. */
  lemma BuildGroups(prims: seq<Box>, number: map<Cell, nat>, n: nat, work: Work, counting: seq<nat>,
                    offsets: seq<int>, s: Filling, filling: seq<nat>)
    requires Numbers(number, n, prims) && Works(number, prims, work) && WorkOk(work, n)
    requires forall k :: 0 <= k < |counting| ==> counting[k] < |work|
    requires forall k :: 0 <= k < |filling| ==> filling[k] < |work|
    requires var r := CountPass(work, n, counting);
             Counted(work, r) && Scanned(offsets, r.counts) && s.counts == r.counts
    requires |s.slots| == offsets[n] && s.pcs == seq(|work|, _ => Draw(0)) && s.nos == seq(|work|, _ => [])
    ensures FillInv(work, n, s)
    ensures Finished(work, FillRun(work, n, s, filling)) ==>
            Built(prims, number, offsets, FillRun(work, n, s, filling).slots)
  {
    Counts(work, n, counting, offsets, s);
    hide *;
    var f := FillRun(work, n, s, filling);
    if Finished(work, f) {
      AllBuilt(prims, number, n, work, offsets, s.counts, f);
    }
  }

  // Queries.

  /** How many of the cells a box has. */
  ghost function Shared(cells: seq<Cell>, b: Box): nat
  {
    if cells == [] then 0 else Shared(cells[..|cells| - 1], b) + if Covers(b, cells[|cells| - 1]) then 1 else 0
  }

  ghost predicate Enumerates(cells: seq<Cell>, b: Box)
  {
    && (forall v :: v in cells <==> Covers(b, v))
    && forall i, j :: 0 <= i < j < |cells| ==> cells[i] != cells[j]
  }

  lemma {:induction false} CountOnce(s: seq<int>, x: int)
    requires forall p, q :: 0 <= p < q < |s| ==> s[p] != s[q]
    ensures multiset(s)[x] == if x in s then 1 else 0
  {
    if s != [] {
      var t := s[..|s| - 1];
      assert s == t + [s[|s| - 1]];
      CountOnce(t, x);
    }
  }

  lemma {:induction false} SharedSome(cells: seq<Cell>, b: Box)
    ensures Shared(cells, b) > 0 <==> exists v :: v in cells && Covers(b, v)
  {
    hide Covers;
    if cells != [] {
      var t := cells[..|cells| - 1];
      assert cells == t + [cells[|cells| - 1]];
      SharedSome(t, b);
    }
  }

  /** The integer vectors of cells as keys: the reserved key is none of them. */
  ghost predicate CodeOk(code: Cell -> int)
  {
    (forall v :: code(v) != EMPTY) && forall v, w :: code(v) == code(w) ==> v == w
  }

  /** The table of cells maps every cell to its number, and holds no other key. */
  ghost predicate Answers(keys: seq<seq<int>>, indices: seq<seq<int>>, code: Cell -> int, number: map<Cell, nat>)
  {
    && (forall v :: v in number ==> IsMapped(keys, indices, code(v), number[v]))
    && forall key :: key != EMPTY && Stored(keys, key) ==> CodeOf(code, number, key)
  }

  ghost predicate CodeOf(code: Cell -> int, number: map<Cell, nat>, key: int)
  {
    exists v :: v in number && code(v) == key
  }

  class SpatialHash {
    const table: Bht
    const code: Cell -> int
    var offsets: seq<int>
    var indices: seq<int>
    ghost var number: map<Cell, nat>
    ghost var prims: seq<Box>

    ghost predicate Valid()
      reads this, table
    {
      && table.Valid() && CodeOk(code) && Answers(table.keys, table.indices, code, number)
      && Built(prims, number, offsets, indices)
    }

    constructor (table: Bht, code: Cell -> int, offsets: seq<int>, indices: seq<int>, ghost number: map<Cell, nat>,
        ghost prims: seq<Box>)
      requires table.Valid() && CodeOk(code) && Answers(table.keys, table.indices, code, number)
      requires Built(prims, number, offsets, indices)
      ensures Valid() && this.table == table && this.code == code && this.prims == prims
    {
      this.table, this.code, this.offsets, this.indices := table, code, offsets, indices;
      this.number, this.prims := number, prims;
    }

    /** What the table answers for a cell: its number, or nothing for a cell of no primitive. */
    method Lookup(v: Cell) returns (no: int)
      requires Valid()
      ensures if v in number then no == number[v] else no < 0
    {
      hide Covers, Built, IsMapped, Stored;
      no := table.Query(code(v));
    }

    lemma SegmentOf(v: Cell)
      requires Valid()
      ensures v in number ==>
              && Bounds(offsets, indices, number[v])
              && CellOk(prims, v, indices[offsets[number[v]]..offsets[number[v] + 1]])
      ensures v !in number ==> CellOk(prims, v, [])
    {
      hide Covers, Answers, CodeOk;
    }

    /** The segment of a cell: nothing for a cell that is not in the table. */
    method CellMembers(v: Cell) returns (out: seq<int>)
      requires Valid()
      ensures CellOk(prims, v, out)
    {
      hide Valid, CellOk;
      SegmentOf(v);
      out := [];
      var cno := Lookup(v);
      if cno < 0 {
        return;
      }
      var (st, ed) := (offsets[cno], offsets[cno + 1]);
      for no := st to ed
        invariant out == indices[st..no]
      {
        out := out + [indices[no]];
      }
    }

    /** `iter_neighbors` of a point: the primitives that have the cell of the point, each once. */
    method PointNeighbors(p: seq<real>) returns (out: seq<int>)
      requires Valid()
      ensures CellOk(prims, seq(|p|, d requires 0 <= d < |p| => p[d].Floor), out)
    {
      out := CellMembers(seq(|p|, d requires 0 <= d < |p| => p[d].Floor));
    }

    /** `iter_neighbors` of a box: a primitive is reported once for every cell it shares with the
        box, so at least once exactly if there is one. */
    method BoxNeighbors(b: Box) returns (out: seq<int>, ghost cells: seq<Cell>)
      requires Valid() && IsBox(b, |b.lo|)
      ensures Enumerates(cells, b)
      ensures forall i :: multiset(out)[i] == if 0 <= i < |prims| then Shared(cells, prims[i]) else 0
      ensures forall i :: i in out <==> 0 <= i < |prims| && exists v :: Covers(prims[i], v) && Covers(b, v)
    {
      var all := CellsOf(b);
      cells := all;
      hide Covers, Valid;
      out := [];
      for k := 0 to |all|
        invariant forall i :: multiset(out)[i] == if 0 <= i < |prims| then Shared(all[..k], prims[i]) else 0
      {
        var members := CellMembers(all[k]);
        OneMore(prims, all, k, out, members);
        out := out + members;
      }
      assert all[..|all|] == all;
      Reported(prims, all, b, out);
    }
  }

  lemma OneMore(prims: seq<Box>, cells: seq<Cell>, k: nat, out: seq<int>, members: seq<int>)
    requires k < |cells| && CellOk(prims, cells[k], members)
    requires forall i :: multiset(out)[i] == if 0 <= i < |prims| then Shared(cells[..k], prims[i]) else 0
    ensures forall i :: multiset(out + members)[i] == if 0 <= i < |prims| then Shared(cells[..k + 1], prims[i]) else 0
  {
    hide Covers;
    assert cells[..k + 1][..k] == cells[..k];
    forall i
      ensures multiset(out + members)[i] == if 0 <= i < |prims| then Shared(cells[..k + 1], prims[i]) else 0
    {
      CountOnce(members, i);
      assert multiset(out + members)[i] == multiset(out)[i] + multiset(members)[i];
    }
  }

  lemma Reported(prims: seq<Box>, cells: seq<Cell>, b: Box, out: seq<int>)
    requires Enumerates(cells, b)
    requires forall i :: multiset(out)[i] == if 0 <= i < |prims| then Shared(cells, prims[i]) else 0
    ensures forall i :: i in out <==> 0 <= i < |prims| && exists v :: Covers(prims[i], v) && Covers(b, v)
  {
    hide Covers, Shared;
    forall i
      ensures i in out <==> 0 <= i < |prims| && exists v :: Covers(prims[i], v) && Covers(b, v)
    {
      assert i in out <==> multiset(out)[i] > 0;
      if 0 <= i < |prims| {
        SharedSome(cells, prims[i]);
      }
    }
  }
}
