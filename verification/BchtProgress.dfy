/** Progress of concurrent insertions into `bcht`: a round that ends in vain does so because the
    bucket has been filled meanwhile, and every other round lengthens a bounded chain. */
module CuckooProgress {
  import opened Buckets
  import opened Cuckoo
  import opened CuckooBatch
  import opened Sums

  /** More than the steps of a round. */
  function Round(m: Batch): nat
  {
    2 * m.c.B + 8
  }

  function RowOf(s: State, t: Thread): seq<int>
  {
    if t.b < |s.keys| then s.keys[t.b] else []
  }

  /** The thread has counted fewer keys in its bucket than there are now. */
  predicate Stale(s: State, t: Thread)
  {
    match t.pc
    case Count(i, load) => load < i && load < Fill(RowOf(s, t))
    case Take(load) => load < Fill(RowOf(s, t))
    case _ => false
  }

  /** The steps left in a round at most. */
  function Place(B: nat, pc: Pc): nat
  {
    match pc
    case Look(i, _) => (if i <= B then B - i else 0) + B + 6
    case Count(i, _) => (if i <= B then B - i else 0) + 4
    case Take(_) => 3
    case Swap => 3
    case List => 1
    case Done(_) => 0
  }

  function ChainsLeft(m: Batch, t: Thread): nat
  {
    if t.chains < m.maxChains then m.maxChains - t.chains else 0
  }

  /** What a thread has before it; a count that is out of date costs it one more round. */
  function Rank(m: Batch, s: State, t: Thread): nat
  {
    if !Searching(t) then Place(m.c.B, t.pc)
    else 2 * (ChainsLeft(m, t) * Round(m)) + Place(m.c.B, t.pc) + if Stale(s, t) then Round(m) else 0
  }

  function Ranks(m: Batch, s: State): (w: seq<nat>)
  {
    seq(|s.threads|, j requires 0 <= j < |s.threads| => Rank(m, s, s.threads[j]))
  }

  /** The free slots of every bucket. */
  function Gaps(keys: seq<seq<int>>): (w: seq<nat>)
  {
    seq(|keys|, b requires 0 <= b < |keys| => |keys[b]| - Fill(keys[b]))
  }

  function Times(a: nat, b: nat): nat
  {
    a * b
  }

  /** A filled slot may put every thread back by one round. */
  function Measure(m: Batch, s: State): nat
  {
    Sum(Ranks(m, s)) + Times(Times(|m.jobs|, Round(m)) + 1, Sum(Gaps(s.keys)))
  }

  ghost predicate SameFills(s: State, s': State)
  {
    |s'.keys| == |s.keys| && forall b :: 0 <= b < |s.keys| ==>
      |s'.keys[b]| == |s.keys[b]| && Fill(s'.keys[b]) == Fill(s.keys[b])
  }

  /** The step finds a slot free under the lock of its bucket. */
  ghost predicate Takes(m: Batch, s: State, i: nat)
    requires Inv(m, s) && i < |s.threads|
  {
    Enabled(m, s, i);
    var t := s.threads[i];
    t.pc.Take? && t.hand !in s.keys[t.b] && s.keys[t.b][t.pc.load] == EMPTY
  }

  lemma OneTakes(m: Batch, s: State, ch: Choice)
    requires Inv(m, s) && ch.i < |s.threads| && !ch.busy && Takes(m, s, ch.i)
    ensures var s' := Step(m, s, ch);
            Sum(Gaps(s'.keys)) + 1 == Sum(Gaps(s.keys)) && |s'.keys| == |s.keys|
    ensures !Searching(Step(m, s, ch).threads[ch.i]) && |Step(m, s, ch).threads| == |s.threads|
  {
    At(m, s, ch.i);
    Enabled(m, s, ch.i);
    hide Inv;
    var t := s.threads[ch.i];
    var (row, row') := (s.keys[t.b], s.keys[t.b][t.pc.load := t.hand]);
    ShapedRow(m, s, t.b);
    PackedPut(row, t.pc.load, t.hand);
    FillBeyond(m.c, s.keys, t.b);
    var s' := Step(m, s, ch);
    assert s'.keys == s.keys[t.b := row'];
    SumUpdate(Gaps(s.keys), t.b, |row'| - Fill(row'));
    assert Gaps(s'.keys) == Gaps(s.keys)[t.b := |row'| - Fill(row')];
  }

  lemma ShapedRow(m: Batch, s: State, b: nat)
    requires Shaped(m, s) && b < m.c.nb
    ensures m.c.nb > 0 && Grid(m.c, s.keys) && |s.keys[b]| == m.c.B && Packed(s.keys[b])
  {
  }

  lemma OthersFill(m: Batch, s: State, ch: Choice)
    requires Inv(m, s) && ch.i < |s.threads| && !ch.busy && !Takes(m, s, ch.i)
    ensures SameFills(s, Step(m, s, ch))
  {
    At(m, s, ch.i);
    Enabled(m, s, ch.i);
    var t := s.threads[ch.i];
    if t.pc.Swap? {
      var l := ch.loc % m.c.B;
      hide Inv, Fill, Full, Sound;
      ShapedRow(m, s, t.b);
      FullIs(s.keys[t.b]);
      PackedPut(s.keys[t.b], l, t.hand);
    } else {
      hide Inv, Fill, Full, Sound, CanStand;
    }
  }

  lemma SameGaps(s: State, s': State)
    requires SameFills(s, s')
    ensures Gaps(s'.keys) == Gaps(s.keys)
  {
    hide Fill;
  }

  lemma SameRank(m: Batch, s: State, s': State, t: Thread)
    requires SameFills(s, s')
    ensures Rank(m, s', t) == Rank(m, s, t)
  {
    hide Fill;
  }

  lemma RankGrows(m: Batch, s: State, s': State, t: Thread)
    ensures Rank(m, s', t) <= Rank(m, s, t) + Round(m)
  {
    hide Fill, Stale;
  }

  lemma StepOthers(m: Batch, s: State, ch: Choice, j: nat)
    requires Inv(m, s) && ch.i < |s.threads| && j < |s.threads| && j != ch.i
    ensures |Step(m, s, ch).threads| == |s.threads| && Step(m, s, ch).threads[j] == s.threads[j]
  {
    Enabled(m, s, ch.i);
    hide Inv, Put, Replaced;
  }

  /** Reading the bucket: one step less, and a count that is up to date stays so. */
  lemma ReadRank(m: Batch, s: State, ch: Choice)
    requires Inv(m, s) && ch.i < |s.threads| && (s.threads[ch.i].pc.Look? || s.threads[ch.i].pc.Count?)
    ensures Rank(m, Step(m, s, ch), Step(m, s, ch).threads[ch.i]) < Rank(m, s, s.threads[ch.i])
  {
    At(m, s, ch.i);
    Enabled(m, s, ch.i);
    hide Inv, Sound, CanStand, Full;
    var t := s.threads[ch.i];
    ShapedRow(m, s, t.b);
    FillBeyond(m.c, s.keys, t.b);
    FullIs(s.keys[t.b]);
    hide Fill;
    assert ThreadOk(m, s, ch.i);
  }

  /** A failed take had counted too little, and the next round counts afresh. */
  lemma TakeRank(m: Batch, s: State, ch: Choice)
    requires Inv(m, s) && ch.i < |s.threads| && s.threads[ch.i].pc.Take? && !ch.busy
    ensures Rank(m, Step(m, s, ch), Step(m, s, ch).threads[ch.i]) < Rank(m, s, s.threads[ch.i])
  {
    At(m, s, ch.i);
    Enabled(m, s, ch.i);
    hide Inv, Sound, CanStand, Full;
    var t := s.threads[ch.i];
    ShapedRow(m, s, t.b);
    FillBeyond(m.c, s.keys, t.b);
    hide Fill, Put, Replaced;
  }

  /** An eviction lengthens the chain. */
  lemma SwapRank(m: Batch, s: State, ch: Choice)
    requires Inv(m, s) && ch.i < |s.threads| && s.threads[ch.i].pc.Swap? && !ch.busy
    ensures Rank(m, Step(m, s, ch), Step(m, s, ch).threads[ch.i]) < Rank(m, s, s.threads[ch.i])
  {
    At(m, s, ch.i);
    Enabled(m, s, ch.i);
    hide Inv, Sound, CanStand, Full, Fill, Put, Replaced;
    var t := s.threads[ch.i];
    var t' := Step(m, s, ch).threads[ch.i];
    if Searching(t') {
      var (c, k) := (ChainsLeft(m, t), Round(m));
      assert ChainsLeft(m, t') == c - 1;
      assert c * k == (c - 1) * k + k;
    }
  }

  lemma OwnRank(m: Batch, s: State, ch: Choice)
    requires Inv(m, s) && ch.i < |s.threads| && !s.threads[ch.i].pc.Done? && !ch.busy
    ensures Rank(m, Step(m, s, ch), Step(m, s, ch).threads[ch.i]) < Rank(m, s, s.threads[ch.i])
  {
    hide Inv, Rank, Step;
    match s.threads[ch.i].pc
    case Take(_) => TakeRank(m, s, ch);
    case Swap => SwapRank(m, s, ch);
    case List => ListRank(m, s, ch);
    case _ => ReadRank(m, s, ch);
  }

  lemma ListRank(m: Batch, s: State, ch: Choice)
    requires Inv(m, s) && ch.i < |s.threads| && s.threads[ch.i].pc.List?
    ensures Rank(m, Step(m, s, ch), Step(m, s, ch).threads[ch.i]) < Rank(m, s, s.threads[ch.i])
  {
    Enabled(m, s, ch.i);
    hide Inv;
  }

  lemma {:induction false} SumRaised(v: seq<nat>, w: seq<nat>, k: nat)
    requires |v| == |w| && forall j :: 0 <= j < |v| ==> w[j] <= v[j] + k
    ensures Sum(w) <= Sum(v) + |v| * k
  {
    if v != [] {
      SumRaised(v[1..], w[1..], k);
      assert |v| * k == |v[1..]| * k + k;
    }
  }

  /** A step that fills no slot: its own thread gets on, the others stay where they are. */
  lemma QuietStep(m: Batch, s: State, ch: Choice)
    requires Inv(m, s) && ch.i < |s.threads| && !s.threads[ch.i].pc.Done? && !ch.busy && !Takes(m, s, ch.i)
    ensures Sum(Ranks(m, Step(m, s, ch))) < Sum(Ranks(m, s)) && Gaps(Step(m, s, ch).keys) == Gaps(s.keys)
  {
    hide Inv, Rank, Step, Takes, Sum, Gaps, Round, SameFills, Searching;
    var s' := Step(m, s, ch);
    var (v, w) := (Ranks(m, s), Ranks(m, s'));
    OwnRank(m, s, ch);
    OthersFill(m, s, ch);
    SameGaps(s, s');
    StepSize(m, s, ch);
    forall j: nat | j < |s.threads| && j != ch.i
      ensures w[j] == v[j]
    {
      StepOthers(m, s, ch, j);
      SameRank(m, s, s', s.threads[j]);
    }
    SumUpdate(v, ch.i, w[ch.i]);
    assert w == v[ch.i := w[ch.i]];
  }

  /** A step that fills a slot puts no thread back by more than a round. */
  lemma FillingStep(m: Batch, s: State, ch: Choice)
    requires Inv(m, s) && ch.i < |s.threads| && !s.threads[ch.i].pc.Done? && !ch.busy && Takes(m, s, ch.i)
    ensures Sum(Ranks(m, Step(m, s, ch))) <= Sum(Ranks(m, s)) + Times(|m.jobs|, Round(m))
  {
    hide Inv, Rank, Step, Takes, Sum, Round, Searching;
    var s' := Step(m, s, ch);
    var (v, w) := (Ranks(m, s), Ranks(m, s'));
    OwnRank(m, s, ch);
    StepSize(m, s, ch);
    forall j: nat | j < |s.threads|
      ensures w[j] <= v[j] + Round(m)
    {
      if j != ch.i {
        StepOthers(m, s, ch, j);
        RankGrows(m, s, s', s.threads[j]);
      }
    }
    SumRaised(v, w, Round(m));
  }

  /** Every step of an unfinished thread that finds the lock free, if it needs one, brings the batch
      nearer to its end. */
  lemma StepProgress(m: Batch, s: State, ch: Choice)
    requires Inv(m, s) && ch.i < |s.threads| && !s.threads[ch.i].pc.Done? && !ch.busy
    ensures Measure(m, Step(m, s, ch)) < Measure(m, s)
  {
    hide Inv, Ranks, Step, Takes, Sum, Gaps, Round, Searching, Times;
    if Takes(m, s, ch.i) {
      OneTakes(m, s, ch);
      FillingStep(m, s, ch);
      Lighter(Times(|m.jobs|, Round(m)), Sum(Gaps(Step(m, s, ch).keys)));
    } else {
      QuietStep(m, s, ch);
    }
  }

  lemma Lighter(a: nat, g: nat)
    ensures Times(a + 1, g + 1) == Times(a + 1, g) + a + 1
  {
  }

  lemma StepSize(m: Batch, s: State, ch: Choice)
    requires Inv(m, s) && ch.i < |s.threads|
    ensures |Step(m, s, ch).threads| == |s.threads| == |m.jobs|
  {
    At(m, s, ch.i);
    Enabled(m, s, ch.i);
    hide Inv, Sound, Put, Replaced;
  }
}
