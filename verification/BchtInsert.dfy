/** Concurrent insertion into `bcht`: reads of keys outside a bucket's lock are one step each, what
    a thread does under the lock of a bucket is one step, and the steps of all threads interleave
    freely. No other thread can enter the section, and readers outside see of it one key write. */
module CuckooBatch {
  import opened Buckets
  import opened Cuckoo

  /** An insertion without an index draws one and lists its key. */
  datatype Job = Job(key: int, index: int, enqueue: bool)

  datatype Pc =
    | Look(i: nat, exist: bool)  // is the key in hand in its bucket?
    | Count(i: nat, load: nat)   // how many keys are in the bucket?
    | Take(load: nat)            // about to lock the bucket for its free slot
    | Swap                       // about to lock the full bucket for an eviction
    | List                       // about to write the key into `_activeKeys`
    | Done(r: Outcome)

  /** `hand` and `idx` are the pair in hand, `no` the number of the thread's own key. */
  datatype Thread = Thread(pc: Pc, hand: int, idx: int, no: int, chains: nat, b: nat)

  /** What the scheduler and the random numbers decide: whether the bucket's lock is busy for
      longer than the thread spins, and the slot to evict. */
  datatype Choice = Choice(i: nat, busy: bool, loc: nat)

  /** The shared arrays and the threads. `at` says where the stored keys are, `value` gives the
      number of every key in play. */
  datatype State = State(keys: seq<seq<int>>, indices: seq<seq<int>>, active: seq<int>, cnt: nat,
                         threads: seq<Thread>, at: Places, value: map<int, int>)

  datatype Batch = Batch(c: Config, maxChains: nat, jobs: seq<Job>, base: nat)

  /** The pairs still in hand, and those lost in hand. */
  predicate Holding(t: Thread)
  {
    !t.pc.List? && (t.pc.Done? ==> t.pc.r.Failed?)
  }

  predicate Searching(t: Thread)
  {
    !t.pc.List? && !t.pc.Done?
  }

  // What every step keeps.

  ghost predicate PairOk(s: State, k: int)
    requires k in s.at
  {
    var (b, l) := s.at[k];
    b < |s.indices| && l < |s.indices[b]| && k in s.value && s.value[k] == s.indices[b][l] != NO_INDEX
  }

  ghost predicate Shaped(m: Batch, s: State)
  {
    Sound(m.c, s.keys, s.at) && Grid(m.c, s.indices) && |s.threads| == |m.jobs|
  }

  /** A searching thread knows that its key may stand in its bucket, and what its reads tell. */
  ghost predicate SearchOk(m: Batch, s: State, t: Thread)
    requires Shaped(m, s)
  {
    && t.b < m.c.nb && t.hand != EMPTY && CanStand(m.c, s.keys, t.hand, t.b)
    && match t.pc
       case Look(i, exist) => i <= m.c.B && !exist
       case Count(i, load) => load <= i <= m.c.B && load <= Fill(s.keys[t.b])
       case Take(load) => load < m.c.B && load <= Fill(s.keys[t.b])
       case _ => t.pc.Swap? ==> Full(s.keys[t.b])
  }

  ghost predicate HandOk(s: State, t: Thread)
  {
    Holding(t) ==> t.hand !in s.at && t.hand in s.value && s.value[t.hand] == t.idx
  }

  /** A thread's own key has the thread's number. */
  ghost predicate OwnOk(m: Batch, s: State, j: nat)
    requires j < |s.threads| == |m.jobs|
  {
    var (t, job) := (s.threads[j], m.jobs[j]);
    && job.key != EMPTY && job.key in s.value && s.value[job.key] == t.no
    && (job.enqueue <==> job.index == NO_INDEX)
    && (job.index != NO_INDEX ==> t.no == job.index)
    && (Holding(t) ==> (t.no == NO_INDEX <==> t.idx == NO_INDEX) && (t.idx == NO_INDEX ==> t.hand == job.key))
    && (!Holding(t) ==> t.no != NO_INDEX)
    && (job.enqueue && t.no != NO_INDEX ==> m.base <= t.no < s.cnt)
    && (t.pc.List? ==> job.enqueue)
    && match t.pc
       case Done(Placed(no)) => no == t.no && (job.enqueue ==> no < |s.active| && s.active[no] == job.key)
       case Done(Overrun(no)) => no == t.no >= |s.active| && job.enqueue
       case Done(Present) => false
       case _ => true
  }

  /** The chain is never longer than allowed, but for the one round that the loop always makes. */
  predicate ChainOk(m: Batch, t: Thread)
  {
    && (Searching(t) ==> t.chains == 0 || t.chains < m.maxChains)
    && (t.pc == Done(Failed) ==> m.maxChains <= t.chains && (t.chains <= m.maxChains || t.chains == 1))
  }

  ghost predicate ThreadOk(m: Batch, s: State, j: nat)
    requires Shaped(m, s) && j < |s.threads|
  {
    && (Searching(s.threads[j]) ==> SearchOk(m, s, s.threads[j])) && HandOk(s, s.threads[j]) && OwnOk(m, s, j)
    && ChainOk(m, s.threads[j])
  }

  /** No two threads hold the same key, own the same key or draw the same number. */
  ghost predicate Apart(m: Batch, s: State, i: nat, j: nat)
    requires i < |s.threads| == |m.jobs| && j < |s.threads|
  {
    i != j ==>
      && m.jobs[i].key != m.jobs[j].key
      && (Holding(s.threads[i]) && Holding(s.threads[j]) ==> s.threads[i].hand != s.threads[j].hand)
      && (m.jobs[i].enqueue && m.jobs[j].enqueue && s.threads[i].no != NO_INDEX ==> s.threads[i].no != s.threads[j].no)
  }

  ghost predicate HeldBy(s: State, k: int, j: nat)
  {
    j < |s.threads| && Holding(s.threads[j]) && s.threads[j].hand == k
  }

  /** Every key in play is in the table or in some hand. */
  ghost predicate Somewhere(s: State, k: int)
  {
    k in s.at || exists j: nat :: HeldBy(s, k, j)
  }

  ghost predicate GivenTo(m: Batch, s: State, n: nat, j: nat)
  {
    j < |s.threads| == |m.jobs| && m.jobs[j].enqueue && s.threads[j].no == n
  }

  /** Every number drawn is the number of a thread's own key. */
  ghost predicate Given(m: Batch, s: State, n: nat)
  {
    exists j: nat :: GivenTo(m, s, n, j)
  }

  ghost predicate Inv(m: Batch, s: State)
  {
    && Shaped(m, s) && |s.active| == m.c.nb * m.c.B && m.base <= s.cnt
    && (forall k :: k in s.at ==> PairOk(s, k))
    && (forall j: nat :: j < |s.threads| ==> ThreadOk(m, s, j))
    && (forall i: nat, j: nat :: i < |s.threads| && j < |s.threads| ==> Apart(m, s, i, j))
    && (forall k :: k in s.value ==> Somewhere(s, k))
    && (forall n: nat :: m.base <= n < s.cnt ==> Given(m, s, n))
  }

  // The steps of a thread.

  function With(s: State, i: nat, t: Thread): State
    requires i < |s.threads|
  {
    s.(threads := s.threads[i := t])
  }

  /** The end of a round: the loop goes on while the chain is short enough. */
  function Again(m: Batch, t: Thread): Thread
  {
    t.(pc := if t.chains < m.maxChains then Look(0, false) else Done(Failed))
  }

  /** A key without a number draws one. */
  function Draw(s: State, t: Thread): int
  {
    if t.idx == NO_INDEX then s.cnt else t.idx
  }

  /** The pair in hand is written over slot `l` of its bucket, `t'` is the thread after it. */
  function Write(s: State, i: nat, l: nat, t': Thread): State
    requires i < |s.threads| && s.threads[i].b < |s.keys| == |s.indices|
    requires l < |s.keys[s.threads[i].b]| == |s.indices[s.threads[i].b]|
  {
    var t := s.threads[i];
    s.(keys := Put(s.keys, t.b, l, t.hand), indices := Put(s.indices, t.b, l, Draw(s, t)),
       cnt := if t.idx == NO_INDEX then s.cnt + 1 else s.cnt,
       threads := s.threads[i := t'],
       at := Replaced(s.at, s.keys[t.b][l], t.hand, t.b, l), value := s.value[t.hand := Draw(s, t)])
  }

  /** The thread's own number once its key is written. */
  function OwnNo(s: State, t: Thread): int
  {
    if t.idx == NO_INDEX then s.cnt else t.no
  }

  function TakeStep(m: Batch, s: State, i: nat, busy: bool): State
    requires i < |s.threads| == |m.jobs| && s.threads[i].pc.Take? && s.threads[i].b < |s.keys| == |s.indices|
    requires s.threads[i].pc.load < |s.keys[s.threads[i].b]| == |s.indices[s.threads[i].b]|
  {
    var t := s.threads[i];
    if busy then With(s, i, Again(m, t))
    else if t.hand in s.keys[t.b] then With(s, i, t.(pc := Done(Present)))
    else if s.keys[t.b][t.pc.load] == EMPTY then
      var no := OwnNo(s, t);
      Write(s, i, t.pc.load, t.(pc := if m.jobs[i].enqueue then List else Done(Placed(no)), no := no))
    else With(s, i, Again(m, t))
  }

  function SwapStep(m: Batch, s: State, i: nat, busy: bool, l: nat): State
    requires m.c.nb > 0 && i < |s.threads| && s.threads[i].b < |s.keys| == |s.indices|
    requires l < |s.keys[s.threads[i].b]| == |s.indices[s.threads[i].b]|
  {
    var t := s.threads[i];
    if busy then With(s, i, Again(m, t))
    else
      var (oldKey, oldIndex) := (s.keys[t.b][l], s.indices[t.b][l]);
      var t' := t.(hand := oldKey, idx := oldIndex, no := OwnNo(s, t), chains := t.chains + 1, b :=
          NextBucket(m.c, oldKey, t.b));
      Write(s, i, l, Again(m, t'))
  }

  ghost function Step(m: Batch, s: State, ch: Choice): State
    requires Inv(m, s) && ch.i < |s.threads|
  {
    var t := s.threads[ch.i];
    Enabled(m, s, ch.i);
    match t.pc
    case Look(i, exist) =>
      With(s, ch.i, t.(pc := if i < m.c.B then Look(i + 1, exist || s.keys[t.b][i] == t.hand)
          else if exist then Done(Present) else Count(0, 0)))
    case Count(i, load) =>
      With(s, ch.i, t.(pc := if i < m.c.B then Count(i + 1, if s.keys[t.b][i] != EMPTY then load + 1 else load)
                             else if load != m.c.B then Take(load) else Swap))
    case Take(load) => TakeStep(m, s, ch.i, ch.busy)
    case Swap => SwapStep(m, s, ch.i, ch.busy, ch.loc % m.c.B)
    case List =>
      if t.no < |s.active| then With(s, ch.i, t.(pc := Done(Placed(t.no)))).(active :=
          s.active[t.no := m.jobs[ch.i].key])
      else With(s, ch.i, t.(pc := Done(Overrun(t.no))))
    case Done(_) => s
  }

  lemma Enabled(m: Batch, s: State, i: nat)
    requires Inv(m, s) && i < |s.threads|
    ensures var t := s.threads[i];
            && m.c.nb > 0 && m.c.B > 0 && |s.keys| == |s.indices| == m.c.nb
            && (Searching(t) ==> t.b < m.c.nb && |s.keys[t.b]| == |s.indices[t.b]| == m.c.B)
            && (t.pc.Take? ==> t.pc.load < m.c.B)
            && (t.pc.List? ==> 0 <= t.no)
  {
    hide Packed, SlotOk, KeyOk, Full, CanStand, Apart;
    assert ThreadOk(m, s, i);
  }

  // A step that only moves the thread on.

  lemma At(m: Batch, s: State, j: nat)
    requires Inv(m, s) && j < |s.threads|
    ensures Shaped(m, s) && ThreadOk(m, s, j)
  {
    hide Apart, PairOk, Somewhere, Given, ThreadOk;
  }

  lemma Pair(m: Batch, s: State, i: nat, j: nat)
    requires Inv(m, s) && i < |s.threads| && j < |s.threads|
    ensures Shaped(m, s) && Apart(m, s, i, j)
  {
    hide Apart, PairOk, Somewhere, Given, ThreadOk;
  }

  /** The thread keeps its pair, its number and its bucket. */
  ghost predicate SamePair(t: Thread, t': Thread)
  {
    t'.hand == t.hand && t'.idx == t.idx && t'.no == t.no && t'.b == t.b && Holding(t') == Holding(t)
  }

  lemma LocalApart(m: Batch, s: State, i: nat, t': Thread, j: nat, k: nat)
    requires Inv(m, s) && i < |s.threads| && SamePair(s.threads[i], t') && j < |s.threads| && k < |s.threads|
    ensures Apart(m, With(s, i, t'), j, k)
  {
    Pair(m, s, j, k);
    hide Inv;
  }

  lemma LocalThread(m: Batch, s: State, i: nat, t': Thread, j: nat)
    requires Inv(m, s) && i < |s.threads| && SamePair(s.threads[i], t') && j < |s.threads| && Shaped(m, s)
    requires Searching(t') ==> SearchOk(m, s, t')
    requires OwnOk(m, With(s, i, t'), i) && ChainOk(m, t')
    ensures ThreadOk(m, With(s, i, t'), j)
  {
    At(m, s, j);
    At(m, s, i);
    hide Inv, Sound, Full, CanStand;
  }

  lemma LocalSomewhere(s: State, i: nat, t': Thread, k: int)
    requires i < |s.threads| && SamePair(s.threads[i], t') && Somewhere(s, k)
    ensures Somewhere(With(s, i, t'), k)
  {
    if k !in s.at {
      var j: nat :| HeldBy(s, k, j);
      assert HeldBy(With(s, i, t'), k, j);
    }
  }

  lemma GivenStays(m: Batch, s: State, s': State, n: nat)
    requires Given(m, s, n) && |s'.threads| == |s.threads|
    requires forall j :: 0 <= j < |s.threads| ==> s.threads[j].no == NO_INDEX || s'.threads[j].no == s.threads[j].no
    ensures Given(m, s', n)
  {
    var j: nat :| GivenTo(m, s, n, j);
    assert GivenTo(m, s', n, j);
  }

  lemma LocalKeeps(m: Batch, s: State, i: nat, t': Thread)
    requires Inv(m, s) && i < |s.threads| && SamePair(s.threads[i], t') && Shaped(m, s)
    requires Searching(t') ==> SearchOk(m, s, t')
    requires OwnOk(m, With(s, i, t'), i) && ChainOk(m, t')
    ensures Inv(m, With(s, i, t'))
  {
    hide Sound, SearchOk, HandOk, OwnOk, ThreadOk, Apart, PairOk, Somewhere, Given;
    var s' := With(s, i, t');
    forall j: nat | j < |s.threads|
      ensures ThreadOk(m, s', j)
    {
      LocalThread(m, s, i, t', j);
    }
    forall j: nat, k: nat | j < |s.threads| && k < |s.threads|
      ensures Apart(m, s', j, k)
    {
      LocalApart(m, s, i, t', j, k);
    }
    forall k | k in s'.at
      ensures PairOk(s', k)
    {
      assert PairOk(s, k);
      PairSame(s, s', k);
    }
    forall k | k in s'.value
      ensures Somewhere(s', k)
    {
      LocalSomewhere(s, i, t', k);
    }
    forall n: nat | m.base <= n < s.cnt
      ensures Given(m, s', n)
    {
      GivenStays(m, s, s', n);
    }
  }

  lemma PairSame(s: State, s': State, k: int)
    requires k in s.at && PairOk(s, k) && s'.at == s.at && s'.indices == s.indices && s'.value == s.value
    ensures PairOk(s', k)
  {
  }

  // A step that writes the pair in hand.

  /** The thread after its pair is written: it is empty-handed after a free slot, and holds the
      pair it replaced otherwise. */
  ghost predicate Relieved(m: Batch, s: State, i: nat, l: nat, t': Thread)
    requires Shaped(m, s) && i < |s.threads|
  {
    var t := s.threads[i];
    && Searching(t) && Slot(m.c, t.b, l) && l <= Fill(s.keys[t.b]) && t'.no == OwnNo(s, t)
    && if s.keys[t.b][l] == EMPTY then
         if m.jobs[i].enqueue then t'.pc == List else t'.pc == Done(Placed(t'.no))
       else
         && t' == Again(m, t') && t'.chains == t.chains + 1
             && t'.hand == s.keys[t.b][l] && t'.idx == s.indices[t.b][l]
         && t'.b == NextBucket(m.c, t'.hand, t.b) && Full(s.keys[t.b])
  }

  /** What the write does to the table. */
  lemma WriteTable(m: Batch, s: State, i: nat, l: nat, t': Thread)
    requires Inv(m, s) && i < |s.threads| && Relieved(m, s, i, l, t')
    ensures var (t, s') := (s.threads[i], Write(s, i, l, t'));
            && ThreadOk(m, s, i) && Shaped(m, s') && StillFull(s.keys, s'.keys) && s.keys[t.b][l] != t.hand
            && (s.keys[t.b][l] == EMPTY ==> EMPTY !in s.at)
            && (s.keys[t.b][l] != EMPTY ==> s.keys[t.b][l] in s.at && s.at[s.keys[t.b][l]] == (t.b, l))
    ensures forall b :: 0 <= b < m.c.nb ==> Fill(s.keys[b]) <= Fill(Write(s, i, l, t').keys[b])
  {
    At(m, s, i);
    hide Inv, PairOk, Somewhere, Given, Apart, OwnOk, Full, CanStand;
    var t := s.threads[i];
    Written(m.c, s.keys, s.at, t.hand, t.b, l);
    PutGrid(m.c, s.indices, t.b, l, Draw(s, t));
    assert SlotOk(m.c, s.keys, s.at, t.b, l);
    assert Packed(s.keys[t.b]);
    PackedPut(s.keys[t.b], l, t.hand);
  }

  lemma WritePair(m: Batch, s: State, i: nat, l: nat, t': Thread, k: int)
    requires Inv(m, s) && i < |s.threads| && Relieved(m, s, i, l, t') && k in Write(s, i, l, t').at
    ensures PairOk(Write(s, i, l, t'), k)
  {
    WriteTable(m, s, i, l, t');
    hide Somewhere, Apart, Full, CanStand, Packed;
    var t := s.threads[i];
    if k != t.hand {
      assert PairOk(s, k);
      assert KeyOk(m.c, s.keys, s.at, k);
    }
  }

  lemma WriteOther(m: Batch, s: State, i: nat, l: nat, t': Thread, j: nat)
    requires Inv(m, s) && i < |s.threads| && Relieved(m, s, i, l, t') && j < |s.threads| && j != i
    ensures Shaped(m, Write(s, i, l, t')) && ThreadOk(m, Write(s, i, l, t'), j)
  {
    WriteTable(m, s, i, l, t');
    At(m, s, j);
    Pair(m, s, i, j);
    hide Inv, Sound, Fill, CanStand;
    var s' := Write(s, i, l, t');
    if Searching(s.threads[j]) {
      CanStandStays(m.c, s.keys, s'.keys, s.threads[j].hand, s.threads[j].b);
    }
  }

  lemma WriteOwn(m: Batch, s: State, i: nat, l: nat, t': Thread)
    requires Inv(m, s) && i < |s.threads| && Relieved(m, s, i, l, t')
    ensures Shaped(m, Write(s, i, l, t')) && ThreadOk(m, Write(s, i, l, t'), i)
  {
    WriteTable(m, s, i, l, t');
    var (t, s', was) := (s.threads[i], Write(s, i, l, t'), s.keys[s.threads[i].b][l]);
    if was != EMPTY {
      assert PairOk(s, was);
      assert KeyOk(m.c, s.keys, s.at, was);
      CanStandStays(m.c, s.keys, s'.keys, was, t.b);
      MovesOn(m.c, s'.keys, was, t.b);
    }
    hide Inv, Sound, CanStand, Full;
  }

  lemma WriteApart(m: Batch, s: State, i: nat, l: nat, t': Thread, j: nat, k: nat)
    requires Inv(m, s) && i < |s.threads| && Relieved(m, s, i, l, t') && j < |s.threads| && k < |s.threads|
    ensures Apart(m, Write(s, i, l, t'), j, k)
  {
    WriteTable(m, s, i, l, t');
    Pair(m, s, j, k);
    At(m, s, j);
    At(m, s, k);
    hide Inv, Sound, Full, CanStand, SearchOk;
  }

  lemma WriteSomewhere(m: Batch, s: State, i: nat, l: nat, t': Thread, k: int)
    requires Inv(m, s) && i < |s.threads| && Relieved(m, s, i, l, t') && k in Write(s, i, l, t').value
    ensures Somewhere(Write(s, i, l, t'), k)
  {
    WriteTable(m, s, i, l, t');
    var (t, s') := (s.threads[i], Write(s, i, l, t'));
    assert Somewhere(s, k) by {
      hide Sound, Apart, PairOk;
    }
    hide Inv, Sound, Full, CanStand, SearchOk;
    if k == t.hand {
    } else if k in s.at {
      if k == s.keys[t.b][l] {
        assert HeldBy(s', k, i);
      }
    } else {
      var j: nat :| HeldBy(s, k, j);
      assert HeldBy(s', k, j);
    }
  }

  lemma WriteKeeps(m: Batch, s: State, i: nat, l: nat, t': Thread)
    requires Inv(m, s) && i < |s.threads| && Relieved(m, s, i, l, t')
    ensures Inv(m, Write(s, i, l, t'))
  {
    WriteTable(m, s, i, l, t');
    var s' := Write(s, i, l, t');
    hide Sound, SearchOk, HandOk, ThreadOk, Apart, PairOk, Somewhere, Given, Relieved;
    forall j: nat | j < |s.threads|
      ensures ThreadOk(m, s', j)
    {
      if j == i {
        WriteOwn(m, s, i, l, t');
      } else {
        WriteOther(m, s, i, l, t', j);
      }
    }
    forall j: nat, k: nat | j < |s.threads| && k < |s.threads|
      ensures Apart(m, s', j, k)
    {
      WriteApart(m, s, i, l, t', j, k);
    }
    forall k | k in s'.at
      ensures PairOk(s', k)
    {
      WritePair(m, s, i, l, t', k);
    }
    forall k | k in s'.value
      ensures Somewhere(s', k)
    {
      WriteSomewhere(m, s, i, l, t', k);
    }
    forall n: nat | m.base <= n < s'.cnt
      ensures Given(m, s', n)
    {
      WriteGiven(m, s, i, l, t', n);
    }
  }

  lemma WriteGiven(m: Batch, s: State, i: nat, l: nat, t': Thread, n: nat)
    requires Inv(m, s) && i < |s.threads| && Relieved(m, s, i, l, t')
    requires m.base <= n < Write(s, i, l, t').cnt
    ensures Given(m, Write(s, i, l, t'), n)
  {
    WriteTable(m, s, i, l, t');
    var s' := Write(s, i, l, t');
    assert n < s.cnt ==> Given(m, s, n);
    hide Inv, Sound, Full, CanStand, SearchOk, Given;
    if n < s.cnt {
      GivenStays(m, s, s', n);
    } else {
      assert GivenTo(m, s', n, i);
      Gives(m, s', n, i);
    }
  }

  lemma Gives(m: Batch, s: State, n: nat, j: nat)
    requires GivenTo(m, s, n, j)
    ensures Given(m, s, n)
  {
  }

  // Every step.

  lemma LookKeeps(m: Batch, s: State, ch: Choice)
    requires Inv(m, s) && ch.i < |s.threads| && (s.threads[ch.i].pc.Look? || s.threads[ch.i].pc.Count?)
    ensures Inv(m, Step(m, s, ch))
  {
    At(m, s, ch.i);
    Enabled(m, s, ch.i);
    var t := s.threads[ch.i];
    var t' := Step(m, s, ch).threads[ch.i];
    InRow(m.c, s.keys, s.at, t.hand, t.b);
    FullIs(s.keys[t.b]);
    FillBeyond(m.c, s.keys, t.b);
    LocalKeeps(m, s, ch.i, t');
  }

  lemma FillBeyond(c: Config, keys: seq<seq<int>>, b: nat)
    requires c.nb > 0 && Grid(c, keys) && b < c.nb && Packed(keys[b])
    ensures forall l :: 0 <= l < c.B ==> (keys[b][l] == EMPTY <==> l >= Fill(keys[b]))
  {
  }

  lemma AgainKeeps(m: Batch, s: State, i: nat)
    requires Inv(m, s) && i < |s.threads| && Searching(s.threads[i])
    ensures Inv(m, With(s, i, Again(m, s.threads[i])))
  {
    At(m, s, i);
    hide Inv, Sound, CanStand, Full;
    LocalKeeps(m, s, i, Again(m, s.threads[i]));
  }

  lemma TakeKeeps(m: Batch, s: State, ch: Choice)
    requires Inv(m, s) && ch.i < |s.threads| && s.threads[ch.i].pc.Take?
    ensures Inv(m, Step(m, s, ch))
  {
    At(m, s, ch.i);
    Enabled(m, s, ch.i);
    var t := s.threads[ch.i];
    InRow(m.c, s.keys, s.at, t.hand, t.b);
    AgainKeeps(m, s, ch.i);
    if !ch.busy && s.keys[t.b][t.pc.load] == EMPTY {
      WriteKeeps(m, s, ch.i, t.pc.load, Step(m, s, ch).threads[ch.i]);
    }
  }

  lemma SwapKeeps(m: Batch, s: State, ch: Choice)
    requires Inv(m, s) && ch.i < |s.threads| && s.threads[ch.i].pc.Swap?
    ensures Inv(m, Step(m, s, ch))
  {
    At(m, s, ch.i);
    Enabled(m, s, ch.i);
    AgainKeeps(m, s, ch.i);
    if !ch.busy {
      var t := s.threads[ch.i];
      FullIs(s.keys[t.b]);
      FillBeyond(m.c, s.keys, t.b);
      WriteKeeps(m, s, ch.i, ch.loc % m.c.B, Step(m, s, ch).threads[ch.i]);
    }
  }

  lemma ListKeeps(m: Batch, s: State, ch: Choice)
    requires Inv(m, s) && ch.i < |s.threads| && s.threads[ch.i].pc.List?
    ensures Inv(m, Step(m, s, ch))
  {
    hide Sound, SearchOk;
    Enabled(m, s, ch.i);
    var (t, s') := (s.threads[ch.i], Step(m, s, ch));
    forall j: nat | j < |s.threads|
      ensures ThreadOk(m, s', j)
    {
      ListThread(m, s, ch, j);
    }
    forall k | k in s.value
      ensures Somewhere(s', k)
    {
      assert Somewhere(s, k);
      if k !in s.at {
        var j: nat :| HeldBy(s, k, j);
        assert HeldBy(s', k, j);
      }
    }
    forall j: nat, k: nat | j < |s.threads| && k < |s.threads|
      ensures Apart(m, s', j, k)
    {
      Pair(m, s, j, k);
    }
    forall k | k in s'.at
      ensures PairOk(s', k)
    {
      assert PairOk(s, k);
    }
    forall n: nat | m.base <= n < s.cnt
      ensures Given(m, s', n)
    {
      GivenStays(m, s, s', n);
    }
  }

  lemma ListThread(m: Batch, s: State, ch: Choice, j: nat)
    requires Inv(m, s) && ch.i < |s.threads| && s.threads[ch.i].pc.List? && j < |s.threads|
    ensures Shaped(m, Step(m, s, ch)) && ThreadOk(m, Step(m, s, ch), j)
  {
    At(m, s, j);
    At(m, s, ch.i);
    Enabled(m, s, ch.i);
    Pair(m, s, ch.i, j);
    hide Inv, Sound, CanStand, Full;
  }

  /** Every step of every thread keeps the invariant. */
  lemma StepKeepsInv(m: Batch, s: State, ch: Choice)
    requires Inv(m, s) && ch.i < |s.threads|
    ensures Inv(m, Step(m, s, ch))
  {
    hide Inv;
    match s.threads[ch.i].pc
    case Look(_, _) => LookKeeps(m, s, ch);
    case Count(_, _) => LookKeeps(m, s, ch);
    case Take(_) => TakeKeeps(m, s, ch);
    case Swap => SwapKeeps(m, s, ch);
    case List => ListKeeps(m, s, ch);
    case Done(_) =>
  }

  /** The length of a chain is the number of pairs evicted: one more with each change of the pair
      in hand, while the other threads keep theirs. */
  lemma ChainStep(m: Batch, s: State, ch: Choice, j: nat)
    requires Inv(m, s) && ch.i < |s.threads| && j < |s.threads|
    ensures var (t, t') := (s.threads[j], Step(m, s, ch).threads[j]);
            && t'.chains == (if t'.hand != t.hand then t.chains + 1 else t.chains)
            && (t'.hand != t.hand ==> j == ch.i && t.pc.Swap? && t'.hand in s.at && t.hand in Step(m, s, ch).at)
  {
    At(m, s, ch.i);
    Enabled(m, s, ch.i);
    var t := s.threads[ch.i];
    if t.pc.Swap? {
      Evicted(m.c, s.keys, s.at, t.b, ch.loc % m.c.B);
    }
    hide Inv, Sound, CanStand, Full;
  }

  /** With the lock of a full bucket a thread changes its pair for that of the slot drawn, and goes on
      to the next candidate of that key. A lock that is busy for too long costs it nothing but the
      round: it looks again, unless the chain is as long as allowed. */
  lemma LockStep(m: Batch, s: State, ch: Choice)
    requires Inv(m, s) && ch.i < |s.threads| && (s.threads[ch.i].pc.Swap? || s.threads[ch.i].pc.Take?)
    ensures (Enabled(m, s, ch.i);
             var (t, t', s') := (s.threads[ch.i], Step(m, s, ch).threads[ch.i], Step(m, s, ch));
             if ch.busy then
               && s' == With(s, ch.i, t')
               && t' == t.(pc := if t.chains < m.maxChains then Look(0, false) else Done(Failed))
             else if t.pc.Swap? then
               var l := ch.loc % m.c.B;
               && s'.keys == Put(s.keys, t.b, l, t.hand) && s'.indices == Put(s.indices, t.b, l, s'.value[t.hand])
               && t'.hand == s.keys[t.b][l] && t'.idx == s.indices[t.b][l]
               && t'.b == NextBucket(m.c, t'.hand, t.b) && t'.chains == t.chains + 1
             else true)
  {
    Enabled(m, s, ch.i);
    hide Inv, Sound, CanStand, Full, NextBucket;
  }

  // Whole batches.

  /** Numbers once drawn stay, and so does the old part of the list. */
  ghost predicate Kept(m: Batch, s: State, r: State)
  {
    && r.value.Keys == s.value.Keys && |r.active| == |s.active|
    && (forall k :: k in s.value && s.value[k] != NO_INDEX ==> r.value[k] == s.value[k])
    && forall n :: 0 <= n < m.base && n < |s.active| ==> r.active[n] == s.active[n]
  }

  lemma StepKept(m: Batch, s: State, ch: Choice)
    requires Inv(m, s) && ch.i < |s.threads|
    ensures Kept(m, s, Step(m, s, ch))
  {
    At(m, s, ch.i);
    Enabled(m, s, ch.i);
    hide Inv, Sound, CanStand, Full, Put, Replaced;
  }

  /** Any interleaving, one step for each entry of the schedule. */
  ghost function Run(m: Batch, s: State, schedule: seq<Choice>): (r: State)
    requires Inv(m, s) && forall k :: 0 <= k < |schedule| ==> schedule[k].i < |m.jobs|
    ensures Inv(m, r) && Kept(m, s, r)
    decreases |schedule|
  {
    if schedule == [] then KeptSelf(m, s); s
    else
      StepKeepsInv(m, s, schedule[0]);
      StepKept(m, s, schedule[0]);
      Run(m, Step(m, s, schedule[0]), schedule[1..])
  }

  lemma KeptSelf(m: Batch, s: State)
    requires Inv(m, s)
    ensures Kept(m, s, s)
  {
  }

  /** The new pairs, not numbered yet. */
  function Opening(jobs: seq<Job>): (v: map<int, int>)
    ensures forall k :: k in v <==> exists j :: 0 <= j < |jobs| && jobs[j].key == k
  {
    if jobs == [] then map[]
    else Opening(jobs[..|jobs| - 1])[jobs[|jobs| - 1].key := jobs[|jobs| - 1].index]
  }

  lemma {:induction false} OpeningAt(jobs: seq<Job>, j: nat)
    requires j < |jobs| && forall i :: 0 <= i < |jobs| && i != j ==> jobs[i].key != jobs[j].key
    ensures jobs[j].key in Opening(jobs) && Opening(jobs)[jobs[j].key] == jobs[j].index
  {
    if j < |jobs| - 1 {
      OpeningAt(jobs[..|jobs| - 1], j);
    }
  }

  /** Distinct new keys for a table at rest. */
  ghost predicate Ready(m: Batch, s: State)
  {
    && Sound(m.c, s.keys, s.at) && Grid(m.c, s.indices) && s.cnt == m.base && |s.active| == m.c.nb * m.c.B
    && (forall k :: k in s.at ==> PairOk(s, k)) && s.value.Keys == s.at.Keys
    && (forall j :: 0 <= j < |m.jobs| ==>
        m.jobs[j].key != EMPTY && m.jobs[j].key !in s.at && (m.jobs[j].enqueue <==> m.jobs[j].index == NO_INDEX))
    && forall i, j :: 0 <= i < j < |m.jobs| ==> m.jobs[i].key != m.jobs[j].key
  }

  function Start(m: Batch, s: State): State
    requires m.c.nb > 0
  {
    s.(threads := seq(|m.jobs|, j requires 0 <= j < |m.jobs| =>
         Thread(Look(0, false), m.jobs[j].key, m.jobs[j].index, m.jobs[j].index, 0, Bucket(m.c, m.jobs[j].key, 0))),
       value := s.value + Opening(m.jobs))
  }

  lemma StartThread(m: Batch, s: State, j: nat)
    requires Ready(m, s) && j < |m.jobs|
    ensures Shaped(m, Start(m, s)) && ThreadOk(m, Start(m, s), j)
  {
    OpeningAt(m.jobs, j);
    FirstStand(m.c, s.keys, m.jobs[j].key);
    hide Sound, CanStand;
  }

  lemma StartApart(m: Batch, s: State, i: nat, j: nat)
    requires Ready(m, s) && i < |m.jobs| && j < |m.jobs|
    ensures Apart(m, Start(m, s), i, j)
  {
    hide Sound;
  }

  lemma NewSomewhere(m: Batch, s: State, k: int)
    requires m.c.nb > 0 && k in Opening(m.jobs)
    ensures Somewhere(Start(m, s), k)
  {
    hide Bucket;
    var j: nat :| j < |m.jobs| && m.jobs[j].key == k;
    assert HeldBy(Start(m, s), k, j);
  }

  lemma StartSomewhere(m: Batch, s: State, k: int)
    requires Ready(m, s) && k in Start(m, s).value
    ensures Somewhere(Start(m, s), k)
  {
    if k !in s.at {
      NewSomewhere(m, s, k);
    }
  }

  lemma StartPair(m: Batch, s: State, k: int)
    requires Ready(m, s) && k in s.at
    ensures PairOk(Start(m, s), k)
  {
    assert PairOk(s, k);
    hide Sound;
  }

  lemma StartInv(m: Batch, s: State)
    requires Ready(m, s)
    ensures Inv(m, Start(m, s))
  {
    var s' := Start(m, s);
    hide Sound, ThreadOk, Somewhere, PairOk, Apart, Opening;
    forall j: nat | j < |m.jobs|
      ensures ThreadOk(m, s', j)
    {
      StartThread(m, s, j);
    }
    forall i: nat, j: nat | i < |m.jobs| && j < |m.jobs|
      ensures Apart(m, s', i, j)
    {
      StartApart(m, s, i, j);
    }
    forall k | k in s'.at
      ensures PairOk(s', k)
    {
      StartPair(m, s, k);
    }
    forall k | k in s'.value
      ensures Somewhere(s', k)
    {
      StartSomewhere(m, s, k);
    }
  }

  /** A batch of insertions on a table at rest, in any interleaving. */
  ghost function RunBatch(m: Batch, s: State, schedule: seq<Choice>): (r: State)
    requires Ready(m, s) && forall k :: 0 <= k < |schedule| ==> schedule[k].i < |m.jobs|
    ensures Inv(m, r) && Kept(m, Start(m, s), r)
  {
    StartInv(m, s);
    Run(m, Start(m, s), schedule)
  }

  ghost predicate Finished(s: State)
  {
    forall j :: 0 <= j < |s.threads| ==> s.threads[j].pc.Done?
  }

  /** The keys of the pairs lost in hand. */
  function Lost(threads: seq<Thread>): set<int>
  {
    set j | 0 <= j < |threads| && threads[j].pc == Done(Failed) :: threads[j].hand
  }

  /** An insertion that finds room gives its key the number returned, and lists it under that number
      unless it was given one, or the number drawn is past the end of the list; one that fails has
      evicted exactly as many pairs as a chain may, and may have lost its own pair or another. */
  ghost predicate Outcomes(m: Batch, r: State, j: nat)
    requires j < |m.jobs| == |r.threads|
  {
    var (job, t) := (m.jobs[j], r.threads[j]);
    && job.key in r.value && t.pc.Done? && !t.pc.r.Present?
    && (t.pc.r.Failed? ==> m.maxChains <= t.chains && (t.chains <= m.maxChains || t.chains == 1))
    && (t.pc.r.Placed? ==>
          && r.value[job.key] == t.pc.r.no && (!job.enqueue ==> t.pc.r.no == job.index)
          && (job.enqueue ==> m.base <= t.pc.r.no < r.cnt && t.pc.r.no < |r.active| && r.active[t.pc.r.no] == job.key))
    && (t.pc.r.Overrun? ==> job.enqueue && r.value[job.key] == t.pc.r.no && |r.active| <= t.pc.r.no < r.cnt)
  }

  lemma Whereabouts(m: Batch, r: State, k: int)
    requires Inv(m, r) && Finished(r) && k in r.value
    ensures k in r.at <==> k !in Lost(r.threads)
  {
    assert Somewhere(r, k);
    if k in r.at {
      forall j: nat | j < |r.threads|
        ensures !(r.threads[j].pc == Done(Failed) && r.threads[j].hand == k)
      {
        At(m, r, j);
      }
    } else {
      var j: nat :| HeldBy(r, k, j);
      assert r.threads[j].pc == Done(Failed);
    }
  }

  lemma LostKnown(m: Batch, r: State)
    requires Inv(m, r)
    ensures Lost(r.threads) <= r.value.Keys && r.at.Keys <= r.value.Keys
  {
    forall j: nat | j < |r.threads| && r.threads[j].pc == Done(Failed)
      ensures r.threads[j].hand in r.value
    {
      At(m, r, j);
    }
    forall k | k in r.at
      ensures k in r.value
    {
      assert PairOk(r, k);
    }
  }

  /** Two failed insertions have lost different pairs. */
  ghost predicate LostApart(r: State, i: nat, j: nat)
    requires i < |r.threads| && j < |r.threads|
  {
    i != j && r.threads[i].pc == r.threads[j].pc == Done(Failed) ==> r.threads[i].hand != r.threads[j].hand
  }

  /** The table holds the old pairs and the new ones, each under the number returned, less exactly
      one pair, each another one, for every insertion that failed. */
  ghost predicate Conserved(m: Batch, s: State, r: State)
  {
    && Shaped(m, r) && (forall k :: k in r.at ==> PairOk(r, k))
    && r.value.Keys == s.value.Keys + Opening(m.jobs).Keys
    && (forall k :: k in s.value ==> k in r.value && r.value[k] == s.value[k])
    && (forall j: nat :: j < |m.jobs| ==> Outcomes(m, r, j))
    && Lost(r.threads) <= r.value.Keys && r.at.Keys == r.value.Keys - Lost(r.threads)
    && forall i: nat, j: nat :: i < |m.jobs| && j < |m.jobs| ==> LostApart(r, i, j)
  }

  lemma ThreadsConserve(m: Batch, r: State)
    requires Inv(m, r) && Finished(r)
    ensures Shaped(m, r) && (forall k :: k in r.at ==> PairOk(r, k))
    ensures forall j: nat :: j < |m.jobs| ==> Outcomes(m, r, j)
    ensures forall i: nat, j: nat :: i < |m.jobs| && j < |m.jobs| ==> LostApart(r, i, j)
  {
    hide Sound, Somewhere, Given, CanStand, Apart, ThreadOk, PairOk;
    forall j: nat | j < |m.jobs|
      ensures Outcomes(m, r, j)
    {
      At(m, r, j);
      OwnOutcome(m, r, j);
    }
    forall i: nat, j: nat | i < |m.jobs| && j < |m.jobs|
      ensures LostApart(r, i, j)
    {
      Pair(m, r, i, j);
      LostTwice(m, r, i, j);
    }
  }

  lemma OwnOutcome(m: Batch, r: State, j: nat)
    requires Shaped(m, r) && j < |m.jobs| && ThreadOk(m, r, j) && r.threads[j].pc.Done?
    ensures Outcomes(m, r, j)
  {
    hide Sound;
  }

  lemma LostTwice(m: Batch, r: State, i: nat, j: nat)
    requires i < |r.threads| == |m.jobs| && j < |r.threads| && Apart(m, r, i, j)
    ensures LostApart(r, i, j)
  {
  }

  lemma TableConserves(m: Batch, r: State)
    requires Inv(m, r) && Finished(r)
    ensures Lost(r.threads) <= r.value.Keys && r.at.Keys == r.value.Keys - Lost(r.threads)
  {
    hide Inv, Finished, Lost;
    LostKnown(m, r);
    forall k | k in r.value
      ensures k in r.at <==> k !in Lost(r.threads)
    {
      Whereabouts(m, r, k);
    }
  }

  lemma ValuesConserve(m: Batch, s: State, r: State)
    requires Ready(m, s) && Inv(m, r) && Kept(m, Start(m, s), r)
    ensures r.value.Keys == s.value.Keys + Opening(m.jobs).Keys
    ensures forall k :: k in s.value ==> k in r.value && r.value[k] == s.value[k]
  {
    var s1 := Start(m, s);
    hide Inv, Sound;
    forall k | k in s.value
      ensures k in r.value && r.value[k] == s.value[k]
    {
      assert PairOk(s, k);
      assert k !in Opening(m.jobs);
      assert s1.value[k] == s.value[k];
    }
  }

  /** The outcome of a batch started on a table at rest. */
  ghost predicate Ended(m: Batch, s: State, r: State)
  {
    Ready(m, s) && Inv(m, r) && Kept(m, Start(m, s), r) && Finished(r)
  }

  lemma EndedConserves(m: Batch, s: State, r: State)
    requires Ended(m, s, r)
    ensures Conserved(m, s, r)
  {
    hide Inv, Finished, Lost, Ready, Start, Outcomes, LostApart, PairOk, Kept, Opening, Grid, Slot;
    ThreadsConserve(m, r);
    TableConserves(m, r);
    ValuesConserve(m, s, r);
    hide Sound, Ended;
  }

  /** Whatever the interleaving, once all insertions have returned no pair has been duplicated,
      altered or dropped, but for the pairs of the insertions that failed. */
  lemma BatchConserves(m: Batch, s: State, schedule: seq<Choice>)
    requires Ready(m, s) && forall k :: 0 <= k < |schedule| ==> schedule[k].i < |m.jobs|
    requires Finished(RunBatch(m, s, schedule))
    ensures Conserved(m, s, RunBatch(m, s, schedule)) && Ended(m, s, RunBatch(m, s, schedule))
  {
    var r := RunBatch(m, s, schedule);
    hide RunBatch, Inv, Finished, Ready, Start, Kept, Conserved;
    EndedConserves(m, s, r);
  }

  lemma ListedOld(m: Batch, s: State, r: State, k: int)
    requires Ended(m, s, r) && Roster(s.value, s.active, m.base) && k in s.value && k in r.value
             && r.value[k] == s.value[k]
    ensures 0 <= r.value[k] < m.base && r.value[k] < |r.active| && r.active[r.value[k]] == k
  {
    hide Sound, Inv, Finished;
    assert s.active[s.value[k]] == k;
  }

  lemma LostIn(threads: seq<Thread>, j: nat)
    requires j < |threads| && threads[j].pc == Done(Failed)
    ensures threads[j].hand in Lost(threads)
  {
  }

  lemma NothingLost(threads: seq<Thread>, j: nat)
    requires j < |threads| && Lost(threads) == {}
    ensures threads[j].pc != Done(Failed)
  {
    if threads[j].pc == Done(Failed) {
      LostIn(threads, j);
    }
  }

  /** The thread that drew a number. */
  ghost function TakenBy(m: Batch, r: State, n: nat): (j: nat)
    requires Inv(m, r) && m.base <= n < r.cnt
    ensures GivenTo(m, r, n, j)
  {
    assert Given(m, r, n);
    var j: nat :| GivenTo(m, r, n, j);
    j
  }

  /** Its key has the number. */
  lemma TakenKey(m: Batch, r: State, n: nat)
    requires Inv(m, r) && m.base <= n < r.cnt
    ensures var j := TakenBy(m, r, n);
            && j < |m.jobs| == |r.threads| && m.jobs[j].enqueue && m.jobs[j].key != EMPTY
            && m.jobs[j].key in r.value && r.value[m.jobs[j].key] == n
  {
    At(m, r, TakenBy(m, r, n));
    hide Sound, SearchOk, Inv;
  }

  // How many numbers are drawn.

  /** The insertions that draw a number. */
  function Drawing(jobs: seq<Job>): set<nat>
  {
    set j: nat | j < |jobs| && jobs[j].enqueue
  }

  lemma {:induction false} Pigeons(owner: map<nat, nat>, holes: set<nat>, lo: nat, hi: nat)
    requires lo <= hi && forall n: nat :: lo <= n < hi ==> n in owner && owner[n] in holes
    requires forall n: nat, k: nat :: lo <= n < hi && lo <= k < hi && n != k ==> owner[n] != owner[k]
    ensures hi - lo <= |holes|
    decreases hi - lo
  {
    if lo < hi {
      Pigeons(owner, holes - {owner[lo]}, lo + 1, hi);
    }
  }

  /** At most as many numbers are drawn as there are insertions that draw one. */
  lemma DrawnAtMost(m: Batch, r: State)
    requires Inv(m, r)
    ensures r.cnt - m.base <= |Drawing(m.jobs)|
  {
    hide Inv;
    CountUp(m, r);
    var owner := map n: nat | m.base <= n < r.cnt :: TakenBy(m, r, n);
    forall n: nat | m.base <= n < r.cnt
      ensures owner[n] in Drawing(m.jobs) && r.threads[owner[n]].no == n
    {
      assert GivenTo(m, r, n, owner[n]);
    }
    Pigeons(owner, Drawing(m.jobs), m.base, r.cnt);
  }

  lemma CountUp(m: Batch, r: State)
    requires Inv(m, r)
    ensures m.base <= r.cnt && |r.active| == m.c.nb * m.c.B && |r.threads| == |m.jobs|
  {
  }

  lemma KeysFit(m: Batch, s: State, r: State)
    requires Ended(m, s, r) && Conserved(m, s, r) && Roster(s.value, s.active, m.base)
    ensures r.cnt <= |r.value.Keys|
  {
    hide Ended, Roster, Conserved, Inv;
    var key := map n: nat | n < r.cnt :: KeyOf(m, s, r, n);
    Keyed(key, r.value.Keys, r.cnt, r.value);
  }

  /** Every number has its key, so a table that has lost no pair has drawn no more numbers than it
      has slots. */
  lemma NumbersFit(m: Batch, s: State, r: State)
    requires Ended(m, s, r) && Conserved(m, s, r) && Roster(s.value, s.active, m.base) && Lost(r.threads) == {}
    ensures r.cnt <= |r.active|
  {
    hide Inv, Sound, Kept, Ready, Finished, Outcomes, LostApart, PairOk, Roster;
    EndedIs(m, s, r);
    CountUp(m, r);
    KeysFit(m, s, r);
    SlotsEnough(m.c, r.keys, r.at);
    assert r.at.Keys == r.value.Keys && |r.at| == |r.at.Keys|;
  }

  lemma EndedIs(m: Batch, s: State, r: State)
    requires Ended(m, s, r)
    ensures Inv(m, r) && Sound(m.c, r.keys, r.at)
  {
  }

  ghost function KeyOf(m: Batch, s: State, r: State, n: nat): (k: int)
    requires Ended(m, s, r) && Conserved(m, s, r) && Roster(s.value, s.active, m.base) && n < r.cnt
    ensures k in r.value && r.value[k] == n
  {
    EndedIs(m, s, r);
    hide Ended, Conserved, Inv, Sound;
    if n < m.base then
      OldKey(m, s, r, n); s.active[n]
    else
      TakenKey(m, r, n); m.jobs[TakenBy(m, r, n)].key
  }

  lemma OldKey(m: Batch, s: State, r: State, n: nat)
    requires Conserved(m, s, r) && Roster(s.value, s.active, m.base) && n < m.base
    ensures s.active[n] in r.value && r.value[s.active[n]] == n
  {
    hide Sound, Outcomes, LostApart, PairOk;
    assert s.active[n] in s.value;
  }

  lemma {:induction false} Keyed(key: map<nat, int>, keys: set<int>, n: nat, value: map<int, int>)
    requires forall i: nat :: i < n ==> i in key && key[i] in keys && key[i] in value && value[key[i]] == i
    ensures n <= |keys|
  {
    if n > 0 {
      Keyed(key, keys - {key[n - 1]}, n - 1, value);
    }
  }

  /** No insertion is left without an entry in the list if the numbers to be drawn fit into it, or if
      the list was complete before and no pair is lost. */
  lemma BatchFits(m: Batch, s: State, schedule: seq<Choice>)
    requires Ready(m, s) && forall k :: 0 <= k < |schedule| ==> schedule[k].i < |m.jobs|
    requires Finished(RunBatch(m, s, schedule))
    requires m.base + |Drawing(m.jobs)| <= |s.active|
             || (Roster(s.value, s.active, m.base) && Lost(RunBatch(m, s, schedule).threads) == {})
    ensures var r := RunBatch(m, s, schedule);
            |r.threads| == |m.jobs| && forall j :: 0 <= j < |m.jobs| ==>
                r.threads[j].pc.Done? && !r.threads[j].pc.r.Overrun?
  {
    BatchConserves(m, s, schedule);
    var r := RunBatch(m, s, schedule);
    hide RunBatch, Conserved, Ended, Roster, Lost, Drawing, Ready;
    EndedIs(m, s, r);
    SameList(m, s, r);
    if m.base + |Drawing(m.jobs)| <= |s.active| {
      DrawnAtMost(m, r);
    } else {
      NumbersFit(m, s, r);
    }
    NoneOver(m, s, r);
  }

  lemma SameList(m: Batch, s: State, r: State)
    requires Ended(m, s, r)
    ensures |r.active| == |s.active|
  {
    hide Inv, Ready;
  }

  lemma NoneOver(m: Batch, s: State, r: State)
    requires Conserved(m, s, r) && r.cnt <= |r.active|
    ensures |r.threads| == |m.jobs| && forall j :: 0 <= j < |m.jobs| ==>
            r.threads[j].pc.Done? && !r.threads[j].pc.r.Overrun?
  {
    hide PairOk, LostApart, Sound;
    forall j: nat | j < |m.jobs|
      ensures r.threads[j].pc.Done? && !r.threads[j].pc.r.Overrun?
    {
      assert Outcomes(m, r, j);
    }
  }

  // Complete lists.

  lemma ListedNew(m: Batch, r: State, j: nat)
    requires j < |m.jobs| == |r.threads| && Outcomes(m, r, j) && r.threads[j].pc != Done(Failed) && m.jobs[j].enqueue
             && r.cnt <= |r.active|
    ensures 0 <= m.base <= r.value[m.jobs[j].key] < r.cnt
    ensures r.active[r.value[m.jobs[j].key]] == m.jobs[j].key
  {
  }

  lemma ListedNumber(m: Batch, s: State, r: State, n: nat)
    requires Ended(m, s, r) && Conserved(m, s, r) && Roster(s.value, s.active, m.base)
    requires Lost(r.threads) == {} && n < r.cnt <= |r.active|
    ensures r.active[n] != EMPTY && r.active[n] in r.value && r.value[r.active[n]] == n
  {
    if n < m.base {
      hide Inv, Sound, Outcomes, LostApart, PairOk;
      assert r.active[n] == s.active[n];
      assert s.active[n] in s.value;
    } else {
      TakenKey(m, r, n);
      var j := TakenBy(m, r, n);
      hide Ended, Roster, Lost, PairOk, LostApart, Outcomes;
      NothingLost(r.threads, j);
      ListedNew(m, r, j);
    }
  }

  lemma ListedKey(m: Batch, s: State, r: State, k: int)
    requires Ended(m, s, r) && Conserved(m, s, r) && Roster(s.value, s.active, m.base) && r.cnt <= |r.active|
             && m.base <= r.cnt
    requires Lost(r.threads) == {} && k in r.value && forall j :: 0 <= j < |m.jobs| ==> m.jobs[j].enqueue
    ensures 0 <= r.value[k] < r.cnt && r.active[r.value[k]] == k
  {
    hide Ended, Roster, Lost, PairOk, LostApart, Outcomes;
    if k in s.value {
      ListedOld(m, s, r, k);
    } else {
      assert k in Opening(m.jobs);
      var j: nat :| j < |m.jobs| && m.jobs[j].key == k;
      NothingLost(r.threads, j);
      ListedNew(m, r, j);
    }
  }

  lemma AllListed(m: Batch, s: State, r: State)
    requires Ended(m, s, r) && Conserved(m, s, r) && Roster(s.value, s.active, m.base)
    requires Lost(r.threads) == {} && forall j :: 0 <= j < |m.jobs| ==> m.jobs[j].enqueue
    ensures Roster(r.value, r.active, r.cnt)
  {
    hide Ended, Conserved, Lost;
    NumbersFit(m, s, r);
    EndedIs(m, s, r);
    CountUp(m, r);
    forall n: nat | n < r.cnt
      ensures r.active[n] != EMPTY && r.active[n] in r.value && r.value[r.active[n]] == n
    {
      ListedNumber(m, s, r, n);
    }
    forall k | k in r.value
      ensures 0 <= r.value[k] < r.cnt && r.active[r.value[k]] == k
    {
      ListedKey(m, s, r, k);
    }
  }

  /** A batch of new keys that loses no pair leaves every key listed under its number. */
  lemma BatchListed(m: Batch, s: State, schedule: seq<Choice>)
    requires Ready(m, s) && forall k :: 0 <= k < |schedule| ==> schedule[k].i < |m.jobs|
    requires Finished(RunBatch(m, s, schedule))
    requires Roster(s.value, s.active, m.base) && forall j :: 0 <= j < |m.jobs| ==> m.jobs[j].enqueue
    requires Lost(RunBatch(m, s, schedule).threads) == {}
    ensures var r := RunBatch(m, s, schedule); r.at.Keys == r.value.Keys && Roster(r.value, r.active, r.cnt)
  {
    BatchConserves(m, s, schedule);
    var r := RunBatch(m, s, schedule);
    hide *;
    TableConserves(m, r);
    AllListed(m, s, r);
  }

  // Concurrent rebuilding: `resize` inserts the listed keys by number into an empty table.

  function RebuildJobs(list: seq<int>, n: nat): (jobs: seq<Job>)
    requires n <= |list|
  {
    seq(n, i requires 0 <= i < n => Job(list[i], i, false))
  }

  /** The empty table in which the listed keys are to be put. */
  ghost predicate Emptied(c: Config, was: map<int, int>, s: State)
  {
    && c.nb > 0 && c.B > 0 && s.keys == Blank(c.nb, c.B, EMPTY) && Grid(c, s.indices) && |s.active| == c.nb * c.B
    && s.at == map[] && s.value == map[] && Roster(was, s.active, s.cnt)
  }

  lemma RebuildReady(m: Batch, was: map<int, int>, s: State)
    requires Emptied(m.c, was, s) && m.base == s.cnt && m.jobs == RebuildJobs(s.active, s.cnt)
    ensures Ready(m, s)
  {
    BlankSound(m.c);
    hide Sound;
    forall i, j | 0 <= i < j < |m.jobs|
      ensures m.jobs[i].key != m.jobs[j].key
    {
      assert was[s.active[i]] == i && was[s.active[j]] == j;
    }
  }

  /** The jobs of a rebuild are the listed map. */
  lemma {:induction false} OpeningIs(jobs: seq<Job>, was: map<int, int>, list: seq<int>, n: nat)
    requires Roster(was, list, n) && jobs == RebuildJobs(list, n)
    ensures Opening(jobs) == was
  {
    forall k | k in was
      ensures k in Opening(jobs) && Opening(jobs)[k] == was[k]
    {
      var j := was[k];
      forall i | 0 <= i < |jobs| && i != j
        ensures jobs[i].key != jobs[j].key
      {
        assert was[list[i]] == i;
      }
      OpeningAt(jobs, j);
    }
    forall k | k in Opening(jobs)
      ensures k in was
    {
      var j :| 0 <= j < |jobs| && jobs[j].key == k;
      assert list[j] in was;
    }
  }

  /** After a concurrent rebuild the table holds the listed pairs, each under its number, less
      exactly one, each another one, for every insertion that failed; list and counter are as before. */
  lemma BatchRebuilds(m: Batch, was: map<int, int>, s: State, schedule: seq<Choice>)
    requires Emptied(m.c, was, s) && m.base == s.cnt && m.jobs == RebuildJobs(s.active, s.cnt)
    requires forall k :: 0 <= k < |schedule| ==> schedule[k].i < |m.jobs|
    ensures Ready(m, s)
    ensures var r := RunBatch(m, s, schedule);
            Finished(r) ==>
              && Conserved(m, s, r) && r.value == was && r.at.Keys == was.Keys - Lost(r.threads) && r.cnt == s.cnt
              && (forall k :: k in r.at ==> r.at[k].0 < |r.indices| && r.at[k].1 < |r.indices[r.at[k].0]|)
              && (forall k :: k in r.at ==> Entries(r.at, r.indices)[k] == was[k])
              && (forall n :: 0 <= n < s.cnt ==> r.active[n] == s.active[n])
  {
    RebuildReady(m, was, s);
    var r := RunBatch(m, s, schedule);
    if Finished(r) {
      BatchConserves(m, s, schedule);
      hide RunBatch, Ready, Start, Finished, Sound, Outcomes, LostApart, Roster, Lost, Opening, Inv, Kept, Drawing;
      OpeningIs(m.jobs, was, s.active, s.cnt);
      RebuildKept(m, was, s, r);
      forall k | k in r.at
        ensures PairOk(r, k)
      {
      }
    }
  }

  lemma NoneDraws(list: seq<int>, n: nat)
    requires n <= |list|
    ensures Drawing(RebuildJobs(list, n)) == {}
  {
  }

  lemma RebuildKept(m: Batch, was: map<int, int>, s: State, r: State)
    requires Emptied(m.c, was, s) && m.base == s.cnt && m.jobs == RebuildJobs(s.active, s.cnt)
    requires Ended(m, s, r) && Opening(m.jobs) == was
    ensures r.value == was && r.cnt == s.cnt && forall n :: 0 <= n < s.cnt ==> r.active[n] == s.active[n]
  {
    hide Sound, Finished, Inv, Ready, Opening, Drawing, RebuildJobs, Grid, Blank;
    EndedIs(m, s, r);
    CountUp(m, r);
    NoneDraws(s.active, s.cnt);
    DrawnAtMost(m, r);
    assert Start(m, s).value == was;
    assert forall k :: k in was ==> r.value[k] == was[k];
  }
}
