/** `SpscQueue`: one producer and one consumer on a ring of cells, every counter load, cell
    access and counter store a step of its own. */
module SpscQueue {
  import opened WordBits
  import opened SpscSizes

  /** A cell holds a constructed object or raw storage. */
  datatype Cell = Raw | Object(value: int)

  datatype Producer =
    | Idle
    | LoadTail(item: int, head: nat)
    | Test(item: int, head: nat, tail: nat, seen: nat)
    | Construct(item: int, head: nat)
    | Publish(item: int, head: nat)

  datatype Consumer =
    | Rest
    | LoadHead(tail: nat)
    | Compare(tail: nat, head: nat, seen: nat)
    | Move(tail: nat)
    | Destroy(tail: nat, item: int)
    | Release(tail: nat, item: int)

  /** `head` and `tail` are 64-bit words; `sent` and `got` record all values ever published and
      taken, `seen` the number of values behind a counter that was read. */
  datatype State = State(head: nat, tail: nat, chunks: seq<seq<Cell>>, p: Producer, c: Consumer, sent: seq<int>,
      got: seq<int>)

  ghost predicate Sized(q: Layout, s: State)
  {
    && LaidOut(q) && |s.chunks| == q.count && (forall i :: 0 <= i < q.count ==> |s.chunks[i]| == q.chunk)
    && q.capacity <= Pow2(63)
  }

  /** The cell of a position, whatever lap it is in. */
  ghost function Cell_(q: Layout, s: State, position: nat): Cell
    requires Sized(q, s)
  {
    CellAtIs(q, position);
    s.chunks[CellAt(q, position).0][CellAt(q, position).1]
  }

  /** What the `k`-th cell from the tail on holds. */
  ghost predicate Expected(q: Layout, s: State, k: nat)
    requires Sized(q, s) && |s.got| <= |s.sent|
  {
    var n := |s.sent| - |s.got|;
    Cell_(q, s, |s.got| + k) ==
      if k < n then (if k == 0 && s.c.Release? then Raw else Object(s.sent[|s.got| + k]))
      else if k == n && s.p.Publish? then Object(s.p.item)
      else Raw
  }

  ghost predicate Inv(q: Layout, s: State)
  {
    && Sized(q, s)
    && |s.got| <= |s.sent| && |s.sent| - |s.got| <= q.capacity < WORD
    && s.got == s.sent[..|s.got|]
    && s.head == |s.sent| % WORD && s.tail == |s.got| % WORD
    && (forall k: nat :: k < q.capacity ==> Expected(q, s, k))
    && ProducerOk(q, s) && ConsumerOk(q, s)
  }

  ghost predicate ProducerOk(q: Layout, s: State)
  {
    match s.p
    case Idle => true
    case LoadTail(_, h) => h == s.head
    case Test(_, h, t, seen) => h == s.head && t == seen % WORD && seen <= |s.got| && |s.sent| - seen <= q.capacity
    case Construct(_, h) => h == s.head && |s.sent| - |s.got| < q.capacity
    case Publish(_, h) => h == s.head && |s.sent| - |s.got| < q.capacity
  }

  ghost predicate ConsumerOk(q: Layout, s: State)
  {
    match s.c
    case Rest => true
    case LoadHead(t) => t == s.tail
    case Compare(t, h, seen) => t == s.tail && h == seen % WORD && |s.got| <= seen <= |s.sent|
    case Move(t) => t == s.tail && |s.got| < |s.sent|
    case Destroy(t, v) => t == s.tail && |s.got| < |s.sent| && v == s.sent[|s.got|]
    case Release(t, v) => t == s.tail && |s.got| < |s.sent| && v == s.sent[|s.got|]
  }

  function Put(g: seq<seq<Cell>>, at: (nat, nat), x: Cell): seq<seq<Cell>>
    requires at.0 < |g| && at.1 < |g[at.0]|
  {
    g[at.0 := g[at.0][at.1 := x]]
  }

  datatype Action = Produce(v: int) | Consume

  /** A step of the producer; an idle one starts to enqueue the value at hand. */
  ghost function ProducerStep(q: Layout, s: State, v: int): State
    requires Sized(q, s)
  {
    match s.p
    case Idle => s.(p := LoadTail(v, s.head))
    case LoadTail(x, h) => s.(p := Test(x, h, s.tail, |s.got|))
    case Test(x, h, t, _) => if (h + WORD - t) % WORD >= q.capacity then s.(p := Idle) else s.(p := Construct(x, h))
    case Construct(x, h) =>
      CellAtIs(q, h);
      s.(chunks := Put(s.chunks, CellAt(q, h), Object(x)), p := Publish(x, h))
    case Publish(x, h) => s.(head := (h + 1) % WORD, sent := s.sent + [x], p := Idle)
  }

  ghost function ConsumerStep(q: Layout, s: State): State
    requires Sized(q, s)
  {
    match s.c
    case Rest => s.(c := LoadHead(s.tail))
    case LoadHead(t) => s.(c := Compare(t, s.head, |s.sent|))
    case Compare(t, h, _) => if t == h then s.(c := Rest) else s.(c := Move(t))
    case Move(t) =>
      CellAtIs(q, t);
      var cell := Cell_(q, s, t);
      s.(c := Destroy(t, if cell.Object? then cell.value else 0))
    case Destroy(t, v) =>
      CellAtIs(q, t);
      s.(chunks := Put(s.chunks, CellAt(q, t), Raw), c := Release(t, v))
    case Release(t, v) => s.(tail := (t + 1) % WORD, got := s.got + [v], c := Rest)
  }

  ghost function Step(q: Layout, s: State, a: Action): State
    requires Sized(q, s)
  {
    match a
    case Produce(v) => ProducerStep(q, s, v)
    case Consume => ConsumerStep(q, s)
  }

  // Arithmetic of wrapping counters and cells.

  lemma WrapNext(n: nat)
    ensures (n % WORD + 1) % WORD == (n + 1) % WORD
  {
  }

  /** The difference of two wrapped counters is the difference of the counts. */
  lemma WrapDifference(a: nat, b: nat)
    requires b <= a < b + WORD
    ensures (a % WORD + WORD - b % WORD) % WORD == a - b
    ensures a % WORD == b % WORD <==> a == b
  {
  }

  /** Within one lap different positions have different cells. */
  lemma OtherCell(q: Layout, a: nat, b: nat)
    requires LaidOut(q) && a < b < a + q.capacity
    ensures CellAt(q, a) != CellAt(q, b)
  {
    hide CellAt, LaidOut;
    CellAtIs(q, a);
    CellAtIs(q, b);
    OtherRemainder(a, b, q.capacity);
    Recombined(a % q.capacity, q.chunk);
    Recombined(b % q.capacity, q.chunk);
  }

  lemma OtherRemainder(a: nat, b: nat, m: nat)
    requires m >= 1 && a < b < a + m
    ensures a % m != b % m
  {
    Split(a, m);
    Split(b, m);
    Gap(a, b, m, a / m, b / m, a % m, b % m);
  }

  lemma Split(a: nat, m: nat)
    requires m >= 1
    ensures a == (a / m) * m + a % m
  {
  }

  lemma Gap(a: nat, b: nat, m: nat, d: int, e: int, r: int, s: int)
    requires m >= 1 && a < b < a + m && a == d * m + r && b == e * m + s
    ensures r != s
  {
    Distance(e, d, m);
    Multiples(e - d, m);
  }

  lemma Distance(e: int, d: int, m: nat)
    ensures (e - d) * m == e * m - d * m
  {
  }

  lemma Multiples(k: int, m: nat)
    ensures k >= 1 ==> k * m >= m
    ensures k <= 0 ==> k * m <= 0
  {
    if k >= 1 {
      assert (k - 1) * m >= 0;
      assert k * m == (k - 1) * m + m;
    } else {
      assert (-k) * m >= 0;
      assert k * m == -((-k) * m);
    }
  }

  lemma SamePlace(q: Layout, a: nat, b: nat)
    requires LaidOut(q) && b == a + q.capacity
    ensures CellAt(q, a) == CellAt(q, b)
  {
    hide CellAt, LaidOut;
    CellAtIs(q, a);
    CellAtIs(q, b);
    var (m, d) := (q.capacity, a / q.capacity);
    assert a == m * d + a % m && (d + 1) * m == m * d + m;
    ModIs(b, m, d + 1, a % m);
  }

  lemma AtHead(q: Layout, s: State)
    requires Inv(q, s)
    ensures CellAt(q, s.head) == CellAt(q, |s.sent|) && CellAt(q, s.tail) == CellAt(q, |s.got|)
  {
    CellAtWraps(q, |s.sent|);
    CellAtWraps(q, |s.got|);
  }

  /** Writing one cell of the lap leaves the others alone. */
  lemma PutCell(q: Layout, s: State, position: nat, other: nat, x: Cell)
    requires Sized(q, s) && (position < other < position + q.capacity || other < position < other + q.capacity
             || other == position)
    ensures var (i, j) := CellAt(q, position);
            && i < q.count && j < q.chunk
            && var s' := s.(chunks := Put(s.chunks, (i, j), x));
            Sized(q, s') && Cell_(q, s', other) == if other == position then x else Cell_(q, s, other)
  {
    hide LaidOut, CellAt;
    CellAtIs(q, position);
    CellAtIs(q, other);
    if other > position {
      OtherCell(q, position, other);
    } else if other < position {
      OtherCell(q, other, position);
    }
  }

  lemma LoadKeeps(q: Layout, s: State, a: Action)
    requires Inv(q, s)
    requires if a.Produce? then s.p.Idle? || s.p.LoadTail? || s.p.Test?
             else s.c.Rest? || s.c.LoadHead? || s.c.Compare? || s.c.Move?
    ensures Inv(q, Step(q, s, a))
  {
    hide LaidOut, CellAt, Inv;
    Counters(q, s);
    LoadState(q, s, a);
    var s' := Step(q, s, a);
    forall k: nat | k < q.capacity
      ensures Expected(q, s', k)
    {
      ExpectedIs(q, s, k);
    }
    hide ProducerStep, ConsumerStep, Expected, ProducerOk, ConsumerOk;
    Together(q, s');
  }

  lemma ExpectedIs(q: Layout, s: State, k: nat)
    requires Inv(q, s) && k < q.capacity
    ensures Sized(q, s) && |s.got| <= |s.sent| && Expected(q, s, k)
  {
  }

  lemma Together(q: Layout, s: State)
    requires Sized(q, s) && |s.got| <= |s.sent| && |s.sent| - |s.got| <= q.capacity < WORD && s.got == s.sent[..|s.got|]
    requires s.head == |s.sent| % WORD && s.tail == |s.got| % WORD && ProducerOk(q, s) && ConsumerOk(q, s)
    requires forall k: nat :: k < q.capacity ==> Expected(q, s, k)
    ensures Inv(q, s)
  {
  }

  lemma LoadState(q: Layout, s: State, a: Action)
    requires Inv(q, s)
    requires if a.Produce? then s.p.Idle? || s.p.LoadTail? || s.p.Test?
             else s.c.Rest? || s.c.LoadHead? || s.c.Compare? || s.c.Move?
    ensures var s' := Step(q, s, a);
            && Sized(q, s') && s'.sent == s.sent && s'.got == s.got && s'.head == s.head && s'.tail == s.tail
                && s'.chunks == s.chunks
            && ProducerOk(q, s') && ConsumerOk(q, s')
  {
    hide LaidOut, CellAt, Inv, Cell_;
    Counters(q, s);
    if a.Produce? && s.p.Test? {
      WrapDifference(|s.sent|, s.p.seen);
    }
    if a.Consume? && s.c.Compare? {
      WrapDifference(s.c.seen, |s.got|);
    }
    if a.Consume? && s.c.Move? {
      AtHead(q, s);
      FrontCell(q, s);
    }
  }

  lemma FrontCell(q: Layout, s: State)
    requires Inv(q, s) && s.c.Move?
    ensures |s.got| < |s.sent| && Sized(q, s) && Cell_(q, s, s.c.tail) == Object(s.sent[|s.got|])
  {
    hide CellAt;
    AtHead(q, s);
    assert Expected(q, s, 0);
  }

  lemma ConstructKeeps(q: Layout, s: State, v: int)
    requires Inv(q, s) && s.p.Construct?
    ensures Inv(q, ProducerStep(q, s, v)) && Cell_(q, s, s.p.head) == Raw
  {
    hide LaidOut, CellAt;
    AtHead(q, s);
    var (g, n) := (|s.got|, |s.sent| - |s.got|);
    assert Expected(q, s, n);
    var s' := ProducerStep(q, s, v);
    PutCell(q, s, |s.sent|, |s.sent|, Object(s.p.item));
    forall k: nat | k < q.capacity
      ensures Expected(q, s', k)
    {
      assert Expected(q, s, k);
      PutCell(q, s, |s.sent|, g + k, Object(s.p.item));
    }
  }

  lemma PublishExpected(q: Layout, s: State, v: int, k: nat)
    requires Inv(q, s) && s.p.Publish? && k < q.capacity
    ensures var s' := ProducerStep(q, s, v); Sized(q, s') && |s'.got| <= |s'.sent| && Expected(q, s', k)
  {
    hide LaidOut, CellAt, Inv;
    Counters(q, s);
    ExpectedIs(q, s, k);
  }

  lemma PublishKeeps(q: Layout, s: State, v: int)
    requires Inv(q, s) && s.p.Publish?
    ensures Inv(q, ProducerStep(q, s, v))
  {
    hide LaidOut, CellAt, Inv, Expected;
    Counters(q, s);
    var s' := ProducerStep(q, s, v);
    WrapNext(|s.sent|);
    assert s'.got == s'.sent[..|s'.got|];
    forall k: nat | k < q.capacity
      ensures Sized(q, s') && Expected(q, s', k)
    {
      PublishExpected(q, s, v, k);
    }
    Together(q, s');
  }

  lemma DestroyKeeps(q: Layout, s: State)
    requires Inv(q, s) && s.c.Destroy?
    ensures Inv(q, ConsumerStep(q, s)) && Cell_(q, s, s.c.tail) == Object(s.c.item)
  {
    hide LaidOut, CellAt;
    AtHead(q, s);
    assert Expected(q, s, 0);
    var s' := ConsumerStep(q, s);
    PutCell(q, s, |s.got|, |s.got|, Raw);
    forall k: nat | k < q.capacity
      ensures Expected(q, s', k)
    {
      assert Expected(q, s, k);
      PutCell(q, s, |s.got|, |s.got| + k, Raw);
    }
  }

  lemma ReleaseKeeps(q: Layout, s: State)
    requires Inv(q, s) && s.c.Release?
    ensures Inv(q, ConsumerStep(q, s))
  {
    hide LaidOut, CellAt;
    var s' := ConsumerStep(q, s);
    WrapNext(|s.got|);
    assert s'.got == s'.sent[..|s'.got|];
    forall k: nat | k < q.capacity
      ensures Expected(q, s', k)
    {
      if k + 1 < q.capacity {
        assert Expected(q, s, k + 1);
      } else {
        assert Expected(q, s, 0);
        SamePlace(q, |s.got|, |s.got| + q.capacity);
      }
    }
  }

  lemma StepKeepsInv(q: Layout, s: State, a: Action)
    requires Inv(q, s)
    ensures Inv(q, Step(q, s, a))
  {
    hide Inv, ProducerStep, ConsumerStep;
    match a
    case Produce(v) =>
      match s.p {
        case Construct(_, _) => ConstructKeeps(q, s, v);
        case Publish(_, _) => PublishKeeps(q, s, v);
        case _ => LoadKeeps(q, s, a);
      }
    case Consume =>
      match s.c {
        case Destroy(_, _) => DestroyKeeps(q, s);
        case Release(_, _) => ReleaseKeeps(q, s);
        case _ => LoadKeeps(q, s, a);
      }
  }

  /** The queue starts with both counters at zero and all storage raw. */
  ghost predicate Begun(q: Layout, s: State)
  {
    && Sized(q, s) && s.p == Idle && s.c == Rest && s.sent == [] && s.got == [] && s.head == 0 && s.tail == 0
    && forall i, j :: 0 <= i < q.count && 0 <= j < q.chunk ==> s.chunks[i][j] == Raw
  }

  lemma BegunInv(q: Layout, s: State)
    requires Begun(q, s)
    ensures Inv(q, s)
  {
    hide LaidOut, CellAt;
    WordIs();
    assert Pow2(63) < Pow2(64);
    forall k: nat | k < q.capacity
      ensures Expected(q, s, k)
    {
      CellAtIs(q, k);
    }
  }

  /** Any interleaving of the two threads. */
  ghost function Run(q: Layout, s: State, schedule: seq<Action>): (r: State)
    requires Inv(q, s)
    ensures Inv(q, r)
    decreases |schedule|
  {
    if schedule == [] then s
    else
      StepKeepsInv(q, s, schedule[0]);
      Run(q, Step(q, s, schedule[0]), schedule[1..])
  }

  // The queue as a bounded first-in-first-out buffer.

  ghost function Contents(s: State): seq<int>
    requires |s.got| <= |s.sent|
  {
    s.sent[|s.got|..]
  }

  /** What a step does to the buffer: a publication appends the value at hand, a release takes the
      first value, everything else leaves the contents alone; a producer gives up only on what was
      a full buffer, a consumer only on what was an empty one. */
  ghost predicate Refines(q: Layout, s: State, s': State, a: Action)
    requires |s.got| <= |s.sent| && |s'.got| <= |s'.sent|
  {
    match a
    case Produce(_) =>
      if s.p.Publish? then |Contents(s)| < q.capacity && Contents(s') == Contents(s) + [s.p.item]
      else
        && Contents(s') == Contents(s)
        && (s.p.LoadTail? ==> s'.p.Test? && (TurnedAway(q, s'.p) <==> |Contents(s)| == q.capacity))
        && (s.p.Test? ==> (s'.p.Idle? <==> TurnedAway(q, s.p)))
    case Consume =>
      if s.c.Release? then |Contents(s)| > 0 && Contents(s') == Contents(s)[1..] && s.c.item == Contents(s)[0]
      else
        && Contents(s') == Contents(s)
        && (s.c.LoadHead? ==> s'.c.Compare? && (s'.c.tail == s'.c.head <==> |Contents(s)| == 0))
        && (s.c.Compare? ==> (s'.c.Rest? <==> s.c.tail == s.c.head))
  }

  predicate TurnedAway(q: Layout, p: Producer)
    requires p.Test?
  {
    (p.head + WORD - p.tail) % WORD >= q.capacity
  }

  lemma StepRefines(q: Layout, s: State, a: Action)
    requires Inv(q, s)
    ensures var s' := Step(q, s, a); |s'.got| <= |s'.sent| && Refines(q, s, s', a)
  {
    hide LaidOut, CellAt, Inv, Cell_, CellAt;
    Counters(q, s);
    WrapDifference(|s.sent|, |s.got|);
    if a.Produce? {
      hide ConsumerOk, ConsumerStep;
      ProducerRefines(q, s, a.v);
    } else {
      hide ProducerOk, ProducerStep;
      ConsumerRefines(q, s);
    }
  }

  lemma Counters(q: Layout, s: State)
    requires Inv(q, s)
    ensures Sized(q, s) && |s.got| <= |s.sent| && |s.sent| - |s.got| <= q.capacity < WORD && s.got == s.sent[..|s.got|]
    ensures s.head == |s.sent| % WORD && s.tail == |s.got| % WORD && ProducerOk(q, s) && ConsumerOk(q, s)
  {
  }

  lemma ProducerRefines(q: Layout, s: State, v: int)
    requires Inv(q, s)
    ensures var s' := ProducerStep(q, s, v); |s'.got| <= |s'.sent| && Refines(q, s, s', Produce(v))
  {
    hide LaidOut, CellAt, Inv, Cell_, ConsumerOk, ConsumerStep;
    Counters(q, s);
    WrapDifference(|s.sent|, |s.got|);
  }

  lemma ConsumerRefines(q: Layout, s: State)
    requires Inv(q, s)
    ensures var s' := ConsumerStep(q, s); |s'.got| <= |s'.sent| && Refines(q, s, s', Consume)
  {
    hide LaidOut, CellAt, Inv, Cell_, ProducerOk, ProducerStep;
    Counters(q, s);
    WrapDifference(|s.sent|, |s.got|);
  }

  /** Producer and consumer never touch one cell at the same time, and each finds it as it needs
      it: raw storage to build in, a live object to take. */
  lemma NoClash(q: Layout, s: State)
    requires Inv(q, s)
    ensures s.p.Construct? ==> Cell_(q, s, s.p.head) == Raw
    ensures s.c.Move? ==> Cell_(q, s, s.c.tail) == Object(s.sent[|s.got|])
    ensures s.c.Destroy? ==> Cell_(q, s, s.c.tail) == Object(s.c.item)
    ensures (s.p.Construct? || s.p.Publish?) && (s.c.Move? || s.c.Destroy? || s.c.Release?) ==>
              CellAt(q, s.p.head) != CellAt(q, s.c.tail)
  {
    hide CellAt;
    AtHead(q, s);
    assert Expected(q, s, 0);
    if s.p.Construct? || s.p.Publish? {
      assert Expected(q, s, |s.sent| - |s.got|);
      if |s.got| < |s.sent| {
        OtherCell(q, |s.got|, |s.sent|);
      }
    }
  }

  /** Values come out in the order in which they went in, none lost, none twice. */
  lemma FirstInFirstOut(q: Layout, s: State, schedule: seq<Action>)
    requires Begun(q, s)
    ensures Inv(q, s)
    ensures var r := Run(q, s, schedule);
            |r.got| <= |r.sent| <= |r.got| + q.capacity && r.got == r.sent[..|r.got|]
  {
    BegunInv(q, s);
  }

  /** Steps that a call still takes at most. */
  function ProducerLeft(p: Producer): nat
  {
    match p
    case LoadTail(_, _) => 4
    case Test(_, _, _, _) => 3
    case Construct(_, _) => 2
    case Publish(_, _) => 1
    case Idle => 0
  }

  function ConsumerLeft(c: Consumer): nat
  {
    match c
    case LoadHead(_) => 5
    case Compare(_, _, _) => 4
    case Move(_) => 3
    case Destroy(_, _) => 2
    case Release(_, _) => 1
    case Rest => 0
  }

  /** Both calls return after a bounded number of their own steps, whatever the other thread does: five
      to enqueue, six to dequeue. */
  lemma WaitFree(q: Layout, s: State, a: Action)
    requires Inv(q, s)
    ensures var s' := Step(q, s, a);
            if a.Produce? then
              && s'.c == s.c
              && if s.p.Idle? then ProducerLeft(s'.p) == 4 else ProducerLeft(s'.p) < ProducerLeft(s.p)
            else
              && s'.p == s.p
              && if s.c.Rest? then ConsumerLeft(s'.c) == 5 else ConsumerLeft(s'.c) < ConsumerLeft(s.c)
  {
    hide LaidOut, CellAt, Inv, Cell_, Expected;
    Counters(q, s);
    if a.Produce? {
      hide ConsumerOk, ConsumerStep, ConsumerLeft;
      EnqueueFree(q, s, a.v);
    } else {
      hide ProducerOk, ProducerStep, ProducerLeft;
      DequeueFree(q, s);
    }
  }

  lemma EnqueueFree(q: Layout, s: State, v: int)
    requires Sized(q, s)
    ensures var s' := ProducerStep(q, s, v);
            s'.c == s.c && if s.p.Idle? then ProducerLeft(s'.p) == 4 else ProducerLeft(s'.p) < ProducerLeft(s.p)
  {
    hide LaidOut, CellAt;
  }

  lemma DequeueFree(q: Layout, s: State)
    requires Sized(q, s)
    ensures var s' := ConsumerStep(q, s);
            s'.p == s.p && if s.c.Rest? then ConsumerLeft(s'.c) == 5 else ConsumerLeft(s'.c) < ConsumerLeft(s.c)
  {
    hide LaidOut, CellAt, Cell_;
  }

  /** The values published in a run, each as it was handed over when its call began; `v` is that of
      a call under way. */
  ghost function Published(q: Layout, s: State, schedule: seq<Action>, v: int): seq<int>
    requires Inv(q, s)
    decreases |schedule|
  {
    if schedule == [] then []
    else
      StepKeepsInv(q, s, schedule[0]);
      var s' := Step(q, s, schedule[0]);
      var w := if schedule[0].Produce? && s.p.Idle? then schedule[0].v else v;
      (if |s'.sent| > |s.sent| then [w] else []) + Published(q, s', schedule[1..], w)
  }

  /** A call goes on with the value it was given. */
  lemma StepGiven(q: Layout, s: State, a: Action, v: int)
    requires Inv(q, s) && (s.p.Idle? || s.p.item == v)
    ensures var (s', w) := (Step(q, s, a), if a.Produce? && s.p.Idle? then a.v else v);
            && (s'.p.Idle? || s'.p.item == w)
            && (if |s'.sent| > |s.sent| then s'.sent == s.sent + [w] else s'.sent == s.sent)
            && (s.p.Idle? && a.Produce? ==> !s'.p.Idle?)
  {
    hide LaidOut, CellAt, Inv, Cell_, Expected;
    Counters(q, s);
  }

  /** What is published are the values handed over, in the order of the calls that published them. */
  lemma {:induction false} SentAsGiven(q: Layout, s: State, schedule: seq<Action>, v: int)
    requires Inv(q, s) && (s.p.Idle? || s.p.item == v)
    ensures Run(q, s, schedule).sent == s.sent + Published(q, s, schedule, v)
    decreases |schedule|
  {
    hide Inv, Step, Expected, ProducerOk, ConsumerOk;
    if schedule != [] {
      var a := schedule[0];
      Counters(q, s);
      StepKeepsInv(q, s, a);
      StepGiven(q, s, a, v);
      SentAsGiven(q, Step(q, s, a), schedule[1..], if a.Produce? && s.p.Idle? then a.v else v);
    }
  }
}
