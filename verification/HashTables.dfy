/** The open-addressing `HashTable`: a power-of-two number of slots, probed with stride 127. */
module HashProbes {
  import opened WordBits

  const STRIDE := 127

  /** The remainder of C++, which takes the sign of the dividend. */
  function Rem(a: int, n: nat): int
    requires n > 0
  {
    if a >= 0 then a % n else -((-a) % n)
  }

  /** First slot of a key: `(hash % n + n) % n` on signed numbers is the residue of the hash. */
  function First(hash: int, n: nat): (p: nat)
    requires n > 0
    ensures p < n && p == hash % n
  {
    Residue(hash, n); Rem(Rem(hash, n) + n, n)
  }

  lemma Residue(a: int, n: nat)
    requires n > 0
    ensures 0 <= Rem(Rem(a, n) + n, n) < n && Rem(Rem(a, n) + n, n) == a % n
  {
    var (b, q) := (if a >= 0 then a else -a, (if a >= 0 then a else -a) / n);
    Divided(b, n);
    if a >= 0 {
      Shifted(q, -1, n);
      SameResidue(a, a % n + n, q - 1, n);
    } else {
      Shifted(-q, -1, n);
      SameResidue(a, n - b % n, -q - 1, n);
    }
  }

  lemma Divided(b: nat, n: nat)
    requires n > 0
    ensures b == (b / n) * n + b % n && 0 <= b % n < n
  {
  }

  lemma Shifted(q: int, d: int, n: nat)
    ensures (q + d) * n == q * n + d * n && (-q) * n == -(q * n)
  {
  }

  lemma SameResidue(a: int, b: int, q: int, n: nat)
    requires n > 0 && a == b + q * n
    ensures a % n == b % n
  {
    var (x, y) := (a / n, b / n);
    assert a == x * n + a % n && b == y * n + b % n;
    assert (x - y - q) * n == b % n - a % n;
    assert x - y - q >= 1 ==> (x - y - q) * n >= n;
    assert x - y - q <= -1 ==> (x - y - q) * n <= 0 - n;
  }

  /** The slot looked at after `k` steps from slot `p`. */
  function Probe(p: nat, k: nat, n: nat): (q: nat)
    requires n > 0
    ensures q < n
  {
    (p + STRIDE * k) % n
  }

  lemma ProbeNext(p: nat, k: nat, n: nat)
    requires n > 0
    ensures Probe(p, k + 1, n) == (Probe(p, k, n) + STRIDE) % n
  {
    var x := p + STRIDE * k;
    assert x == (x / n) * n + x % n;
    SameResidue(x + STRIDE, x % n + STRIDE, x / n, n);
  }

  /** Odd strides step off every multiple of a smaller power of two. */
  lemma {:induction false} NoCycle(e: nat, d: nat, q: int)
    requires 0 < d < Pow2(e)
    ensures STRIDE * d != q * Pow2(e)
  {
    if STRIDE * d == q * Pow2(e) {
      Halves(d, q, Pow2(e - 1));
      NoCycle(e - 1, d / 2, q);
    }
  }

  lemma Halves(d: nat, q: int, h: nat)
    requires STRIDE * d == q * (2 * h)
    ensures d % 2 == 0 && STRIDE * (d / 2) == q * h
  {
    assert q * (2 * h) == 2 * (q * h);
  }

  /** The first `n` probes look at different slots. */
  lemma ProbesDistinct(e: nat, p: nat, i: nat, j: nat)
    requires i < j < Pow2(e)
    ensures Probe(p, i, Pow2(e)) != Probe(p, j, Pow2(e))
  {
    var n := Pow2(e);
    var (a, b) := (p + STRIDE * i, p + STRIDE * j);
    if a % n == b % n {
      assert a == (a / n) * n + a % n && b == (b / n) * n + b % n;
      assert (b / n - a / n) * n == (b / n) * n - (a / n) * n;
      NoCycle(e, j - i, b / n - a / n);
    }
  }

  /** How many steps from one slot to another. */
  lemma {:induction false} Steps(e: nat, r: int) returns (k: nat, q: int)
    ensures k < Pow2(e) && STRIDE * k == r + q * Pow2(e)
  {
    if e == 0 {
      k, q := 0, -r;
    } else {
      var k0, q0 := Steps(e - 1, r);
      var h := Pow2(e - 1);
      if q0 % 2 == 0 {
        k, q := k0, q0 / 2;
        Twofold(q, q0, h);
      } else {
        k, q := k0 + h, (q0 + STRIDE) / 2;
        Twofold(q, q0 + STRIDE, h);
        assert STRIDE * (k0 + h) == STRIDE * k0 + STRIDE * h;
        assert (q0 + STRIDE) * h == q0 * h + STRIDE * h;
      }
    }
  }

  lemma Twofold(q: int, q0: int, h: nat)
    requires 2 * q == q0
    ensures q * (2 * h) == q0 * h
  {
  }

  /** Within `n` probes every slot is looked at. */
  lemma ProbesAll(e: nat, p: nat, slot: nat) returns (k: nat)
    requires slot < Pow2(e)
    ensures k < Pow2(e) && Probe(p, k, Pow2(e)) == slot
  {
    var q;
    k, q := Steps(e, slot - p);
    SameResidue(p + STRIDE * k, slot, q, Pow2(e));
    Small(slot, Pow2(e));
  }

  lemma Small(x: nat, n: nat)
    requires x < n
    ensures x % n == x
  {
  }
}

/** Insertion into the table: probing, the compare-and-swap on a slot, numbering. The steps of all
    threads interleave freely; a slot's compare-and-swap, done under the slot's lock, is one step. */
module HashTables {
  import opened HashProbes
  import opened Sums
  import opened WordBits

  /** The reserved key: every component has the largest value. */
  const EMPTY := 0x7fff_ffff

  const NONE := -1

  datatype Config = Config(e: nat, hash: int -> int)

  function Size(c: Config): (n: nat)
    ensures n >= 1
  {
    Pow2(c.e)
  }

  /** The slot of a key's `k`th probe. */
  function Spot(c: Config, key: int, k: nat): (p: nat)
    ensures p < Size(c)
  {
    Probe(First(c.hash(key), Size(c)), k, Size(c))
  }

  // The table.

  /** The first `k` probes of a key find other keys. */
  ghost predicate Behind(c: Config, keys: seq<int>, key: int, k: nat)
    requires |keys| == Size(c)
  {
    forall j: nat :: j < k ==> keys[Spot(c, key, j)] != EMPTY && keys[Spot(c, key, j)] != key
  }

  ghost predicate ReachedBy(c: Config, keys: seq<int>, p: nat, k: nat)
    requires |keys| == Size(c) && p < |keys|
  {
    Spot(c, keys[p], k) == p && Behind(c, keys, keys[p], k)
  }

  /** Probing for the key in a slot leads to that slot. */
  ghost predicate Reached(c: Config, keys: seq<int>, p: nat)
    requires |keys| == Size(c) && p < |keys|
  {
    exists k: nat :: ReachedBy(c, keys, p, k)
  }

  ghost predicate TableOk(c: Config, keys: seq<int>)
  {
    |keys| == Size(c) && forall p: nat :: p < |keys| && keys[p] != EMPTY ==> Reached(c, keys, p)
  }

  /** A key has at most one slot. */
  lemma OneSlot(c: Config, keys: seq<int>, p: nat, q: nat)
    requires TableOk(c, keys) && p < |keys| && q < |keys| && keys[p] == keys[q] != EMPTY
    ensures p == q
  {
    hide Spot, Size;
    assert Reached(c, keys, p) && Reached(c, keys, q);
    var i: nat :| ReachedBy(c, keys, p, i);
    var j: nat :| ReachedBy(c, keys, q, j);
  }

  /** A probe that finds a free slot has found the key nowhere else, and may put it there. */
  lemma Placed(c: Config, keys: seq<int>, key: int, k: nat)
    requires TableOk(c, keys) && key != EMPTY && Behind(c, keys, key, k) && keys[Spot(c, key, k)] == EMPTY
    ensures key !in keys && TableOk(c, keys[Spot(c, key, k) := key])
  {
    hide Spot, Size;
    var p := Spot(c, key, k);
    var keys' := keys[p := key];
    forall q: nat | q < |keys|
      ensures keys[q] != key
    {
      assert keys[q] != EMPTY ==> Reached(c, keys, q);
    }
    forall q: nat | q < |keys'| && keys'[q] != EMPTY
      ensures Reached(c, keys', q)
    {
      if q == p {
        assert ReachedBy(c, keys', p, k);
      } else {
        assert Reached(c, keys, q);
        var j: nat :| ReachedBy(c, keys, q, j);
        assert ReachedBy(c, keys', q, j);
      }
    }
  }

  /** The probing loop of a key comes to an end exactly if the table has a free slot or the key
      itself, and then within as many probes as there are slots. */
  lemma ProbingEnds(c: Config, keys: seq<int>, key: int)
    requires |keys| == Size(c)
    ensures (exists k: nat :: !Behind(c, keys, key, k)) <==> EMPTY in keys || key in keys
    ensures EMPTY in keys || key in keys ==> !Behind(c, keys, key, Size(c))
  {
    if EMPTY in keys || key in keys {
      var p: nat :| p < |keys| && (keys[p] == EMPTY || keys[p] == key);
      var k := ProbesAll(c.e, First(c.hash(key), Size(c)), p);
      assert Spot(c, key, k) == p;
      assert !Behind(c, keys, key, Size(c));
    } else {
      forall k: nat
        ensures Behind(c, keys, key, k)
      {
      }
    }
  }

  // Threads.

  datatype Pc =
    | Try(k: nat)             // about to compare and swap the slot of the `k`th probe
    | Fetch(p: nat)           // has placed its key in slot `p`
    | Record(p: nat, no: int) // about to store its number in the slot
    | List(p: nat, no: int)   // about to note its key under its number
    | Found(p: nat)           // the key is there already: returns -1
    | Won(p: nat, no: int)

  /** `who` records which thread filled a slot, -1 for slots filled before. */
  datatype State = State(keys: seq<int>, indices: seq<int>, active: seq<int>, cnt: nat, pcs: seq<Pc>, who: seq<int>)

  datatype Batch = Batch(c: Config, jobs: seq<int>, base: nat)

  predicate Numbered(pc: Pc)
  {
    pc.Record? || pc.List? || pc.Won?
  }

  predicate Placing(pc: Pc)
  {
    pc.Fetch? || Numbered(pc)
  }

  function Marks(keys: seq<int>): seq<nat>
  {
    seq(|keys|, p requires 0 <= p < |keys| => if keys[p] == EMPTY then 0 else 1)
  }

  function Fetching(pcs: seq<Pc>): seq<nat>
  {
    seq(|pcs|, i requires 0 <= i < |pcs| => if pcs[i].Fetch? then 1 else 0)
  }

  function Probing(pcs: seq<Pc>): seq<nat>
  {
    seq(|pcs|, i requires 0 <= i < |pcs| => if pcs[i].Try? then 1 else 0)
  }

  ghost predicate Sized(m: Batch, s: State)
  {
    && TableOk(m.c, s.keys) && |s.pcs| == |m.jobs|
    && |s.indices| == |s.active| == |s.who| == Size(m.c)
  }

  ghost predicate ThreadOk(m: Batch, s: State, i: nat)
    requires Sized(m, s) && i < |s.pcs|
  {
    var (key, pc) := (m.jobs[i], s.pcs[i]);
    && key != EMPTY
    && (pc.Try? ==> Behind(m.c, s.keys, key, pc.k))
    && (!pc.Try? ==> pc.p < Size(m.c) && s.keys[pc.p] == key)
    && (Placing(pc) ==> s.who[pc.p] == i)
    && (Numbered(pc) ==> m.base <= pc.no < s.cnt)
    && (pc.List? || pc.Won? ==> s.indices[pc.p] == pc.no)
    && (pc.Won? ==> pc.no < |s.active| && s.active[pc.no] == key)
  }

  /** A slot is filled by the thread that placed its key, or was filled before. */
  ghost predicate SlotOk(m: Batch, s: State, p: nat)
    requires Sized(m, s) && p < Size(m.c)
  {
    && -1 <= s.who[p] < |s.pcs|
    && (s.who[p] >= 0 ==> Placing(s.pcs[s.who[p]]) && s.pcs[s.who[p]].p == p)
    && (s.who[p] == -1 && s.keys[p] != EMPTY ==>
        0 <= s.indices[p] < m.base && s.indices[p] < |s.active| && s.active[s.indices[p]] == s.keys[p])
    && (s.keys[p] == EMPTY ==> s.who[p] == -1)
  }

  /** Numbers are given once. */
  ghost predicate Apart(s: State, i: nat, j: nat)
    requires i < |s.pcs| && j < |s.pcs|
  {
    i != j && Numbered(s.pcs[i]) && Numbered(s.pcs[j]) ==> s.pcs[i].no != s.pcs[j].no
  }

  ghost predicate GivenTo(s: State, n: nat, i: nat)
  {
    i < |s.pcs| && Numbered(s.pcs[i]) && s.pcs[i].no == n
  }

  /** Every number drawn belongs to a thread. */
  ghost predicate Given(s: State, n: nat)
  {
    exists i: nat :: GivenTo(s, n, i)
  }

  ghost predicate Inv(m: Batch, s: State)
  {
    && Sized(m, s) && m.base <= s.cnt
    && s.cnt + Sum(Fetching(s.pcs)) == Sum(Marks(s.keys))
    && (forall i: nat :: i < |s.pcs| ==> ThreadOk(m, s, i))
    && (forall p: nat :: p < Size(m.c) ==> SlotOk(m, s, p))
    && (forall i: nat, j: nat :: i < |s.pcs| && j < |s.pcs| ==> Apart(s, i, j))
    && (forall n: nat :: m.base <= n < s.cnt ==> Given(s, n))
  }

  ghost function Step(m: Batch, s: State, i: nat): State
    requires Inv(m, s) && i < |s.pcs|
  {
    Enabled(m, s, i);
    var key := m.jobs[i];
    match s.pcs[i]
    case Try(k) =>
      var p := Spot(m.c, key, k);
      if s.keys[p] == EMPTY then s.(keys := s.keys[p := key], who := s.who[p := i], pcs := s.pcs[i := Fetch(p)])
      else s.(pcs := s.pcs[i := if s.keys[p] == key then Found(p) else Try(k + 1)])
    case Fetch(p) => s.(cnt := s.cnt + 1, pcs := s.pcs[i := Record(p, s.cnt)])
    case Record(p, no) => s.(indices := s.indices[p := no], pcs := s.pcs[i := List(p, no)])
    case List(p, no) => s.(active := s.active[no := key], pcs := s.pcs[i := Won(p, no)])
    case _ => s
  }

  lemma At(m: Batch, s: State, i: nat)
    requires Inv(m, s) && i < |s.pcs|
    ensures Sized(m, s) && ThreadOk(m, s, i)
  {
    hide TableOk, SlotOk, Apart, Given, ThreadOk, Sum;
  }

  lemma CountBound(m: Batch, s: State)
    requires Inv(m, s)
    ensures s.cnt <= Size(m.c) && forall i :: 0 <= i < |s.pcs| && s.pcs[i].Fetch? ==> s.cnt < Size(m.c)
  {
    assert |s.keys| == Size(m.c);
    hide TableOk, SlotOk, Apart, Given, ThreadOk, Sum;
    SumAtMost(Marks(s.keys));
    forall i | 0 <= i < |s.pcs| && s.pcs[i].Fetch?
      ensures s.cnt < Size(m.c)
    {
      SumBounds(Fetching(s.pcs), i, 1);
    }
  }

  lemma Enabled(m: Batch, s: State, i: nat)
    requires Inv(m, s) && i < |s.pcs|
    ensures Sized(m, s) && m.jobs[i] != EMPTY
    ensures !s.pcs[i].Try? ==> s.pcs[i].p < |s.indices| == |s.keys|
    ensures Numbered(s.pcs[i]) ==> 0 <= s.pcs[i].no < |s.active|
  {
    At(m, s, i);
    CountBound(m, s);
    hide TableOk, SlotOk, Apart, Given, Sum;
  }

  // Every step keeps the invariant.

  lemma MarksPut(keys: seq<int>, p: nat, key: int)
    requires p < |keys| && keys[p] == EMPTY && key != EMPTY
    ensures Sum(Marks(keys[p := key])) == Sum(Marks(keys)) + 1
  {
    SumUpdate(Marks(keys), p, 1);
    assert Marks(keys[p := key]) == Marks(keys)[p := 1];
  }

  function One(b: bool): nat
  {
    if b then 1 else 0
  }

  lemma FetchingPut(pcs: seq<Pc>, i: nat, pc: Pc)
    requires i < |pcs|
    ensures Sum(Fetching(pcs[i := pc])) + One(pcs[i].Fetch?) == Sum(Fetching(pcs)) + One(pc.Fetch?)
  {
    SumUpdate(Fetching(pcs), i, One(pc.Fetch?));
    assert Fetching(pcs[i := pc]) == Fetching(pcs)[i := One(pc.Fetch?)];
  }

  /** The first probe finds a free slot: what changes. */
  lemma TakenTable(m: Batch, s: State, i: nat)
    requires Inv(m, s) && i < |s.pcs| && s.pcs[i].Try? && s.keys[Spot(m.c, m.jobs[i], s.pcs[i].k)] == EMPTY
    ensures Sized(m, s) && Sized(m, Step(m, s, i)) && m.jobs[i] !in s.keys && m.jobs[i] != EMPTY
    ensures s.who[Spot(m.c, m.jobs[i], s.pcs[i].k)] == -1
  {
    At(m, s, i);
    Enabled(m, s, i);
    Placed(m.c, s.keys, m.jobs[i], s.pcs[i].k);
    assert SlotOk(m, s, Spot(m.c, m.jobs[i], s.pcs[i].k));
    hide TableOk, Apart, Given, Sum, Behind;
  }

  lemma StepSized(m: Batch, s: State, i: nat)
    requires Inv(m, s) && i < |s.pcs|
    ensures Sized(m, s) && Sized(m, Step(m, s, i))
  {
    Enabled(m, s, i);
    if s.pcs[i].Try? && s.keys[Spot(m.c, m.jobs[i], s.pcs[i].k)] == EMPTY {
      TakenTable(m, s, i);
    }
    hide TableOk, Inv;
  }

  lemma StepThread(m: Batch, s: State, i: nat, j: nat)
    requires Inv(m, s) && i < |s.pcs| && j < |s.pcs|
    ensures Sized(m, Step(m, s, i)) && ThreadOk(m, Step(m, s, i), j)
  {
    StepSized(m, s, i);
    At(m, s, i);
    At(m, s, j);
    Enabled(m, s, i);
    assert Apart(s, i, j);
    if s.pcs[i].Try? && s.keys[Spot(m.c, m.jobs[i], s.pcs[i].k)] == EMPTY {
      TakenTable(m, s, i);
    }
    hide Inv, TableOk, Spot;
  }

  lemma StepSlot(m: Batch, s: State, i: nat, p: nat)
    requires Inv(m, s) && i < |s.pcs| && p < Size(m.c)
    ensures Sized(m, Step(m, s, i)) && SlotOk(m, Step(m, s, i), p)
  {
    StepSized(m, s, i);
    At(m, s, i);
    Enabled(m, s, i);
    assert SlotOk(m, s, p);
    hide Inv, TableOk, Spot, Behind;
  }

  lemma StepApart(m: Batch, s: State, i: nat, j: nat, k: nat)
    requires Inv(m, s) && i < |s.pcs| && j < |s.pcs| && k < |s.pcs|
    ensures Apart(Step(m, s, i), j, k)
  {
    At(m, s, j);
    At(m, s, k);
    Enabled(m, s, i);
    assert Apart(s, j, k);
    hide Inv, TableOk, Spot, Behind;
  }

  lemma StepGiven(m: Batch, s: State, i: nat, n: nat)
    requires Inv(m, s) && i < |s.pcs| && m.base <= n < Step(m, s, i).cnt
    ensures Given(Step(m, s, i), n)
  {
    var s' := Step(m, s, i);
    Enabled(m, s, i);
    if n < s.cnt {
      assert Given(s, n);
      var j: nat :| GivenTo(s, n, j);
      hide Inv, TableOk, Spot, Behind;
      assert GivenTo(s', n, j);
    } else {
      hide Inv, TableOk, Spot, Behind;
      assert GivenTo(s', n, i);
    }
  }

  lemma StepCount(m: Batch, s: State, i: nat)
    requires Inv(m, s) && i < |s.pcs|
    ensures var s' := Step(m, s, i); m.base <= s'.cnt && s'.cnt + Sum(Fetching(s'.pcs)) == Sum(Marks(s'.keys))
  {
    Enabled(m, s, i);
    var s' := Step(m, s, i);
    FetchingPut(s.pcs, i, s'.pcs[i]);
    if s.pcs[i].Try? && s.keys[Spot(m.c, m.jobs[i], s.pcs[i].k)] == EMPTY {
      MarksPut(s.keys, Spot(m.c, m.jobs[i], s.pcs[i].k), m.jobs[i]);
    }
    hide TableOk, Spot, Behind, Sum, Marks, Fetching, ThreadOk, SlotOk;
  }

  lemma StepKeepsInv(m: Batch, s: State, i: nat)
    requires Inv(m, s) && i < |s.pcs|
    ensures Inv(m, Step(m, s, i))
  {
    var s' := Step(m, s, i);
    StepSized(m, s, i);
    StepCount(m, s, i);
    hide TableOk, ThreadOk, SlotOk, Apart, Given, Sum, Step, Size;
    forall j: nat | j < |s'.pcs|
      ensures ThreadOk(m, s', j)
    {
      StepThread(m, s, i, j);
    }
    forall p: nat | p < Size(m.c)
      ensures SlotOk(m, s', p)
    {
      StepSlot(m, s, i, p);
    }
    forall j: nat, k: nat | j < |s'.pcs| && k < |s'.pcs|
      ensures Apart(s', j, k)
    {
      StepApart(m, s, i, j, k);
    }
    forall n: nat | m.base <= n < s'.cnt
      ensures Given(s', n)
    {
      StepGiven(m, s, i, n);
    }
  }

  // Progress.

  /** There is a slot for every insertion still probing. */
  ghost predicate Room(m: Batch, s: State)
  {
    Sum(Marks(s.keys)) + Sum(Probing(s.pcs)) <= Size(m.c)
  }

  lemma ProbingPut(pcs: seq<Pc>, i: nat, pc: Pc)
    requires i < |pcs|
    ensures Sum(Probing(pcs[i := pc])) + One(pcs[i].Try?) == Sum(Probing(pcs)) + One(pc.Try?)
  {
    SumUpdate(Probing(pcs), i, One(pc.Try?));
    assert Probing(pcs[i := pc]) == Probing(pcs)[i := One(pc.Try?)];
  }

  lemma StepKeepsRoom(m: Batch, s: State, i: nat)
    requires Inv(m, s) && Room(m, s) && i < |s.pcs|
    ensures Room(m, Step(m, s, i))
  {
    Enabled(m, s, i);
    ProbingPut(s.pcs, i, Step(m, s, i).pcs[i]);
    if s.pcs[i].Try? && s.keys[Spot(m.c, m.jobs[i], s.pcs[i].k)] == EMPTY {
      MarksPut(s.keys, Spot(m.c, m.jobs[i], s.pcs[i].k), m.jobs[i]);
    }
    hide TableOk, Spot, Behind, Sum, Marks, Probing, ThreadOk, SlotOk, Size;
  }

  lemma {:induction false} FreeSlot(keys: seq<int>)
    requires Sum(Marks(keys)) < |keys|
    ensures EMPTY in keys
  {
    assert Marks(keys)[1..] == Marks(keys[1..]);
    if keys[0] != EMPTY {
      FreeSlot(keys[1..]);
    }
  }

  /** With room, a probing thread has not been through all slots. */
  lemma FewProbes(m: Batch, s: State, i: nat)
    requires Inv(m, s) && Room(m, s) && i < |s.pcs| && s.pcs[i].Try?
    ensures s.pcs[i].k < Size(m.c)
  {
    At(m, s, i);
    assert |s.keys| == Size(m.c);
    SumBounds(Probing(s.pcs), i, 1);
    FreeSlot(s.keys);
    ProbingEnds(m.c, s.keys, m.jobs[i]);
    hide Inv, Size, Spot;
  }

  /** A table at rest has room for as many new keys as it has free slots. */
  lemma RoomAtStart(m: Batch, s: State)
    requires Begun(m, s) && s.cnt + |m.jobs| <= Size(m.c)
    ensures Room(m, s)
  {
    SumAtMost(Probing(s.pcs));
    hide TableOk, Sum, Marks, Entry, Used;
  }

  function Work(n: nat, pc: Pc): nat
  {
    match pc
    case Try(k) => if k < n then n - k + 4 else 4
    case Fetch(_) => 3
    case Record(_, _) => 2
    case List(_, _) => 1
    case _ => 0
  }

  function Works(n: nat, pcs: seq<Pc>): seq<nat>
  {
    seq(|pcs|, i requires 0 <= i < |pcs| => Work(n, pcs[i]))
  }

  predicate Returned(pc: Pc)
  {
    pc.Found? || pc.Won?
  }

  /** With room for all keys every step of an insertion that has not returned makes progress:
      under any schedule all insertions return. */
  lemma StepProgress(m: Batch, s: State, i: nat)
    requires Inv(m, s) && Room(m, s) && i < |s.pcs| && !Returned(s.pcs[i])
    ensures Sum(Works(Size(m.c), Step(m, s, i).pcs)) < Sum(Works(Size(m.c), s.pcs))
  {
    Enabled(m, s, i);
    if s.pcs[i].Try? {
      FewProbes(m, s, i);
    }
    var (n, s') := (Size(m.c), Step(m, s, i));
    SumUpdate(Works(n, s.pcs), i, Work(n, s'.pcs[i]));
    assert Works(n, s'.pcs) == Works(n, s.pcs)[i := Work(n, s'.pcs[i])];
    hide TableOk, Spot, Behind, Sum, Marks, Probing, ThreadOk, SlotOk, Size;
  }

  // Whole batches.

  ghost predicate Entry(keys: seq<int>, indices: seq<int>, active: seq<int>, cnt: nat, p: nat)
    requires p < |keys| == |indices|
  {
    keys[p] != EMPTY ==> 0 <= indices[p] < cnt && indices[p] < |active| && active[indices[p]] == keys[p]
  }

  ghost predicate UsedAt(keys: seq<int>, indices: seq<int>, n: nat, p: nat)
    requires |keys| == |indices|
  {
    p < |keys| && keys[p] != EMPTY && indices[p] == n
  }

  ghost predicate Used(keys: seq<int>, indices: seq<int>, n: nat)
    requires |keys| == |indices|
  {
    exists p: nat :: UsedAt(keys, indices, n, p)
  }

  /** Between batches: the keys are numbered from 0 without gaps and listed under their numbers. */
  ghost predicate Rest(c: Config, keys: seq<int>, indices: seq<int>, active: seq<int>, cnt: nat)
  {
    && TableOk(c, keys) && |indices| == |active| == Size(c) && cnt == Sum(Marks(keys))
    && (forall p: nat :: p < |keys| ==> Entry(keys, indices, active, cnt, p))
    && forall n: nat :: n < cnt ==> Used(keys, indices, n)
  }

  ghost predicate Begun(m: Batch, s: State)
  {
    && Rest(m.c, s.keys, s.indices, s.active, s.cnt) && m.base == s.cnt
    && |s.pcs| == |m.jobs| && |s.who| == Size(m.c) && (forall p :: 0 <= p < |s.who| ==> s.who[p] == -1)
    && forall i :: 0 <= i < |m.jobs| ==> m.jobs[i] != EMPTY && s.pcs[i] == Try(0)
  }

  lemma BegunInv(m: Batch, s: State)
    requires Begun(m, s)
    ensures Inv(m, s)
  {
    SumZero(Fetching(s.pcs));
    hide TableOk, Spot, Sum, Marks, Fetching, Used;
    forall p: nat | p < Size(m.c)
      ensures Sized(m, s) && SlotOk(m, s, p)
    {
      assert Entry(s.keys, s.indices, s.active, s.cnt, p);
    }
  }

  /** What was there stays; new keys are those of the batch. */
  ghost predicate KeptSlot(s: State, r: State, p: nat)
    requires p < |s.keys| == |r.keys| == |s.who| == |r.who| == |s.indices| == |r.indices|
  {
    && (s.keys[p] != EMPTY ==>
        r.keys[p] == s.keys[p] && r.who[p] == s.who[p] && (s.who[p] == -1 ==> r.indices[p] == s.indices[p]))
    && (s.keys[p] == EMPTY && r.keys[p] != EMPTY ==> r.who[p] >= 0)
  }

  ghost predicate Kept(s: State, r: State)
  {
    && |s.keys| == |r.keys| == |s.who| == |r.who| == |s.indices| == |r.indices|
    && forall p: nat :: p < |s.keys| ==> KeptSlot(s, r, p)
  }

  lemma StepKept(m: Batch, s: State, i: nat)
    requires Inv(m, s) && i < |s.pcs|
    ensures Kept(s, Step(m, s, i))
  {
    At(m, s, i);
    Enabled(m, s, i);
    StepSized(m, s, i);
    hide Inv, TableOk, Spot, Behind;
  }

  lemma KeptOn(s: State, r: State, q: State)
    requires Kept(s, r) && Kept(r, q)
    ensures Kept(s, q)
  {
    forall p: nat | p < |s.keys|
      ensures KeptSlot(s, q, p)
    {
      assert KeptSlot(s, r, p) && KeptSlot(r, q, p);
    }
  }

  /** Any interleaving: the threads named by the schedule, one step each. */
  ghost function Run(m: Batch, s: State, schedule: seq<nat>): (r: State)
    requires Inv(m, s) && forall k :: 0 <= k < |schedule| ==> schedule[k] < |m.jobs|
    ensures Inv(m, r) && Kept(s, r)
    ensures Room(m, s) ==> Room(m, r)
    decreases |schedule|
  {
    if schedule == [] then s
    else
      StepKeepsInv(m, s, schedule[0]);
      StepKept(m, s, schedule[0]);
      assert Room(m, s) ==> Room(m, Step(m, s, schedule[0])) by { if Room(m, s) { StepKeepsRoom(m, s, schedule[0]); } }
      var r := Run(m, Step(m, s, schedule[0]), schedule[1..]);
      KeptOn(s, Step(m, s, schedule[0]), r);
      r
  }

  ghost function RunBatch(m: Batch, s: State, schedule: seq<nat>): (r: State)
    requires Begun(m, s) && forall k :: 0 <= k < |schedule| ==> schedule[k] < |m.jobs|
    ensures Inv(m, r) && Kept(s, r)
  {
    BegunInv(m, s);
    Run(m, s, schedule)
  }

  /** A winner's key is in its slot under the number returned, listed under that number; any
      other insertion has found its key there. */
  ghost predicate Outcome(m: Batch, s: State, r: State, i: nat)
    requires |s.keys| == |r.keys| == |r.indices| && i < |m.jobs| == |r.pcs|
  {
    var (key, pc) := (m.jobs[i], r.pcs[i]);
    && Returned(pc) && pc.p < |r.keys| && r.keys[pc.p] == key
    && (pc.Won? ==>
        key !in s.keys && r.indices[pc.p] == pc.no && m.base <= pc.no < r.cnt && pc.no < |r.active|
        && r.active[pc.no] == key)
    && (pc.Found? ==> key in s.keys || exists w: nat :: Winner(m, r, key, w))
    && forall j: nat :: j < |m.jobs| && m.jobs[j] == key && Winner(m, r, key, i) && Winner(m, r, key, j) ==> i == j
  }

  ghost predicate Winner(m: Batch, r: State, key: int, w: nat)
  {
    w < |m.jobs| == |r.pcs| && m.jobs[w] == key && r.pcs[w].Won?
  }

  /** A key placed by this batch was not in the table before. */
  lemma WonNew(m: Batch, s: State, r: State, p: nat)
    requires Begun(m, s) && Inv(m, r) && Kept(s, r) && p < |r.keys| && r.keys[p] != EMPTY && r.who[p] >= 0
    ensures r.keys[p] !in s.keys
  {
    forall q: nat | q < |s.keys|
      ensures s.keys[q] != r.keys[p]
    {
      assert KeptSlot(s, r, q);
      if r.keys[q] == r.keys[p] {
        OneSlot(m.c, r.keys, p, q);
      }
    }
  }

  lemma FoundWhere(m: Batch, s: State, r: State, i: nat)
    requires Begun(m, s) && Inv(m, r) && Kept(s, r) && i < |r.pcs| && r.pcs[i].Found?
    requires forall j :: 0 <= j < |r.pcs| ==> Returned(r.pcs[j])
    ensures m.jobs[i] in s.keys || exists w: nat :: Winner(m, r, m.jobs[i], w)
  {
    At(m, r, i);
    var p := r.pcs[i].p;
    assert SlotOk(m, r, p) && KeptSlot(s, r, p);
    if r.who[p] >= 0 {
      At(m, r, r.who[p]);
      assert Winner(m, r, m.jobs[i], r.who[p]);
    } else {
      assert s.keys[p] == m.jobs[i];
    }
  }

  lemma OneWinner(m: Batch, r: State, key: int, i: nat, j: nat)
    requires Inv(m, r) && Winner(m, r, key, i) && Winner(m, r, key, j)
    ensures i == j
  {
    At(m, r, i);
    At(m, r, j);
    OneSlot(m.c, r.keys, r.pcs[i].p, r.pcs[j].p);
  }

  lemma Ends(m: Batch, s: State, r: State, i: nat)
    requires Begun(m, s) && Inv(m, r) && Kept(s, r) && i < |r.pcs| && forall j :: 0 <= j < |r.pcs| ==>
             Returned(r.pcs[j])
    ensures Outcome(m, s, r, i)
  {
    At(m, r, i);
    CountBound(m, r);
    if r.pcs[i].Won? {
      WonNew(m, s, r, r.pcs[i].p);
    } else {
      FoundWhere(m, s, r, i);
    }
    hide Inv, Begun, TableOk;
    forall j: nat | Winner(m, r, m.jobs[i], i) && Winner(m, r, m.jobs[i], j)
      ensures i == j
    {
      OneWinner(m, r, m.jobs[i], i, j);
    }
  }

  lemma RestAgain(m: Batch, s: State, r: State)
    requires Begun(m, s) && Inv(m, r) && Kept(s, r) && forall j :: 0 <= j < |r.pcs| ==> Returned(r.pcs[j])
    ensures Rest(m.c, r.keys, r.indices, r.active, r.cnt)
  {
    SumZero(Fetching(r.pcs));
    hide TableOk, Spot, Sum, Marks, Fetching;
    forall p: nat | p < |r.keys|
      ensures Entry(r.keys, r.indices, r.active, r.cnt, p)
    {
      assert SlotOk(m, r, p);
      if r.who[p] >= 0 {
        At(m, r, r.who[p]);
      }
    }
    forall n: nat | n < r.cnt
      ensures Used(r.keys, r.indices, n)
    {
      if n < m.base {
        assert Used(s.keys, s.indices, n);
        var p: nat :| UsedAt(s.keys, s.indices, n, p);
        assert KeptSlot(s, r, p);
        assert UsedAt(r.keys, r.indices, n, p);
      } else {
        assert Given(r, n);
        var i: nat :| GivenTo(r, n, i);
        At(m, r, i);
        assert UsedAt(r.keys, r.indices, n, r.pcs[i].p);
      }
    }
  }

  /** Whatever the interleaving: once all insertions have returned, the keys are numbered without
      gaps and listed, old keys as before; each new key has exactly one winner. */
  lemma BatchOutcome(m: Batch, s: State, schedule: seq<nat>)
    requires Begun(m, s) && forall k :: 0 <= k < |schedule| ==> schedule[k] < |m.jobs|
    requires forall j :: 0 <= j < |RunBatch(m, s, schedule).pcs| ==> Returned(RunBatch(m, s, schedule).pcs[j])
    ensures var r := RunBatch(m, s, schedule);
            && Rest(m.c, r.keys, r.indices, r.active, r.cnt) && Kept(s, r)
            && |r.pcs| == |m.jobs| && forall i: nat :: i < |m.jobs| ==> Outcome(m, s, r, i)
  {
    var r := RunBatch(m, s, schedule);
    RestAgain(m, s, r);
    hide RunBatch, Rest, TableOk, SlotOk, ThreadOk;
    forall i: nat | i < |m.jobs|
      ensures Outcome(m, s, r, i)
    {
      Ends(m, s, r, i);
    }
  }

  // The table as an object, used by one thread.

  lemma RoomLeft(keys: seq<int>, p: nat)
    requires p < |keys| && keys[p] == EMPTY
    ensures Sum(Marks(keys)) < |keys|
  {
    MarksPut(keys, p, EMPTY + 1);
    SumAtMost(Marks(keys[p := EMPTY + 1]));
  }

  /** A key placed under the next number. */
  lemma RestGrows(c: Config, keys: seq<int>, indices: seq<int>, active: seq<int>, cnt: nat, key: int, p: nat,
      active': seq<int>)
    requires Rest(c, keys, indices, active, cnt) && p < |keys| && keys[p] == EMPTY != key && TableOk(c, keys[p := key])
             && cnt < |active|
    requires active' == active[cnt := key]
    ensures Rest(c, keys[p := key], indices[p := cnt], active', cnt + 1)
  {
    MarksPut(keys, p, key);
    var keys' := keys[p := key];
    var indices' := indices[p := cnt];
    var more := cnt + 1;
    hide TableOk, Sum, Marks;
    forall q: nat | q < |keys'|
      ensures Entry(keys', indices', active', more, q)
    {
      assert Entry(keys, indices, active, cnt, q);
    }
    forall n: nat | n < more
      ensures Used(keys', indices', n)
    {
      if n < cnt {
        assert Used(keys, indices, n);
        var q: nat :| UsedAt(keys, indices, n, q);
        assert UsedAt(keys', indices', n, q);
      } else {
        assert UsedAt(keys', indices', n, p);
      }
    }
  }

  /** The list names every key in the table, once. */
  lemma RestKeys(c: Config, keys: seq<int>, indices: seq<int>, active: seq<int>, cnt: nat)
    requires Rest(c, keys, indices, active, cnt)
    ensures cnt <= |keys| == |active| && (forall i :: 0 <= i < cnt ==> active[i] != EMPTY)
    ensures forall k :: k != EMPTY ==> (k in keys <==> k in active[..cnt])
    ensures forall i, j :: 0 <= i < j < cnt ==> active[i] != active[j]
  {
    SumAtMost(Marks(keys));
    forall k | k != EMPTY && k in keys
      ensures k in active[..cnt]
    {
      var p: nat :| p < |keys| && keys[p] == k;
      assert Entry(keys, indices, active, cnt, p);
    }
    forall i: nat | i < cnt
      ensures active[i] != EMPTY && active[i] in keys
    {
      assert Used(keys, indices, i);
      var p: nat :| UsedAt(keys, indices, i, p);
      assert Entry(keys, indices, active, cnt, p);
    }
    forall i: nat, j: nat | i < j < cnt
      ensures active[i] != active[j]
    {
      NamedOnce(c, keys, indices, active, cnt, i, j);
    }
  }

  lemma NamedOnce(c: Config, keys: seq<int>, indices: seq<int>, active: seq<int>, cnt: nat, i: nat, j: nat)
    requires Rest(c, keys, indices, active, cnt) && i < j < cnt <= |active|
    ensures active[i] != active[j]
  {
    assert Used(keys, indices, i) && Used(keys, indices, j);
    var p: nat :| UsedAt(keys, indices, i, p);
    var q: nat :| UsedAt(keys, indices, j, q);
    assert Entry(keys, indices, active, cnt, p) && Entry(keys, indices, active, cnt, q);
    hide TableOk;
    if keys[p] == keys[q] {
      OneSlot(c, keys, p, q);
    }
  }

  lemma NothingYet(c: Config, keys: seq<int>, indices: seq<int>, active: seq<int>)
    requires |keys| == |indices| == |active| == Size(c) && forall p :: 0 <= p < |keys| ==> keys[p] == EMPTY
    ensures Rest(c, keys, indices, active, 0)
  {
    SumZero(Marks(keys));
  }

  /** `evaluateTableSize`: sixteen slots for each entry expected, rounded up to a power of two. */
  function EvaluateTableSize(entryCnt: nat): (n: nat)
    ensures n >= 16 * entryCnt
    ensures n > 0 ==> n == Pow2(CeilLog2(entryCnt) + 4)
  {
    if entryCnt == 0 then 0 else SixteenFold(CeilLog2(entryCnt)); Pow2(CeilLog2(entryCnt)) * 16
  }

  lemma SixteenFold(e: nat)
    ensures Pow2(e + 4) == Pow2(e) * 16
  {
    Pow2Adds(e, 4);
    assert Pow2(4) == 2 * Pow2(3) && Pow2(3) == 2 * Pow2(2) && Pow2(2) == 4;
  }

  /** Free slots have no number, which is what a lookup stops at. */
  ghost predicate FreeUnnumbered(keys: seq<int>, indices: seq<int>)
  {
    |keys| == |indices| && forall p :: 0 <= p < |keys| && keys[p] == EMPTY ==> indices[p] == NONE
  }

  /** The probe with which a search for a key ends: at the key or at a free slot. */
  ghost function SearchEnd(c: Config, keys: seq<int>, key: int, k: nat): (n: nat)
    requires |keys| == Size(c) && Behind(c, keys, key, k) && (EMPTY in keys || key in keys)
    ensures k <= n && Behind(c, keys, key, n) && !Behind(c, keys, key, n + 1)
    decreases Size(c) - k
  {
    ProbingEnds(c, keys, key);
    if Behind(c, keys, key, k + 1) then assert k < Size(c); SearchEnd(c, keys, key, k + 1) else k
  }

  /** The lookup goes out of bounds: it takes the step that ends at the table size itself, which is
      not reduced to 0. */
  ghost predicate StepsOut(c: Config, keys: seq<int>, key: int)
    requires |keys| == Size(c) && (EMPTY in keys || key in keys)
  {
    exists j: nat :: j < SearchEnd(c, keys, key, 0) && Spot(c, key, j) + STRIDE == Size(c)
  }

  class HashTable {
    const hash: int -> int
    var tableSize: nat
    var keys: seq<int>
    var indices: seq<int>
    var active: seq<int>
    var cnt: nat
    ghost var e: nat

    ghost function Cfg(): Config
      reads this
    {
      Config(e, hash)
    }

    ghost predicate Valid()
      reads this
    {
      if tableSize == 0 then keys == [] && indices == [] && active == [] && cnt == 0
      else tableSize == Size(Cfg()) && Rest(Cfg(), keys, indices, active, cnt) && FreeUnnumbered(keys, indices)
    }

    /** The keys in the table, in the order of their numbers. */
    function Listed(): seq<int>
      reads this
    {
      active[..if cnt <= |active| then cnt else |active|]
    }

    constructor (hash: int -> int, expected: nat)
      ensures Valid() && cnt == 0 && tableSize == EvaluateTableSize(expected) && this.hash == hash
    {
      this.hash := hash;
      var n := EvaluateTableSize(expected);
      tableSize := n;
      keys, indices, active := seq(n, _ => EMPTY), seq(n, _ => NONE), seq(n, _ => 0);
      cnt := 0;
      e := CeilLog2(expected) + 4;
      new;
      if tableSize > 0 {
        NothingYet(Cfg(), keys, indices, active);
      }
    }

    /** The probing loop: the slot of the key, or the free slot for it. */
    method Locate(key: int) returns (p: nat)
      requires tableSize == Size(Cfg()) && TableOk(Cfg(), keys) && key != EMPTY && (EMPTY in keys || key in keys)
      ensures p < |keys| && (keys[p] == key || (keys[p] == EMPTY && key !in keys && TableOk(Cfg(), keys[p := key])))
    {
      ProbingEnds(Cfg(), keys, key);
      p := First(hash(key), tableSize);
      ghost var k := 0;
      FirstSpot(Cfg(), key);
      hide Spot, Size;
      while !(keys[p] == EMPTY || keys[p] == key)
        invariant p == Spot(Cfg(), key, k) && Behind(Cfg(), keys, key, k)
        decreases Size(Cfg()) - k
      {
        NextSpot(Cfg(), key, k);
        assert k < Size(Cfg());
        p := (p + STRIDE) % tableSize;
        k := k + 1;
      }
      if keys[p] == EMPTY {
        Placed(Cfg(), keys, key, k);
      }
    }

    /** `insert(key)`: a new key gets the next number, a key that is there changes nothing. The
        loop needs a free slot, or the key, to come to an end. */
    method Insert(key: int) returns (no: int)
      requires Valid() && key != EMPTY && (EMPTY in keys || key in keys)
      modifies this`keys, this`indices, this`active, this`cnt
      ensures Valid()
      ensures key in old(keys) ==>
              no == NONE && keys == old(keys) && indices == old(indices) && active == old(active) && cnt == old(cnt)
      ensures key !in old(keys) ==> no == old(cnt) && cnt == no + 1 && Listed() == old(Listed()) + [key]
      ensures key !in old(keys) ==>
              exists p: nat :: p < |old(keys)| && old(keys)[p] == EMPTY && keys == old(keys)[p := key]
    {
      hide TableOk, Rest, Size;
      RestIs(Cfg(), keys, indices, active, cnt);
      var p := Locate(key);
      if keys[p] == EMPTY {
        RoomLeft(keys, p);
        RestGrows(Cfg(), keys, indices, active, cnt, key, p, active[cnt := key]);
        keys := keys[p := key];
        no := cnt;
        cnt := cnt + 1;
        indices := indices[p := no];
        active := active[no := key];
      } else {
        no := NONE;
      }
    }

    /** `query`: the number of a key, or -1. The wrap test of its loop lets an entry equal to the table
        size through; all accesses are in bounds exactly if the search does not step there. */
    method Query(key: int) returns (no: int, inBounds: bool)
      requires Valid() && key != EMPTY && (EMPTY in keys || key in keys)
      ensures inBounds <==> !StepsOut(Cfg(), keys, key)
      ensures inBounds ==>
              if key in keys then 0 <= no < cnt && no < |active| && active[no] == key else no == NONE
    {
      hide Rest, Size, Spot, First, TableOk;
      RestIs(Cfg(), keys, indices, active, cnt);
      var entry := First(hash(key), tableSize);
      ghost var (k, n) := (0, SearchEnd(Cfg(), keys, key, 0));
      FirstSpot(Cfg(), key);
      while true
        invariant entry == Spot(Cfg(), key, k) && k <= n && Behind(Cfg(), keys, key, k)
        invariant forall j: nat :: j < k ==> Spot(Cfg(), key, j) + STRIDE != tableSize
        decreases n - k
      {
        EntryIs(Cfg(), keys, indices, active, cnt, entry);
        if keys[entry] == key {
          return indices[entry], true;
        }
        if indices[entry] == NONE {
          Placed(Cfg(), keys, key, k);
          return NONE, true;
        }
        assert Behind(Cfg(), keys, key, k + 1);
        NextSpot(Cfg(), key, k);
        SpotBound(Cfg(), key, k);
        entry := entry + STRIDE;
        if entry > tableSize {
          entry := entry % tableSize;
        } else if entry == tableSize {
          return NONE, false;
        }
        k := k + 1;
      }
    }

    /** `resize`: a larger table is filled again by number; no key, no number changes. */
    method Resize(expected: nat)
      requires Valid()
      modifies this
      ensures Valid() && cnt == old(cnt) && Listed() == old(Listed())
      ensures tableSize == if EvaluateTableSize(expected) <= old(tableSize) then old(tableSize)
              else EvaluateTableSize(expected)
    {
      if tableSize > 0 {
        RestKeys(Cfg(), keys, indices, active, cnt);
      }
      var n := EvaluateTableSize(expected);
      if n <= tableSize {
        return;
      }
      ghost var list := active[..cnt];
      keys, indices, active := seq(n, _ => EMPTY), seq(n, _ => NONE), active + seq(n - |active|, _ => 0);
      tableSize, e := n, CeilLog2(expected) + 4;
      NothingYet(Cfg(), keys, indices, active);
      assert active[..cnt] == list;
      Refill();
    }

    /** The listed keys go into an empty table. */
    method Refill()
      requires tableSize == Size(Cfg()) && Rest(Cfg(), keys, indices, active, 0) && cnt < tableSize
      requires forall i, j :: 0 <= i < j < cnt < |active| ==> active[i] != active[j]
      requires forall i :: 0 <= i < cnt < |active| ==> active[i] != EMPTY
      requires FreeUnnumbered(keys, indices)
      modifies this`keys, this`indices
      ensures Rest(Cfg(), keys, indices, active, cnt) && FreeUnnumbered(keys, indices)
    {
      hide TableOk, Rest, Size;
      var i := 0;
      while i < cnt
        invariant i <= cnt && Rest(Cfg(), keys, indices, active, i) && FreeUnnumbered(keys, indices)
      {
        RestIs(Cfg(), keys, indices, active, i);
        RestKeys(Cfg(), keys, indices, active, i);
        assert active[i] !in active[..i];
        FreeSlot(keys);
        var p := Locate(active[i]);
        RestGrows(Cfg(), keys, indices, active, i, active[i], p, active);
        keys, indices := keys[p := active[i]], indices[p := i];
        i := i + 1;
      }
    }
  }

  lemma RestIs(c: Config, keys: seq<int>, indices: seq<int>, active: seq<int>, cnt: nat)
    requires Rest(c, keys, indices, active, cnt)
    ensures TableOk(c, keys) && |keys| == |indices| == |active| == Size(c) && cnt == Sum(Marks(keys))
  {
  }

  lemma FirstSpot(c: Config, key: int)
    ensures Spot(c, key, 0) == First(c.hash(key), Size(c))
  {
    hide First, Size;
    Small(First(c.hash(key), Size(c)), Size(c));
  }

  lemma NextSpot(c: Config, key: int, k: nat)
    ensures Spot(c, key, k + 1) == (Spot(c, key, k) + STRIDE) % Size(c)
  {
    hide First, Size;
    ProbeNext(First(c.hash(key), Size(c)), k, Size(c));
  }

  lemma EntryIs(c: Config, keys: seq<int>, indices: seq<int>, active: seq<int>, cnt: nat, p: nat)
    requires Rest(c, keys, indices, active, cnt) && p < |keys|
    ensures Entry(keys, indices, active, cnt, p)
  {
  }

  lemma SpotBound(c: Config, key: int, k: nat)
    ensures Spot(c, key, k) < Size(c)
    ensures Spot(c, key, k) + STRIDE < Size(c) ==>
            (Spot(c, key, k) + STRIDE) % Size(c) == Spot(c, key, k) + STRIDE
  {
    hide Spot, Size;
    if Spot(c, key, k) + STRIDE < Size(c) {
      Small(Spot(c, key, k) + STRIDE, Size(c));
    }
  }

  /** A key that is in the table and is not found: two keys with the hash 1 in a table made for eight
      entries. The second stands in slot 0, and the lookup for it steps from slot 1 to slot 128. */
  method MissedKey() returns (t: HashTable, inBounds: bool)
    ensures t.Valid() && t.tableSize == 128 && 2 in t.keys && t.cnt == 2 && !inBounds
  {
    hide Rest, TableOk, Spot, Size, Behind;
    t := new HashTable(_ => 1, 8);
    ForEight();
    RestIs(t.Cfg(), t.keys, t.indices, t.active, 0);
    FreeSlot(t.keys);
    RestKeys(t.Cfg(), t.keys, t.indices, t.active, 0);
    var no := t.Insert(1);
    FirstInSlot(t.Cfg(), t.keys, t.indices, t.active);
    RestIs(t.Cfg(), t.keys, t.indices, t.active, 1);
    FreeSlot(t.keys);
    RestKeys(t.Cfg(), t.keys, t.indices, t.active, 1);
    no := t.Insert(2);
    RestIs(t.Cfg(), t.keys, t.indices, t.active, 2);
    RestKeys(t.Cfg(), t.keys, t.indices, t.active, 2);
    assert t.Listed()[1] == 2;
    SecondStepsOut(t.Cfg(), t.keys);
    no, inBounds := t.Query(2);
  }

  lemma ForEight()
    ensures EvaluateTableSize(8) == 128
  {
    assert CeilLog2(8) == 3 && Pow2(3) == 8;
  }

  /** The only key of a table stands in its first slot. */
  lemma FirstInSlot(c: Config, keys: seq<int>, indices: seq<int>, active: seq<int>)
    requires Rest(c, keys, indices, active, 1) && |active| > 0 && active[0] == 1 && Size(c) == 128 && c.hash(1) == 1
    ensures |keys| == 128 && keys[1] == 1
  {
    hide Spot, Size;
    RestIs(c, keys, indices, active, 1);
    RestKeys(c, keys, indices, active, 1);
    FirstSpot(c, 1);
    assert 1 in active[..1];
    var p: nat :| p < |keys| && keys[p] == 1;
    assert Reached(c, keys, p);
    var k: nat :| ReachedBy(c, keys, p, k);
    assert keys[Spot(c, 1, 0)] in keys;
  }

  lemma SecondStepsOut(c: Config, keys: seq<int>)
    requires |keys| == Size(c) == 128 && c.hash(2) == 1 && keys[1] == 1 && 2 in keys
    ensures StepsOut(c, keys, 2)
  {
    hide Spot, Size;
    FirstSpot(c, 2);
    assert Behind(c, keys, 2, 1);
    assert SearchEnd(c, keys, 2, 0) > 0;
    assert Spot(c, 2, 0) + STRIDE == Size(c);
  }

  /** A table can be filled to the last slot: sixteen insertions into one made for a single entry.
      The probing loop for any other key then never ends. */
  method FillUp(hash: int -> int) returns (keys: seq<int>, indices: seq<int>, active: seq<int>, ghost e: nat)
    ensures Rest(Config(e, hash), keys, indices, active, 16) && EMPTY !in keys && |keys| == Size(Config(e, hash)) == 16
    ensures forall key :: key !in keys ==> forall k: nat :: Behind(Config(e, hash), keys, key, k)
  {
    hide Rest, TableOk, Size, Pow2, Marks, Sum, Behind;
    var t := new HashTable(hash, 1);
    Sixteen();
    var k := 0;
    while k < 16
      invariant k <= 16 && t.Valid() && t.tableSize == 16 && t.hash == hash && t.cnt == k && fresh(t)
      invariant |t.Listed()| == k && forall x :: x in t.Listed() ==> 1 <= x <= k
    {
      RestIs(t.Cfg(), t.keys, t.indices, t.active, k);
      RestKeys(t.Cfg(), t.keys, t.indices, t.active, k);
      FreeSlot(t.keys);
      var no := t.Insert(k + 1);
      k := k + 1;
    }
    RestIs(t.Cfg(), t.keys, t.indices, t.active, 16);
    keys, indices, active, e := t.keys, t.indices, t.active, t.e;
    if EMPTY in keys {
      var p: nat :| p < |keys| && keys[p] == EMPTY;
      RoomLeft(keys, p);
      assert false;
    }
    forall key | key !in keys
      ensures forall k: nat :: Behind(Config(e, hash), keys, key, k)
    {
      ProbingEnds(Config(e, hash), keys, key);
    }
  }

  lemma Sixteen()
    ensures EvaluateTableSize(1) == 16
  {
    assert CeilLog2(1) == 0;
  }

}
