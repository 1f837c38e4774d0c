/** Concurrent insertion into `bht`: every key load, compare-and-swap, counter increment and
    plain write is one step, the steps of all threads interleave freely. */
module BhtInsert {
  import opened Buckets
  import opened Sums

  datatype Result =
    | Found          // the key is there already: sentinel_v
    | Won(no: int)   // the one insertion that placed the key, with its index
    | Near(no: int)  // placed, but so close to the end of the table that it reports failure
    | Overrun(no: int)  // placed, but its number lies past the end of the list: written out of bounds
    | Full           // all three buckets full: failure_token_v

  datatype Pc =
    | Scan(iter: nat, load: nat)
    | Cas(iter: nat, load: nat)
    | Fetch(b: nat, l: nat)
    | Record(b: nat, l: nat, no: int)
    | Note(b: nat, l: nat, no: int)
    | Check(b: nat, l: nat, no: int)
    | Return(r: Result)

  datatype Job = Job(key: int, index: int, enqueue: bool)

  /** A batch of insertions into a table; `lost` are the numbers of listed keys that the table does
      not hold, because a rebuild found no room for them. */
  datatype Batch = Batch(t: Config, jobs: seq<Job>, lost: set<nat>)

  function TableSize(c: Config): nat
  {
    c.nb * c.B
  }

  /** `localno >= _tableSize - 20` on unsigned 32-bit numbers. */
  predicate TooNear(c: Config, no: int)
  {
    if TableSize(c) >= 20 then no >= TableSize(c) - 20 else no >= TableSize(c) - 20 + 0x1_0000_0000
  }

  /** Which numbers that is: the last twenty of the table and those past its end; and none of its
      numbers if it has fewer than twenty slots, for which the difference wraps round. */
  lemma NearEnd(c: Config, no: int)
    requires TableSize(c) < 0x1_0000_0000
    ensures TooNear(c, no) <==> no >= (TableSize(c) - 20) % 0x1_0000_0000
    ensures TableSize(c) < 20 && no < TableSize(c) ==> !TooNear(c, no)
    ensures TableSize(c) >= 20 && no < TableSize(c) ==> (TooNear(c, no) <==> TableSize(c) - no <= 20)
  {
    hide TableSize;
    var n: int := TableSize(c);
    var d := n - 20;
    assert d < 0 ==> d % 0x1_0000_0000 == d + 0x1_0000_0000;
  }

  /** The shared arrays and the threads; `who` records which thread filled a slot, -1 for slots
      filled before. */
  datatype State = State(keys: seq<seq<int>>, indices: seq<seq<int>>, active: seq<int>, cnt: int, success: bool,
                         pcs: seq<Pc>, who: seq<seq<int>>)

  ghost predicate Sized(c: Batch, s: State)
  {
    && c.t.nb > 0 && c.t.B >= 3
    && Grid(c.t, s.keys) && Grid(c.t, s.indices) && Grid(c.t, s.who)
    && |s.pcs| == |c.jobs| && |s.active| == TableSize(c.t)
  }

  /** Insertions without an index draw one and note their key; those with an index rebuild a
      table whose keys are noted already. */
  ghost predicate Jobs(c: Batch, rebuild: bool, active: seq<int>)
  {
    && (forall i :: 0 <= i < |c.jobs| ==>
          && c.jobs[i].key != EMPTY
          && if rebuild then !c.jobs[i].enqueue && 0 <= c.jobs[i].index < |active|
              && active[c.jobs[i].index] == c.jobs[i].key
             else c.jobs[i].enqueue && c.jobs[i].index == NO_INDEX)
    && (rebuild ==> forall i, j :: 0 <= i < j < |c.jobs| ==> c.jobs[i].index != c.jobs[j].index)
  }

  // The table.

  /** Occupied slots are a prefix of length at most `B - 1`. */
  ghost predicate Prefix(c: Config, row: seq<int>)
  {
    && |row| == c.B && Fill(row) <= c.B - 1
    && forall l :: Fill(row) <= l < c.B ==> row[l] == EMPTY
  }

  /** Full means that only the last slot is free: it is never used. */
  ghost predicate FullRow(c: Config, row: seq<int>)
    requires |row| == c.B
  {
    forall l :: 0 <= l < c.B - 1 ==> row[l] != EMPTY
  }

  /** The buckets tried before `iter` are full and do not hold the key. */
  ghost predicate Passed(c: Config, keys: seq<seq<int>>, key: int, iter: nat)
    requires c.nb > 0 && Grid(c, keys)
  {
    forall j: nat :: j < iter ==> FullRow(c, keys[Bucket(c, key, j)]) && key !in keys[Bucket(c, key, j)]
  }

  /** A stored key stands in one of its buckets, and the buckets tried before that one are full. */
  ghost predicate Homed(c: Config, keys: seq<seq<int>>, b: nat, l: nat)
    requires c.nb > 0 && Grid(c, keys) && Slot(c, b, l)
  {
    var key := keys[b][l];
    exists j: nat :: j < 3 && Bucket(c, key, j) == b && forall i: nat :: i < j ==>
        Bucket(c, key, i) != b && FullRow(c, keys[Bucket(c, key, i)])
  }

  ghost predicate TableOk(c: Config, keys: seq<seq<int>>)
    requires c.nb > 0 && Grid(c, keys)
  {
    && (forall b :: 0 <= b < c.nb ==> Prefix(c, keys[b]))
    && (forall b: nat, l: nat :: Slot(c, b, l) && keys[b][l] != EMPTY ==> Homed(c, keys, b, l))
    && (forall b, l, b', l' :: Slot(c, b, l) && Slot(c, b', l') && keys[b][l] == keys[b'][l'] != EMPTY ==>
        b == b' && l == l')
  }

  function Fills(keys: seq<seq<int>>): seq<nat>
  {
    seq(|keys|, b requires 0 <= b < |keys| => Fill(keys[b]))
  }

  function Fetching(pcs: seq<Pc>): seq<nat>
  {
    seq(|pcs|, i requires 0 <= i < |pcs| => if pcs[i].Fetch? then 1 else 0)
  }

  predicate HasPlaced(pc: Pc)
  {
    Holding(pc) || (pc.Return? && HasWon(pc.r))
  }

  /** The insertion has placed its key. */
  predicate HasWon(r: Result)
  {
    r.Won? || r.Near? || r.Overrun?
  }

  function Placing(pcs: seq<Pc>): seq<nat>
  {
    seq(|pcs|, i requires 0 <= i < |pcs| => if HasPlaced(pcs[i]) then 1 else 0)
  }

  predicate Holding(pc: Pc)
  {
    pc.Fetch? || pc.Record? || pc.Note? || pc.Check?
  }

  // Slots and threads.

  /** A slot has its number once the thread that filled it has drawn one. */
  function NumberOf(s: State, b: nat, l: nat): int
    requires b < |s.who| == |s.indices| && l < |s.who[b]| == |s.indices[b]|
  {
    var w := s.who[b][l];
    if 0 <= w < |s.pcs| && (s.pcs[w].Record? || s.pcs[w].Note? || s.pcs[w].Check?) then s.pcs[w].no
    else s.indices[b][l]
  }

  predicate Numbered(s: State, b: nat, l: nat)
    requires b < |s.who| && l < |s.who[b]|
  {
    var w := s.who[b][l];
    !(0 <= w < |s.pcs| && s.pcs[w].Fetch?)
  }

  ghost predicate SlotOk(c: Batch, rebuild: bool, s: State, b: nat, l: nat)
    requires Sized(c, s) && Slot(c.t, b, l)
  {
    var (w, k) := (s.who[b][l], s.keys[b][l]);
    && -1 <= w < |s.pcs|
    && (Numbered(s, b, l) ==>
        0 <= NumberOf(s, b, l) && if rebuild then NumberOf(s, b, l) < |s.active|
                                  else NumberOf(s, b, l) < s.cnt && NumberOf(s, b, l) !in c.lost)
    && (w == -1 ==> !rebuild && Listed(s.active, s.indices[b][l], k))
    && (w >= 0 ==>
          && c.jobs[w].key == k
          && (rebuild ==> Numbered(s, b, l) && NumberOf(s, b, l) == c.jobs[w].index)
          && match s.pcs[w]
             case Fetch(b', l') => b' == b && l' == l && !rebuild
             case Record(b', l', no) => b' == b && l' == l
             case Note(b', l', no) => b' == b && l' == l && s.indices[b][l] == no
             case Check(b', l', no) =>
               b' == b && l' == l && s.indices[b][l] == no && no < |s.active| && s.active[no] == k
             case Return(r) =>
               && HasWon(r) && r.no == s.indices[b][l] && Listed(s.active, r.no, k)
               && (r.Overrun? <==> r.no >= |s.active|)
             case _ => false)
  }

  /** The list names the key under its number, if it has that many entries. */
  predicate Listed(active: seq<int>, no: int, key: int)
  {
    0 <= no < |active| ==> active[no] == key
  }

  /** Numbers are given once. */
  ghost predicate Distinct(s: State, b: nat, l: nat, b': nat, l': nat)
    requires b < |s.keys| == |s.who| == |s.indices| && b' < |s.keys|
    requires l < |s.keys[b]| == |s.who[b]| == |s.indices[b]| && l' < |s.keys[b']| == |s.who[b']| == |s.indices[b']|
  {
    (b != b' || l != l') && s.keys[b][l] != EMPTY && s.keys[b'][l'] != EMPTY && Numbered(s, b, l)
        && Numbered(s, b', l') ==>
      NumberOf(s, b, l) != NumberOf(s, b', l')
  }

  /** The slots of the current bucket in front of `load` hold other keys. */
  ghost predicate Behind(row: seq<int>, key: int, load: nat)
  {
    load <= |row| && forall l :: 0 <= l < load ==> row[l] != EMPTY && row[l] != key
  }

  ghost predicate Holds(c: Batch, s: State, i: nat, b: nat, l: nat)
    requires Sized(c, s)
  {
    Slot(c.t, b, l) && s.keys[b][l] != EMPTY && s.who[b][l] == i
  }

  ghost predicate ThreadOk(c: Batch, s: State, i: nat)
    requires Sized(c, s) && i < |s.pcs|
  {
    var key := c.jobs[i].key;
    match s.pcs[i]
    case Scan(iter, load) =>
      iter < 3 && load < c.t.B && Passed(c.t, s.keys, key, iter) && Behind(s.keys[Bucket(c.t, key, iter)], key, load)
    case Cas(iter, load) =>
      iter < 3 && load <= c.t.B - 2 && Passed(c.t, s.keys, key, iter)
          && Behind(s.keys[Bucket(c.t, key, iter)], key, load)
    case Fetch(b, l) => Holds(c, s, i, b, l)
    case Record(b, l, _) => Holds(c, s, i, b, l)
    case Note(b, l, _) => Holds(c, s, i, b, l)
    case Check(b, l, _) => Holds(c, s, i, b, l)
    case Return(r) =>
      if r.Full? then Passed(c.t, s.keys, key, 3) && !s.success
      else if r.Found? then Stored(s.keys, key)
      else
        && Placed(c, s, i, r.no) && (r.Overrun? <==> r.no >= |s.active|)
        && (!r.Overrun? ==> (r.Near? <==> TooNear(c.t, r.no))) && (r.Near? ==> !s.success)
  }

  /** The slot in which a thread left its key and its number. */
  ghost predicate Placed(c: Batch, s: State, i: nat, no: int)
    requires Sized(c, s) && i < |s.pcs|
  {
    exists b: nat, l: nat :: PlacedAt(c, s, i, no, b, l)
  }

  ghost predicate PlacedAt(c: Batch, s: State, i: nat, no: int, b: nat, l: nat)
    requires Sized(c, s) && i < |s.pcs|
  {
    Slot(c.t, b, l) && s.keys[b][l] == c.jobs[i].key != EMPTY && s.who[b][l] == i && s.indices[b][l] == no
  }

  ghost predicate Inv(c: Batch, rebuild: bool, s: State)
  {
    && Sized(c, s) && Jobs(c, rebuild, s.active) && TableOk(c.t, s.keys) && s.cnt >= 0
    && (forall b: nat, l: nat :: Slot(c.t, b, l) && s.keys[b][l] != EMPTY ==> SlotOk(c, rebuild, s, b, l))
    && (forall b: nat, l: nat, b': nat, l': nat :: Slot(c.t, b, l) && Slot(c.t, b', l') ==> Distinct(s, b, l, b', l'))
    && (forall i: nat :: i < |s.pcs| ==> ThreadOk(c, s, i))
    && (!rebuild ==> s.cnt + Sum(Fetching(s.pcs)) == Sum(Fills(s.keys)) + |c.lost|)
    && (rebuild ==> Sum(Placing(s.pcs)) == Sum(Fills(s.keys)))
    && (!rebuild ==> forall n: nat :: n < s.cnt ==> n in c.lost || Covered(c, s, n))
    && (!rebuild ==> Missing(c.t, s.keys, s.active, s.cnt, c.lost))
  }

  /** The three buckets of every lost key are full of other keys. */
  ghost predicate Missing(c: Config, keys: seq<seq<int>>, active: seq<int>, cnt: int, lost: set<nat>)
    requires c.nb > 0 && Grid(c, keys)
  {
    && (forall n :: n in lost ==> Misses(c, keys, active, cnt, n))
    && forall m, n :: m in lost && n in lost && m < |active| && n < |active| && m != n ==> active[m] != active[n]
  }

  ghost predicate Misses(c: Config, keys: seq<seq<int>>, active: seq<int>, cnt: int, n: nat)
    requires c.nb > 0 && Grid(c, keys)
  {
    n < cnt && n < |active| && active[n] != EMPTY && Passed(c, keys, active[n], 3)
  }

  /** Every number drawn belongs to a key in the table. */
  ghost predicate Covered(c: Batch, s: State, n: nat)
    requires Sized(c, s)
  {
    exists b: nat, l: nat :: CoveredAt(c, s, n, b, l)
  }

  ghost predicate CoveredAt(c: Batch, s: State, n: nat, b: nat, l: nat)
    requires Sized(c, s)
  {
    Slot(c.t, b, l) && s.keys[b][l] != EMPTY && Numbered(s, b, l) && NumberOf(s, b, l) == n
  }

  // The steps of a thread.

  /** The next bucket, or failure after the third. */
  function NextBucket(s: State, i: nat, iter: nat): State
    requires i < |s.pcs|
  {
    if iter + 1 < 3 then s.(pcs := s.pcs[i := Scan(iter + 1, 0)])
    else s.(pcs := s.pcs[i := Return(Full)], success := false)
  }

  ghost function ScanStep(c: Batch, s: State, i: nat, iter: nat, load: nat): State
    requires Sized(c, s) && i < |s.pcs| && load < c.t.B
  {
    var key := c.jobs[i].key;
    var cur := s.keys[Bucket(c.t, key, iter)][load];
    if cur == key then s.(pcs := s.pcs[i := Return(Found)])
    else if cur == EMPTY then
      if load <= c.t.B - 2 then s.(pcs := s.pcs[i := Cas(iter, load)]) else NextBucket(s, i, iter)
    else if load + 1 != c.t.B then s.(pcs := s.pcs[i := Scan(iter, load + 1)])
    else NextBucket(s, i, iter)
  }

  ghost function CasStep(c: Batch, s: State, i: nat, iter: nat, load: nat): State
    requires Sized(c, s) && i < |s.pcs| && load < c.t.B
  {
    var (key, index) := (c.jobs[i].key, c.jobs[i].index);
    var b := Bucket(c.t, key, iter);
    if s.keys[b][load] == EMPTY then
      s.(keys := Put(s.keys, b, load, key), who := Put(s.who, b, load, i),
         pcs := s.pcs[i := if index == NO_INDEX then Fetch(b, load) else Record(b, load, index)])
    else s.(pcs := s.pcs[i := Scan(iter, load)])
  }

  ghost function Step(c: Batch, rebuild: bool, s: State, i: nat): State
    requires Inv(c, rebuild, s) && i < |s.pcs|
  {
    Enabled(c, rebuild, s, i);
    match s.pcs[i]
    case Scan(iter, load) => ScanStep(c, s, i, iter, load)
    case Cas(iter, load) => CasStep(c, s, i, iter, load)
    case Fetch(b, l) => s.(cnt := s.cnt + 1, pcs := s.pcs[i := Record(b, l, s.cnt)])
    case Record(b, l, no) => s.(indices := Put(s.indices, b, l, no), pcs := s.pcs[i := Note(b, l, no)])
    case Note(b, l, no) =>
      if !c.jobs[i].enqueue then s.(pcs := s.pcs[i := Check(b, l, no)])
      else if no < |s.active| then s.(active := s.active[no := c.jobs[i].key], pcs := s.pcs[i := Check(b, l, no)])
      else s.(pcs := s.pcs[i := Return(Overrun(no))])
    case Check(b, l, no) =>
      if TooNear(c.t, no) then s.(success := false, pcs := s.pcs[i := Return(Near(no))])
      else s.(pcs := s.pcs[i := Return(Won(no))])
    case Return(_) => s
  }

  lemma Enabled(c: Batch, rebuild: bool, s: State, i: nat)
    requires Inv(c, rebuild, s) && i < |s.pcs|
    ensures match s.pcs[i]
            case Scan(_, load) => load < c.t.B
            case Cas(_, load) => load < c.t.B
            case Fetch(b, l) => Slot(c.t, b, l)
            case Record(b, l, no) => Slot(c.t, b, l) && 0 <= no
            case Note(b, l, no) => Slot(c.t, b, l) && 0 <= no
            case Check(b, l, no) => Slot(c.t, b, l) && 0 <= no < |s.active|
            case Return(_) => true
  {
    hide TableOk, Jobs, Distinct;
    assert ThreadOk(c, s, i);
    match s.pcs[i]
    case Record(b, l, _) => assert SlotOk(c, rebuild, s, b, l);
    case Note(b, l, _) => assert SlotOk(c, rebuild, s, b, l);
    case Check(b, l, _) => assert SlotOk(c, rebuild, s, b, l);
    case _ =>
  }

  // A compare-and-swap that succeeds keeps the table in order.

  /** The slot a thread may fill is the first free one of its bucket. */
  ghost predicate Free(c: Config, keys: seq<seq<int>>, key: int, iter: nat, load: nat)
    requires c.nb > 0 && Grid(c, keys)
  {
    && key != EMPTY && iter < 3 && load <= c.B - 2 && Passed(c, keys, key, iter)
    && Behind(keys[Bucket(c, key, iter)], key, load) && keys[Bucket(c, key, iter)][load] == EMPTY
  }

  lemma FreeRow(c: Config, keys: seq<seq<int>>, key: int, iter: nat, load: nat)
    requires c.nb > 0 && Grid(c, keys) && Free(c, keys, key, iter, load)
    requires Prefix(c, keys[Bucket(c, key, iter)])
    ensures var row := keys[Bucket(c, key, iter)];
            Fill(row) == load && !FullRow(c, row) && Prefix(c, row[load := key]) && Fill(row[load := key]) == load + 1
  {
    var row := keys[Bucket(c, key, iter)];
    FillIs(row, load);
    FillIs(row[load := key], load + 1);
    assert row[load] == EMPTY;
  }

  /** A key whose slot is free is nowhere in the table. */
  lemma NotStored(c: Config, keys: seq<seq<int>>, key: int, iter: nat, load: nat, b: nat, l: nat)
    requires c.nb > 0 && Grid(c, keys) && TableOk(c, keys) && Free(c, keys, key, iter, load) && Slot(c, b, l)
    ensures keys[b][l] != key
  {
    hide Fill;
    assert Prefix(c, keys[Bucket(c, key, iter)]);
    FreeRow(c, keys, key, iter, load);
  }

  /** Filling a slot leaves full buckets as they are. */
  lemma FullStays(c: Config, keys: seq<seq<int>>, b: nat, l: nat, key: int, d: nat)
    requires c.nb > 0 && Grid(c, keys) && Slot(c, b, l) && keys[b][l] == EMPTY && l < c.B - 1 && d < c.nb
             && FullRow(c, keys[d])
    ensures d != b && Grid(c, Put(keys, b, l, key)) && Put(keys, b, l, key)[d] == keys[d]
  {
    assert keys[d][l] != EMPTY;
  }

  lemma HomedStays(c: Config, keys: seq<seq<int>>, key: int, iter: nat, load: nat, b: nat, l: nat)
    requires c.nb > 0 && Grid(c, keys) && TableOk(c, keys) && Free(c, keys, key, iter, load) && Slot(c, b, l)
    requires Put(keys, Bucket(c, key, iter), load, key)[b][l] != EMPTY
    ensures Grid(c, Put(keys, Bucket(c, key, iter), load, key))
    ensures Homed(c, Put(keys, Bucket(c, key, iter), load, key), b, l)
  {
    hide Fill, Prefix;
    var d := Bucket(c, key, iter);
    var k := Put(keys, d, load, key)[b][l];
    if b == d && l == load {
      forall i: nat | i < iter
        ensures Bucket(c, key, i) != b && FullRow(c, Put(keys, d, load, key)[Bucket(c, key, i)])
      {
        FullStays(c, keys, d, load, key, Bucket(c, key, i));
      }
    } else {
      assert Homed(c, keys, b, l);
      var j: nat :| j < 3 && Bucket(c, k, j) == b && forall i: nat :: i < j ==>
          Bucket(c, k, i) != b && FullRow(c, keys[Bucket(c, k, i)]);
      forall i: nat | i < j
        ensures FullRow(c, Put(keys, d, load, key)[Bucket(c, k, i)])
      {
        FullStays(c, keys, d, load, key, Bucket(c, k, i));
      }
    }
  }

  lemma CasTable(c: Config, keys: seq<seq<int>>, key: int, iter: nat, load: nat)
    requires c.nb > 0 && Grid(c, keys) && TableOk(c, keys) && Free(c, keys, key, iter, load)
    ensures var g := Put(keys, Bucket(c, key, iter), load, key);
            Grid(c, g) && TableOk(c, g)
  {
    hide Fill, Prefix, Homed;
    var d := Bucket(c, key, iter);
    var g := Put(keys, d, load, key);
    assert Prefix(c, keys[d]);
    FreeRow(c, keys, key, iter, load);
    forall b: nat, l: nat | Slot(c, b, l) && g[b][l] != EMPTY
      ensures Homed(c, g, b, l)
    {
      HomedStays(c, keys, key, iter, load, b, l);
    }
    forall b, l, b', l' | Slot(c, b, l) && Slot(c, b', l') && g[b][l] == g[b'][l'] != EMPTY
      ensures b == b' && l == l'
    {
      NotStored(c, keys, key, iter, load, b, l);
      NotStored(c, keys, key, iter, load, b', l');
    }
    forall b | 0 <= b < c.nb
      ensures Prefix(c, g[b])
    {
      assert Prefix(c, keys[b]);
    }
  }

  // Every step keeps the invariant.

  lemma SameFetching(pcs: seq<Pc>, i: nat, pc: Pc)
    requires i < |pcs| && pcs[i].Fetch? == pc.Fetch?
    ensures Fetching(pcs[i := pc]) == Fetching(pcs)
  {
  }

  lemma SamePlacing(pcs: seq<Pc>, i: nat, pc: Pc)
    requires i < |pcs| && HasPlaced(pcs[i]) == HasPlaced(pc)
    ensures Placing(pcs[i := pc]) == Placing(pcs)
  {
  }

  lemma MorePlacing(pcs: seq<Pc>, i: nat, pc: Pc)
    requires i < |pcs| && !HasPlaced(pcs[i]) && HasPlaced(pc)
    ensures Sum(Placing(pcs[i := pc])) == Sum(Placing(pcs)) + 1
  {
    SumUpdate(Placing(pcs), i, 1);
    assert Placing(pcs[i := pc]) == Placing(pcs)[i := 1];
  }

  lemma OtherFetching(pcs: seq<Pc>, i: nat, pc: Pc)
    requires i < |pcs|
    ensures Sum(Fetching(pcs[i := pc])) + (if pcs[i].Fetch? then 1 else 0) == Sum(Fetching(pcs)) + if pc.Fetch? then 1
            else 0
  {
    var v := if pc.Fetch? then 1 else 0;
    SumUpdate(Fetching(pcs), i, v);
    assert Fetching(pcs[i := pc]) == Fetching(pcs)[i := v];
  }

  /** A number stays with its slot. */
  lemma CoveredStays(c: Batch, s: State, s': State, n: nat)
    requires Sized(c, s) && Sized(c, s') && Covered(c, s, n)
    requires forall b: nat, l: nat :: Slot(c.t, b, l) && s.keys[b][l] != EMPTY && Numbered(s, b, l) ==>
               s'.keys[b][l] == s.keys[b][l] && Numbered(s', b, l) && NumberOf(s', b, l) == NumberOf(s, b, l)
    ensures Covered(c, s', n)
  {
    var b: nat, l: nat :| CoveredAt(c, s, n, b, l);
    assert CoveredAt(c, s', n, b, l);
  }

  /** As long as full buckets stay full and the lost keys stay listed, they are lost. */
  lemma MissingStays(c: Config, keys: seq<seq<int>>, keys': seq<seq<int>>, active: seq<int>, active': seq<int>,
      cnt: int, cnt': int, lost: set<nat>)
    requires c.nb > 0 && Grid(c, keys) && Grid(c, keys') && Missing(c, keys, active, cnt, lost)
             && cnt <= cnt' && |active'| == |active|
    requires forall n :: n in lost && n < |active| ==> active'[n] == active[n]
    requires forall k :: Passed(c, keys, k, 3) ==> Passed(c, keys', k, 3)
    ensures Missing(c, keys', active', cnt', lost)
  {
    hide Passed;
    forall n | n in lost
      ensures Misses(c, keys', active', cnt', n)
    {
      assert Misses(c, keys, active, cnt, n);
    }
  }

  /** What a thread has left stays, as long as nobody else writes its slot. */
  lemma PlacedStays(c: Batch, s: State, s': State, i: nat)
    requires Sized(c, s) && Sized(c, s') && i < |s.pcs| && s.pcs[i].Return? && HasWon(s.pcs[i].r)
    requires Placed(c, s, i, s.pcs[i].r.no)
    requires forall b, l :: Slot(c.t, b, l) && s.keys[b][l] != EMPTY ==>
               s'.keys[b][l] == s.keys[b][l] && s'.who[b][l] == s.who[b][l]
                   && (s.who[b][l] == i ==> s'.indices[b][l] == s.indices[b][l])
    ensures Placed(c, s', i, s.pcs[i].r.no)
  {
    var b: nat, l: nat :| PlacedAt(c, s, i, s.pcs[i].r.no, b, l);
    assert PlacedAt(c, s', i, s.pcs[i].r.no, b, l);
  }

  /** A thread that only looks changes nothing for slots and for other threads. */
  lemma Looked(c: Batch, rebuild: bool, s: State, i: nat, pc: Pc, success: bool)
    requires Inv(c, rebuild, s) && i < |s.pcs| && (s.pcs[i].Scan? || s.pcs[i].Cas?)
             && (pc.Scan? || pc.Cas? || pc.Return?) && !HasPlaced(pc)
    requires success ==> s.success
    requires var s' := s.(pcs := s.pcs[i := pc], success := success); ThreadOk(c, s', i)
    ensures Inv(c, rebuild, s.(pcs := s.pcs[i := pc], success := success))
  {
    hide TableOk, Jobs, Passed, Behind, Stored, Placed, Covered, Missing;
    var s' := s.(pcs := s.pcs[i := pc], success := success);
    SameFetching(s.pcs, i, pc);
    SamePlacing(s.pcs, i, pc);
    forall b: nat, l: nat | Slot(c.t, b, l) && s.keys[b][l] != EMPTY
      ensures SlotOk(c, rebuild, s', b, l) && s.who[b][l] != i
    {
      assert SlotOk(c, rebuild, s, b, l);
    }
    forall b: nat, l: nat, b': nat, l': nat | Slot(c.t, b, l) && Slot(c.t, b', l')
      ensures Distinct(s', b, l, b', l')
    {
      assert Distinct(s, b, l, b', l');
    }
    forall j: nat | j < |s.pcs|
      ensures ThreadOk(c, s', j)
    {
      assert ThreadOk(c, s, j);
      if j != i && s.pcs[j].Return? && HasWon(s.pcs[j].r) {
        PlacedStays(c, s, s', j);
      }
    }
    forall n: nat | n < s.cnt && !rebuild && n !in c.lost
      ensures Covered(c, s', n)
    {
      CoveredStays(c, s, s', n);
    }
  }

  /** A thread leaves a bucket only when it is full of other keys. */
  lemma Further(c: Config, keys: seq<seq<int>>, key: int, iter: nat, load: nat)
    requires c.nb > 0 && Grid(c, keys) && key != EMPTY && load < c.B && Passed(c, keys, key, iter)
    requires Prefix(c, keys[Bucket(c, key, iter)]) && Behind(keys[Bucket(c, key, iter)], key, load)
    requires var cur := keys[Bucket(c, key, iter)][load]; cur != key && (cur == EMPTY ==> load > c.B - 2)
    requires keys[Bucket(c, key, iter)][load] != EMPTY ==> load + 1 == c.B
    ensures Passed(c, keys, key, iter + 1)
  {
    var row := keys[Bucket(c, key, iter)];
    assert row[c.B - 1] == EMPTY;
    forall j: nat | j < iter + 1
      ensures FullRow(c, keys[Bucket(c, key, j)]) && key !in keys[Bucket(c, key, j)]
    {
    }
  }

  lemma ScanKeeps(c: Batch, rebuild: bool, s: State, i: nat)
    requires Inv(c, rebuild, s) && i < |s.pcs| && s.pcs[i].Scan?
    ensures Inv(c, rebuild, Step(c, rebuild, s, i))
  {
    hide Distinct, SlotOk, Homed, Fill, Passed;
    assert ThreadOk(c, s, i);
    var (key, iter, load) := (c.jobs[i].key, s.pcs[i].iter, s.pcs[i].load);
    var row := s.keys[Bucket(c.t, key, iter)];
    var s' := ScanStep(c, s, i, iter, load);
    assert Prefix(c.t, row);
    if row[load] == key {
      assert Stored(s.keys, key);
    } else if !(row[load] == EMPTY && load <= c.t.B - 2) && !(row[load] != EMPTY && load + 1 != c.t.B) {
      Further(c.t, s.keys, key, iter, load);
      assert iter + 1 < 3 ==> Behind(s.keys[Bucket(c.t, key, iter + 1)], key, 0);
    }
    assert s' == s.(pcs := s.pcs[i := s'.pcs[i]], success := s'.success);
    assert ThreadOk(c, s', i);
    hide ThreadOk, TableOk, Behind, Stored, Jobs;
    Looked(c, rebuild, s, i, s'.pcs[i], s'.success);
  }

  lemma CasFree(c: Batch, rebuild: bool, s: State, i: nat)
    requires Inv(c, rebuild, s) && i < |s.pcs| && s.pcs[i].Cas?
    ensures s.pcs[i].load < c.t.B
    ensures s.keys[Bucket(c.t, c.jobs[i].key, s.pcs[i].iter)][s.pcs[i].load] == EMPTY ==>
              Free(c.t, s.keys, c.jobs[i].key, s.pcs[i].iter, s.pcs[i].load)
  {
    hide Distinct, SlotOk, TableOk, Passed;
    assert ThreadOk(c, s, i);
  }

  /** What other threads know survives the filling of a free slot. */
  lemma StillPassed(c: Config, keys: seq<seq<int>>, b: nat, l: nat, key: int, k: int, iter: nat)
    requires c.nb > 0 && Grid(c, keys) && Slot(c, b, l) && keys[b][l] == EMPTY && l < c.B - 1
             && Passed(c, keys, k, iter)
    ensures Grid(c, Put(keys, b, l, key)) && Passed(c, Put(keys, b, l, key), k, iter)
  {
    forall j: nat | j < iter
      ensures FullRow(c, Put(keys, b, l, key)[Bucket(c, k, j)]) && k !in Put(keys, b, l, key)[Bucket(c, k, j)]
    {
      FullStays(c, keys, b, l, key, Bucket(c, k, j));
    }
  }

  lemma StillStored(keys: seq<seq<int>>, b: nat, l: nat, key: int, k: int)
    requires b < |keys| && l < |keys[b]| && keys[b][l] == EMPTY && k != EMPTY && Stored(keys, k)
    ensures Stored(Put(keys, b, l, key), k)
  {
    var d :| 0 <= d < |keys| && k in keys[d];
    var m :| 0 <= m < |keys[d]| && keys[d][m] == k;
    assert Put(keys, b, l, key)[d][m] == k;
  }

  lemma CasThread(c: Batch, rebuild: bool, s: State, i: nat, j: nat)
    requires Inv(c, rebuild, s) && i < |s.pcs| && s.pcs[i].Cas? && j < |s.pcs| && s.pcs[i].load < c.t.B
    requires Free(c.t, s.keys, c.jobs[i].key, s.pcs[i].iter, s.pcs[i].load)
    ensures var s' := CasStep(c, s, i, s.pcs[i].iter, s.pcs[i].load);
            Sized(c, s') && ThreadOk(c, s', j)
  {
    hide Inv, Passed, Stored, Fill, Placed;
    ThreadIs(c, rebuild, s, j);
    var (key, iter, load) := (c.jobs[i].key, s.pcs[i].iter, s.pcs[i].load);
    var b := Bucket(c.t, key, iter);
    match s.pcs[j]
    case Scan(it, _) => StillPassed(c.t, s.keys, b, load, key, c.jobs[j].key, it);
    case Cas(it, _) => StillPassed(c.t, s.keys, b, load, key, c.jobs[j].key, it);
    case Return(r) =>
      if r.Full? {
        StillPassed(c.t, s.keys, b, load, key, c.jobs[j].key, 3);
      } else if r.Found? {
        StillStored(s.keys, b, load, key, c.jobs[j].key);
      } else {
        PlacedStays(c, s, CasStep(c, s, i, iter, load), j);
      }
    case _ =>
  }

  lemma ThreadIs(c: Batch, rebuild: bool, s: State, i: nat)
    requires Inv(c, rebuild, s) && i < |s.pcs|
    ensures Sized(c, s) && ThreadOk(c, s, i) && c.jobs[i].key != EMPTY && s.cnt >= 0
  {
  }

  lemma CasSlot(c: Batch, rebuild: bool, s: State, i: nat, b: nat, l: nat)
    requires Inv(c, rebuild, s) && i < |s.pcs| && s.pcs[i].Cas? && Slot(c.t, b, l) && s.pcs[i].load < c.t.B
    requires Free(c.t, s.keys, c.jobs[i].key, s.pcs[i].iter, s.pcs[i].load)
    ensures var s' := CasStep(c, s, i, s.pcs[i].iter, s.pcs[i].load);
            && Sized(c, s')
            && (s'.keys[b][l] != EMPTY ==> SlotOk(c, rebuild, s', b, l))
            && (s.keys[b][l] != EMPTY ==>
                  && s'.keys[b][l] == s.keys[b][l] && s.who[b][l] != i
                  && Numbered(s', b, l) == Numbered(s, b, l) && NumberOf(s', b, l) == NumberOf(s, b, l))
            && (s.keys[b][l] == EMPTY && s'.keys[b][l] != EMPTY ==>
                  && (rebuild ==> NumberOf(s', b, l) == c.jobs[i].index && s'.who[b][l] == i)
                      && (!rebuild ==> !Numbered(s', b, l)))
  {
    hide Distinct, TableOk, ThreadOk, Passed, Stored, Fill, Behind;
    if s.keys[b][l] != EMPTY {
      assert SlotOk(c, rebuild, s, b, l);
    }
  }

  lemma CasDistinct(c: Batch, rebuild: bool, s: State, i: nat, b: nat, l: nat, b': nat, l': nat)
    requires Inv(c, rebuild, s) && i < |s.pcs| && s.pcs[i].Cas? && Slot(c.t, b, l) && Slot(c.t, b', l')
             && s.pcs[i].load < c.t.B
    requires Free(c.t, s.keys, c.jobs[i].key, s.pcs[i].iter, s.pcs[i].load)
    ensures var s' := CasStep(c, s, i, s.pcs[i].iter, s.pcs[i].load);
            Sized(c, s') && Distinct(s', b, l, b', l')
  {
    CasSlot(c, rebuild, s, i, b, l);
    CasSlot(c, rebuild, s, i, b', l');
    assert Distinct(s, b, l, b', l');
    if s.keys[b][l] != EMPTY {
      assert SlotOk(c, rebuild, s, b, l);
    }
    if s.keys[b'][l'] != EMPTY {
      assert SlotOk(c, rebuild, s, b', l');
    }
    hide TableOk, ThreadOk, Passed, Stored, Fill, Behind, Free;
  }

  /** Every thread that has placed its key has filled a slot. */
  ghost predicate Balanced(s: State, r: State)
  {
    Sum(Fills(r.keys)) + Sum(Placing(s.pcs)) == Sum(Fills(s.keys)) + Sum(Placing(r.pcs))
  }

  lemma CasCount(c: Batch, rebuild: bool, s: State, i: nat)
    requires Inv(c, rebuild, s) && i < |s.pcs| && s.pcs[i].Cas? && s.pcs[i].load < c.t.B
    requires Free(c.t, s.keys, c.jobs[i].key, s.pcs[i].iter, s.pcs[i].load)
    ensures var s' := CasStep(c, s, i, s.pcs[i].iter, s.pcs[i].load);
            && (!rebuild ==> s'.cnt + Sum(Fetching(s'.pcs)) == Sum(Fills(s'.keys)) + |c.lost|)
            && (rebuild ==> Sum(Placing(s'.pcs)) == Sum(Fills(s'.keys)))
            && Balanced(s, s')
  {
    hide Distinct, SlotOk, ThreadOk, Passed, Stored, Fill;
    var (key, iter, load) := (c.jobs[i].key, s.pcs[i].iter, s.pcs[i].load);
    var b := Bucket(c.t, key, iter);
    assert Prefix(c.t, s.keys[b]);
    FreeRow(c.t, s.keys, key, iter, load);
    var pc := if c.jobs[i].index == NO_INDEX then Fetch(b, load) else Record(b, load, c.jobs[i].index);
    OtherFetching(s.pcs, i, pc);
    MorePlacing(s.pcs, i, pc);
    SumUpdate(Fills(s.keys), b, load + 1);
    assert Fills(Put(s.keys, b, load, key)) == Fills(s.keys)[b := load + 1];
  }

  lemma CasKeeps(c: Batch, rebuild: bool, s: State, i: nat)
    requires Inv(c, rebuild, s) && i < |s.pcs| && s.pcs[i].Cas?
    ensures Inv(c, rebuild, Step(c, rebuild, s, i))
  {
    hide Inv, CasStep, Free;
    ThreadIs(c, rebuild, s, i);
    CasFree(c, rebuild, s, i);
    if s.keys[Bucket(c.t, c.jobs[i].key, s.pcs[i].iter)][s.pcs[i].load] != EMPTY {
      CasMisses(c, rebuild, s, i);
    } else {
      CasTakes(c, rebuild, s, i);
    }
  }

  lemma CasMisses(c: Batch, rebuild: bool, s: State, i: nat)
    requires Inv(c, rebuild, s) && i < |s.pcs| && s.pcs[i].Cas? && s.pcs[i].load < c.t.B
    requires s.keys[Bucket(c.t, c.jobs[i].key, s.pcs[i].iter)][s.pcs[i].load] != EMPTY
    ensures Inv(c, rebuild, CasStep(c, s, i, s.pcs[i].iter, s.pcs[i].load))
  {
    hide Inv, Passed, Behind;
    ThreadIs(c, rebuild, s, i);
    Looked(c, rebuild, s, i, Scan(s.pcs[i].iter, s.pcs[i].load), s.success);
  }

  lemma CasTakes(c: Batch, rebuild: bool, s: State, i: nat)
    requires Inv(c, rebuild, s) && i < |s.pcs| && s.pcs[i].Cas? && s.pcs[i].load < c.t.B
    requires Free(c.t, s.keys, c.jobs[i].key, s.pcs[i].iter, s.pcs[i].load)
    ensures Inv(c, rebuild, CasStep(c, s, i, s.pcs[i].iter, s.pcs[i].load))
  {
    hide Distinct, SlotOk, TableOk, Passed, Stored, Fill, Behind, ThreadOk, Free, Missing, Covered, Fills, Fetching,
        Placing, Sum;
    var (key, iter, load) := (c.jobs[i].key, s.pcs[i].iter, s.pcs[i].load);
    var s' := CasStep(c, s, i, iter, load);
    CasTable(c.t, s.keys, key, iter, load);
    CasCount(c, rebuild, s, i);
    CasThread(c, rebuild, s, i, i);
    forall j: nat | j < |s.pcs|
      ensures ThreadOk(c, s', j)
    {
      CasThread(c, rebuild, s, i, j);
    }
    forall b: nat, l: nat | Slot(c.t, b, l) && s'.keys[b][l] != EMPTY
      ensures SlotOk(c, rebuild, s', b, l)
    {
      CasSlot(c, rebuild, s, i, b, l);
    }
    forall b: nat, l: nat, b': nat, l': nat | Slot(c.t, b, l) && Slot(c.t, b', l')
      ensures Distinct(s', b, l, b', l')
    {
      CasDistinct(c, rebuild, s, i, b, l, b', l');
    }
    forall n: nat | n < s.cnt && !rebuild && n !in c.lost
      ensures Covered(c, s', n)
    {
      CasCovered(c, rebuild, s, i, n);
    }
    if !rebuild {
      CasMissing(c, s, i);
    }
  }

  lemma CasCovered(c: Batch, rebuild: bool, s: State, i: nat, n: nat)
    requires Inv(c, rebuild, s) && i < |s.pcs| && s.pcs[i].Cas? && s.pcs[i].load < c.t.B && n < s.cnt && !rebuild
             && n !in c.lost
    requires Free(c.t, s.keys, c.jobs[i].key, s.pcs[i].iter, s.pcs[i].load)
    ensures var s' := CasStep(c, s, i, s.pcs[i].iter, s.pcs[i].load);
            Sized(c, s') && Covered(c, s', n)
  {
    hide TableOk, ThreadOk, SlotOk, Distinct, Jobs, Free, Passed, Behind, Numbered, NumberOf, Covered;
    var s' := CasStep(c, s, i, s.pcs[i].iter, s.pcs[i].load);
    forall b: nat, l: nat | Slot(c.t, b, l) && s.keys[b][l] != EMPTY && Numbered(s, b, l)
      ensures s'.keys[b][l] == s.keys[b][l] && Numbered(s', b, l) && NumberOf(s', b, l) == NumberOf(s, b, l)
    {
      CasSlot(c, rebuild, s, i, b, l);
    }
    CoveredStays(c, s, s', n);
  }

  lemma CasMissing(c: Batch, s: State, i: nat)
    requires Inv(c, false, s) && i < |s.pcs| && s.pcs[i].Cas? && s.pcs[i].load < c.t.B
    requires Free(c.t, s.keys, c.jobs[i].key, s.pcs[i].iter, s.pcs[i].load)
    ensures var s' := CasStep(c, s, i, s.pcs[i].iter, s.pcs[i].load);
            Sized(c, s') && Missing(c.t, s'.keys, s'.active, s'.cnt, c.lost)
  {
    hide TableOk, ThreadOk, SlotOk, Distinct, Jobs, Passed, Covered, Missing;
    var (key, iter, load) := (c.jobs[i].key, s.pcs[i].iter, s.pcs[i].load);
    var s' := CasStep(c, s, i, iter, load);
    MissingIs(c, s);
    forall k | Passed(c.t, s.keys, k, 3)
      ensures Passed(c.t, s'.keys, k, 3)
    {
      StillPassed(c.t, s.keys, Bucket(c.t, key, iter), load, key, k, 3);
    }
    MissingStays(c.t, s.keys, s'.keys, s.active, s.active, s.cnt, s.cnt, c.lost);
  }

  lemma FillBound(c: Config, keys: seq<seq<int>>)
    requires c.nb > 0 && c.B >= 3 && Grid(c, keys) && TableOk(c, keys)
    ensures Sum(Fills(keys)) <= TableSize(c) - c.nb
  {
    hide Fill, Homed, Sum;
    forall b | 0 <= b < |keys|
      ensures Fills(keys)[b] <= c.B - 1
    {
      assert Prefix(c, keys[b]);
    }
    SumBounds(Fills(keys), 0, c.B - 1);
    assert c.nb * (c.B - 1) == c.nb * c.B - c.nb;
  }

  ghost predicate Overran(s: State)
  {
    exists i: nat :: OverranAt(s, i)
  }

  predicate OverranAt(s: State, i: nat)
  {
    i < |s.pcs| && s.pcs[i].Return? && s.pcs[i].r.Overrun?
  }

  /** At any time the numbers drawn stay within the list, unless a rebuild has lost more keys than
      there are buckets. */
  lemma CounterBound(c: Batch, s: State)
    requires Inv(c, false, s)
    ensures s.cnt + Sum(Fetching(s.pcs)) <= |s.active| - c.t.nb + |c.lost|
    ensures |c.lost| <= c.t.nb ==> s.cnt <= |s.active| && !Overran(s)
  {
    hide Distinct, SlotOk, Fill, Homed, TableOk, Sum, Missing, ThreadOk;
    FillBound(c.t, s.keys);
    if i: nat :| OverranAt(s, i) {
      OverrunDrawn(c, s, i);
    }
  }

  lemma OverrunDrawn(c: Batch, s: State, i: nat)
    requires Inv(c, false, s) && OverranAt(s, i)
    ensures |s.active| <= s.pcs[i].r.no < s.cnt
  {
    hide Distinct, TableOk, Missing, Covered, Passed;
    assert ThreadOk(c, s, i);
    var b: nat, l: nat :| PlacedAt(c, s, i, s.pcs[i].r.no, b, l);
    assert SlotOk(c, false, s, b, l);
  }

  /** The slot of a thread at work, and what the thread does to it. */
  lemma Held(c: Batch, rebuild: bool, s: State, i: nat)
    requires Inv(c, rebuild, s) && i < |s.pcs| && Holding(s.pcs[i])
    ensures var (b, l) := (s.pcs[i].b, s.pcs[i].l);
            && Slot(c.t, b, l) && s.keys[b][l] == c.jobs[i].key != EMPTY && s.who[b][l] == i
                && SlotOk(c, rebuild, s, b, l)
  {
    hide Distinct, TableOk, Passed, Behind, Stored;
    assert ThreadOk(c, s, i);
    assert SlotOk(c, rebuild, s, s.pcs[i].b, s.pcs[i].l);
  }

  lemma SlotFacts(c: Batch, rebuild: bool, s: State, i: nat, b: nat, l: nat)
    requires Inv(c, rebuild, s) && i < |s.pcs| && Holding(s.pcs[i]) && Slot(c.t, b, l) && s.keys[b][l] != EMPTY
    ensures Sized(c, s) && SlotOk(c, rebuild, s, b, l)
    ensures c.jobs[i].key != EMPTY
    ensures if rebuild then !c.jobs[i].enqueue && 0 <= c.jobs[i].index < |s.active|
            && s.active[c.jobs[i].index] == c.jobs[i].key
            else c.jobs[i].enqueue
    ensures var (b0, l0) := (s.pcs[i].b, s.pcs[i].l);
            && Slot(c.t, b0, l0) && s.keys[b0][l0] == c.jobs[i].key && s.who[b0][l0] == i
                && SlotOk(c, rebuild, s, b0, l0)
            && Distinct(s, b, l, b0, l0)
    ensures 0 <= s.cnt && (!rebuild ==> forall n :: n in c.lost ==> n < s.cnt)
  {
    hide TableOk, ThreadOk, Passed, Fill, Behind, Stored;
    Held(c, rebuild, s, i);
    assert Distinct(s, b, l, s.pcs[i].b, s.pcs[i].l);
    assert !rebuild ==> forall n :: n in c.lost ==> Misses(c.t, s.keys, s.active, s.cnt, n);
  }

  lemma WorkOwnSlot(c: Batch, rebuild: bool, s: State, i: nat, b: nat, l: nat)
    requires Inv(c, rebuild, s) && i < |s.pcs| && Holding(s.pcs[i]) && Slot(c.t, b, l) && s.keys[b][l] != EMPTY
             && s.who[b][l] == i
    ensures var s' := Step(c, rebuild, s, i);
            && Sized(c, s') && SlotOk(c, rebuild, s', b, l)
            && (Numbered(s, b, l) ==> Numbered(s', b, l) && NumberOf(s', b, l) == NumberOf(s, b, l))
            && (!Numbered(s, b, l) && Numbered(s', b, l) ==> NumberOf(s', b, l) == s.cnt && !rebuild)
            && (!Numbered(s, b, l) && Numbered(s', b, l) ==> b == s.pcs[i].b && l == s.pcs[i].l)
  {
    hide Inv, TooNear, TableSize, Distinct;
    SlotFacts(c, rebuild, s, i, b, l);
    Enabled(c, rebuild, s, i);
  }

  lemma WorkOtherSlot(c: Batch, rebuild: bool, s: State, i: nat, b: nat, l: nat)
    requires Inv(c, rebuild, s) && i < |s.pcs| && Holding(s.pcs[i]) && Slot(c.t, b, l) && s.keys[b][l] != EMPTY
             && s.who[b][l] != i
    ensures var s' := Step(c, rebuild, s, i);
            && Sized(c, s') && SlotOk(c, rebuild, s', b, l)
            && (Numbered(s, b, l) ==> Numbered(s', b, l) && NumberOf(s', b, l) == NumberOf(s, b, l))
            && (!Numbered(s, b, l) && Numbered(s', b, l) ==> NumberOf(s', b, l) == s.cnt && !rebuild)
            && (!Numbered(s, b, l) && Numbered(s', b, l) ==> b == s.pcs[i].b && l == s.pcs[i].l)
  {
    hide Inv, TooNear, TableSize;
    SlotFacts(c, rebuild, s, i, b, l);
    Enabled(c, rebuild, s, i);
  }

  lemma WorkSlot(c: Batch, rebuild: bool, s: State, i: nat, b: nat, l: nat)
    requires Inv(c, rebuild, s) && i < |s.pcs| && Holding(s.pcs[i]) && Slot(c.t, b, l) && s.keys[b][l] != EMPTY
    ensures var s' := Step(c, rebuild, s, i);
            && Sized(c, s') && SlotOk(c, rebuild, s', b, l)
            && (Numbered(s, b, l) ==> Numbered(s', b, l) && NumberOf(s', b, l) == NumberOf(s, b, l))
            && (!Numbered(s, b, l) && Numbered(s', b, l) ==> NumberOf(s', b, l) == s.cnt && !rebuild)
            && (!Numbered(s, b, l) && Numbered(s', b, l) ==> b == s.pcs[i].b && l == s.pcs[i].l)
  {
    hide TableOk, ThreadOk, SlotOk, Distinct, Jobs, Covered, Numbered, NumberOf, Step, Sum;
    if s.who[b][l] == i {
      WorkOwnSlot(c, rebuild, s, i, b, l);
    } else {
      WorkOtherSlot(c, rebuild, s, i, b, l);
    }
  }

  lemma ThreadFacts(c: Batch, rebuild: bool, s: State, i: nat, j: nat)
    requires Inv(c, rebuild, s) && i < |s.pcs| && Holding(s.pcs[i]) && j < |s.pcs|
    ensures Sized(c, s) && ThreadOk(c, s, j) && Stored(s.keys, c.jobs[i].key)
    ensures var (b0, l0) := (s.pcs[i].b, s.pcs[i].l);
            Slot(c.t, b0, l0) && s.keys[b0][l0] == c.jobs[i].key != EMPTY && s.who[b0][l0] == i
  {
    Held(c, rebuild, s, i);
    assert ThreadOk(c, s, j);
    assert c.jobs[i].key in s.keys[s.pcs[i].b];
    hide TableOk, Passed, Fill, Behind, SlotOk, Distinct, Jobs, ThreadOk;
  }

  lemma WorkThread(c: Batch, rebuild: bool, s: State, i: nat, j: nat)
    requires Inv(c, rebuild, s) && i < |s.pcs| && Holding(s.pcs[i]) && j < |s.pcs|
    ensures var s' := Step(c, rebuild, s, i);
            Sized(c, s') && ThreadOk(c, s', j)
  {
    hide Inv, TooNear, Stored, Passed, Behind, Placed;
    ThreadFacts(c, rebuild, s, i, j);
    Enabled(c, rebuild, s, i);
    var s' := Step(c, rebuild, s, i);
    if j == i && (s.pcs[i].Check? || s.pcs[i].Note?) {
      SlotFacts(c, rebuild, s, i, s.pcs[i].b, s.pcs[i].l);
      Leaves(c, s', i, s.pcs[i].no, s.pcs[i].b, s.pcs[i].l);
    } else if s.pcs[j].Return? && HasWon(s.pcs[j].r) {
      PlacedStays(c, s, s', j);
    }
  }

  lemma Leaves(c: Batch, s: State, i: nat, no: int, b: nat, l: nat)
    requires Sized(c, s) && i < |s.pcs| && PlacedAt(c, s, i, no, b, l)
    ensures Placed(c, s, i, no)
  {
  }

  lemma WorkKeeps(c: Batch, rebuild: bool, s: State, i: nat)
    requires Inv(c, rebuild, s) && i < |s.pcs| && Holding(s.pcs[i])
    ensures Inv(c, rebuild, Step(c, rebuild, s, i))
  {
    hide TableOk, Passed, Fill, Behind, SlotOk, ThreadOk, Stored, TooNear, Missing;
    var s' := Step(c, rebuild, s, i);
    Held(c, rebuild, s, i);
    WorkCount(c, rebuild, s, i);
    forall j: nat | j < |s.pcs|
      ensures ThreadOk(c, s', j)
    {
      WorkThread(c, rebuild, s, i, j);
    }
    forall b: nat, l: nat | Slot(c.t, b, l) && s.keys[b][l] != EMPTY
      ensures SlotOk(c, rebuild, s', b, l)
    {
      WorkSlot(c, rebuild, s, i, b, l);
    }
    forall b: nat, l: nat, b': nat, l': nat | Slot(c.t, b, l) && Slot(c.t, b', l')
      ensures Distinct(s', b, l, b', l')
    {
      WorkDistinct(c, rebuild, s, i, b, l, b', l');
    }
    forall n: nat | n < s'.cnt && !rebuild && n !in c.lost
      ensures Covered(c, s', n)
    {
      WorkCovered(c, rebuild, s, i, n);
    }
    if !rebuild {
      WorkMissing(c, s, i);
    }
  }

  lemma WorkMissing(c: Batch, s: State, i: nat)
    requires Inv(c, false, s) && i < |s.pcs| && Holding(s.pcs[i])
    ensures var s' := Step(c, false, s, i);
            Sized(c, s') && Missing(c.t, s'.keys, s'.active, s'.cnt, c.lost)
  {
    hide Inv, Distinct, Passed, TooNear, Missing;
    Held(c, false, s, i);
    SlotFacts(c, false, s, i, s.pcs[i].b, s.pcs[i].l);
    Enabled(c, false, s, i);
    MissingIs(c, s);
    var s' := Step(c, false, s, i);
    MissingStays(c.t, s.keys, s'.keys, s.active, s'.active, s.cnt, s'.cnt, c.lost);
  }

  lemma MissingIs(c: Batch, s: State)
    requires Inv(c, false, s)
    ensures Sized(c, s) && Missing(c.t, s.keys, s.active, s.cnt, c.lost)
  {
  }

  lemma WorkCovered(c: Batch, rebuild: bool, s: State, i: nat, n: nat)
    requires Inv(c, rebuild, s) && i < |s.pcs| && Holding(s.pcs[i]) && !rebuild && n < Step(c, rebuild, s, i).cnt
             && n !in c.lost
    ensures var s' := Step(c, rebuild, s, i);
            Sized(c, s') && Covered(c, s', n)
  {
    hide TableOk, ThreadOk, SlotOk, Distinct, Jobs, Passed, Behind, TooNear;
    var s' := Step(c, rebuild, s, i);
    Held(c, rebuild, s, i);
    WorkCount(c, rebuild, s, i);
    if n < s.cnt {
      assert Covered(c, s, n);
      hide Numbered, NumberOf, Covered, Step;
      forall b: nat, l: nat | Slot(c.t, b, l) && s.keys[b][l] != EMPTY && Numbered(s, b, l)
        ensures s'.keys[b][l] == s.keys[b][l] && Numbered(s', b, l) && NumberOf(s', b, l) == NumberOf(s, b, l)
      {
        WorkSlot(c, rebuild, s, i, b, l);
      }
      CoveredStays(c, s, s', n);
    } else {
      assert CoveredAt(c, s', n, s.pcs[i].b, s.pcs[i].l);
    }
  }

  lemma PairFacts(c: Batch, rebuild: bool, s: State, b: nat, l: nat, b': nat, l': nat)
    requires Inv(c, rebuild, s) && Slot(c.t, b, l) && Slot(c.t, b', l')
    ensures Sized(c, s) && Distinct(s, b, l, b', l')
    ensures s.keys[b][l] != EMPTY ==> SlotOk(c, rebuild, s, b, l)
    ensures s.keys[b'][l'] != EMPTY ==> SlotOk(c, rebuild, s, b', l')
  {
  }

  lemma WorkDistinct(c: Batch, rebuild: bool, s: State, i: nat, b: nat, l: nat, b': nat, l': nat)
    requires Inv(c, rebuild, s) && i < |s.pcs| && Holding(s.pcs[i]) && Slot(c.t, b, l) && Slot(c.t, b', l')
    ensures var s' := Step(c, rebuild, s, i);
            Sized(c, s') && Distinct(s', b, l, b', l')
  {
    hide Inv, SlotOk, NumberOf, Numbered, TooNear;
    PairFacts(c, rebuild, s, b, l, b', l');
    WorkCount(c, rebuild, s, i);
    if s.keys[b][l] != EMPTY && s.keys[b'][l'] != EMPTY {
      WorkSlot(c, rebuild, s, i, b, l);
      WorkSlot(c, rebuild, s, i, b', l');
      hide Step, Sized;
      Numbers(c, rebuild, s, b, l);
      Numbers(c, rebuild, s, b', l');
    }
  }

  lemma Numbers(c: Batch, rebuild: bool, s: State, b: nat, l: nat)
    requires Sized(c, s) && Slot(c.t, b, l) && SlotOk(c, rebuild, s, b, l)
    ensures !rebuild && Numbered(s, b, l) ==> NumberOf(s, b, l) < s.cnt
  {
  }

  lemma WorkCount(c: Batch, rebuild: bool, s: State, i: nat)
    requires Inv(c, rebuild, s) && i < |s.pcs| && Holding(s.pcs[i])
    ensures var s' := Step(c, rebuild, s, i);
            && s'.cnt >= 0 && s'.keys == s.keys && Sized(c, s') && Jobs(c, rebuild, s'.active)
            && (!rebuild ==> s'.cnt + Sum(Fetching(s'.pcs)) == Sum(Fills(s'.keys)) + |c.lost|)
            && (rebuild ==> Sum(Placing(s'.pcs)) == Sum(Fills(s'.keys)))
            && Balanced(s, s')
  {
    hide TableOk, Passed, Fill, Behind, ThreadOk, Stored, TooNear, Distinct;
    Held(c, rebuild, s, i);
    Enabled(c, rebuild, s, i);
    hide SlotOk;
    var s' := Step(c, rebuild, s, i);
    OtherFetching(s.pcs, i, s'.pcs[i]);
    SamePlacing(s.pcs, i, s'.pcs[i]);
  }

  lemma StepKeepsInv(c: Batch, rebuild: bool, s: State, i: nat)
    requires Inv(c, rebuild, s) && i < |s.pcs|
    ensures Inv(c, rebuild, Step(c, rebuild, s, i))
  {
    hide TableOk, Distinct, SlotOk, ThreadOk, Jobs, Sized;
    match s.pcs[i]
    case Scan(_, _) => ScanKeeps(c, rebuild, s, i);
    case Cas(_, _) => CasKeeps(c, rebuild, s, i);
    case Return(_) =>
    case _ => WorkKeeps(c, rebuild, s, i);
  }

  // Progress.

  /** Slots that a thread may still look at. */
  function Ahead(c: Config, iter: nat, load: nat): nat
  {
    (if iter == 0 then 3 * c.B else if iter == 1 then 2 * c.B else c.B) + if load < c.B then c.B - load else 0
  }

  /** What a thread has before it at most. A swap that fails finds its slot taken when it looks
      again. */
  function Rank(c: Batch, keys: seq<seq<int>>, pc: Pc, key: int): nat
  {
    match pc
    case Scan(iter, load) => 4 * Ahead(c.t, iter, load) + if OpenAt(c.t, keys, key, iter, load) then 7 else 5
    case Cas(iter, load) => 4 * Ahead(c.t, iter, load) + 6
    case Fetch(_, _) => 4
    case Record(_, _, _) => 3
    case Note(_, _, _) => 2
    case Check(_, _, _) => 1
    case Return(_) => 0
  }

  predicate OpenAt(c: Config, keys: seq<seq<int>>, key: int, iter: nat, load: nat)
  {
    c.nb > 0 && var b := Bucket(c, key, iter); b < |keys| && load < |keys[b]| && keys[b][load] == EMPTY
  }

  function RankOf(c: Batch, s: State, i: nat): nat
  {
    if i < |s.pcs| && i < |c.jobs| then Rank(c, s.keys, s.pcs[i], c.jobs[i].key) else 0
  }

  function Ranks(c: Batch, s: State): (w: seq<nat>)
  {
    seq(|s.pcs|, i requires 0 <= i < |s.pcs| => RankOf(c, s, i))
  }

  lemma OwnRank(c: Batch, rebuild: bool, s: State, i: nat)
    requires Inv(c, rebuild, s) && i < |s.pcs| && !s.pcs[i].Return?
    ensures RankOf(c, Step(c, rebuild, s, i), i) < RankOf(c, s, i)
  {
    hide Inv, Passed, Behind, TooNear, Stored, Placed, Bucket;
    ThreadIs(c, rebuild, s, i);
    Enabled(c, rebuild, s, i);
  }

  lemma OtherRank(c: Batch, rebuild: bool, s: State, i: nat, j: nat)
    requires Inv(c, rebuild, s) && i < |s.pcs| && j < |s.pcs| && j != i
    ensures RankOf(c, Step(c, rebuild, s, i), j) <= RankOf(c, s, j)
  {
    hide Inv, Passed, Behind, TooNear, Stored, Placed, Bucket, Ahead, ThreadOk;
    ThreadIs(c, rebuild, s, i);
    Enabled(c, rebuild, s, i);
  }

  /** Every step of a thread that has not returned brings the batch nearer to its end: swaps that
      fail do so because others succeed. */
  lemma StepProgress(c: Batch, rebuild: bool, s: State, i: nat)
    requires Inv(c, rebuild, s) && i < |s.pcs| && !s.pcs[i].Return?
    ensures Sum(Ranks(c, Step(c, rebuild, s, i))) < Sum(Ranks(c, s))
  {
    hide RankOf, Sum, ThreadOk, TableOk, Jobs, SlotOk, Distinct, Step, Covered, Missing;
    var s' := Step(c, rebuild, s, i);
    StepGrows(c, rebuild, s, i);
    var (v, w) := (Ranks(c, s), Ranks(c, s'));
    OwnRank(c, rebuild, s, i);
    forall j: nat | j < |w|
      ensures w[j] <= v[i := w[i]][j]
    {
      if j != i {
        OtherRank(c, rebuild, s, i, j);
      }
    }
    SumOrder(w, v[i := w[i]]);
    SumUpdate(v, i, w[i]);
  }

  // Whole runs.

  /** A table at rest: every stored key has its own number below the counter, and the key is
      noted under that number. */
  ghost predicate Settled(c: Config, keys: seq<seq<int>>, indices: seq<seq<int>>, active: seq<int>, cnt: int)
  {
    && c.nb > 0 && c.B >= 3 && Grid(c, keys) && Grid(c, indices) && |active| == TableSize(c) && TableOk(c, keys)
    && cnt == Sum(Fills(keys))
    && (forall b: nat, l: nat :: Slot(c, b, l) && keys[b][l] != EMPTY ==>
          0 <= indices[b][l] < cnt && indices[b][l] < |active| && active[indices[b][l]] == keys[b][l])
    && (forall b: nat, l: nat, b': nat, l': nat :: Slot(c, b, l) && Slot(c, b', l') ==>
        Apart(keys, indices, b, l, b', l'))
    && (forall n: nat :: n < cnt ==> Used(c, keys, indices, n))
  }

  /** The same for a table that has lost some of its listed keys to a rebuild, or whose numbers have
      gone past the end of the list. */
  ghost predicate Partial(c: Config, keys: seq<seq<int>>, indices: seq<seq<int>>, active: seq<int>, cnt: int,
      lost: set<nat>)
  {
    && c.nb > 0 && c.B >= 3 && Grid(c, keys) && Grid(c, indices) && |active| == TableSize(c) && TableOk(c, keys)
    && cnt == Sum(Fills(keys)) + |lost| && Missing(c, keys, active, cnt, lost)
    && (forall b: nat, l: nat :: Slot(c, b, l) && keys[b][l] != EMPTY ==>
          0 <= indices[b][l] < cnt && indices[b][l] !in lost && Listed(active, indices[b][l], keys[b][l]))
    && (forall b: nat, l: nat, b': nat, l': nat :: Slot(c, b, l) && Slot(c, b', l') ==>
        Apart(keys, indices, b, l, b', l'))
    && (forall n: nat :: n < cnt ==> n in lost || Used(c, keys, indices, n))
  }

  /** A table at rest has lost nothing. */
  lemma SettledPartial(c: Config, keys: seq<seq<int>>, indices: seq<seq<int>>, active: seq<int>, cnt: int)
    ensures Settled(c, keys, indices, active, cnt) <==> Partial(c, keys, indices, active, cnt, {})
  {
    hide TableOk, Apart, Used;
    if Grid(c, keys) && c.nb > 0 && c.B >= 3 && TableOk(c, keys) {
      FillBound(c, keys);
    }
  }

  ghost predicate Used(c: Config, keys: seq<seq<int>>, indices: seq<seq<int>>, n: nat)
    requires Grid(c, keys) && Grid(c, indices)
  {
    exists b: nat, l: nat :: UsedAt(c, keys, indices, n, b, l)
  }

  ghost predicate UsedAt(c: Config, keys: seq<seq<int>>, indices: seq<seq<int>>, n: nat, b: nat, l: nat)
    requires Grid(c, keys) && Grid(c, indices)
  {
    Slot(c, b, l) && keys[b][l] != EMPTY && indices[b][l] == n
  }

  ghost predicate Apart(keys: seq<seq<int>>, indices: seq<seq<int>>, b: nat, l: nat, b': nat, l': nat)
    requires b < |keys| == |indices| && l < |keys[b]| == |indices[b]| && b' < |keys| && l' < |keys[b']| == |indices[b']|
  {
    (b != b' || l != l') && keys[b][l] != EMPTY && keys[b'][l'] != EMPTY ==> indices[b][l] != indices[b'][l']
  }

  ghost predicate Cleared(keys: seq<seq<int>>)
  {
    forall b :: 0 <= b < |keys| ==> forall l :: 0 <= l < |keys[b]| ==> keys[b][l] == EMPTY
  }

  /** The start of a batch: on a table at rest, but for lost keys, or on a cleared one for a rebuild. */
  ghost predicate Begun(c: Batch, rebuild: bool, s: State)
  {
    && Sized(c, s) && Jobs(c, rebuild, s.active) && s.cnt >= 0
    && (forall i :: 0 <= i < |s.pcs| ==> s.pcs[i] == Scan(0, 0))
    && (forall b, l :: Slot(c.t, b, l) ==> s.who[b][l] == -1)
    && if rebuild then Cleared(s.keys) else Partial(c.t, s.keys, s.indices, s.active, s.cnt, c.lost)
  }

  lemma ClearedOk(c: Config, keys: seq<seq<int>>)
    requires c.nb > 0 && c.B >= 3 && Grid(c, keys) && Cleared(keys)
    ensures TableOk(c, keys) && Sum(Fills(keys)) == 0
  {
    forall b | 0 <= b < c.nb
      ensures Prefix(c, keys[b]) && Fill(keys[b]) == 0
    {
    }
    SumZero(Fills(keys));
  }

  lemma BegunInv(c: Batch, rebuild: bool, s: State)
    requires Begun(c, rebuild, s)
    ensures Inv(c, rebuild, s)
  {
    hide Fill, Homed, Prefix, Jobs;
    SumZero(Fetching(s.pcs));
    SumZero(Placing(s.pcs));
    if rebuild {
      ClearedOk(c.t, s.keys);
    }
    hide TableOk;
    forall b: nat, l: nat, b': nat, l': nat | Slot(c.t, b, l) && Slot(c.t, b', l')
      ensures Distinct(s, b, l, b', l')
    {
      assert !rebuild ==> Apart(s.keys, s.indices, b, l, b', l');
    }
    forall n: nat | n < s.cnt && !rebuild && n !in c.lost
      ensures Covered(c, s, n)
    {
      assert Used(c.t, s.keys, s.indices, n);
      var b: nat, l: nat :| UsedAt(c.t, s.keys, s.indices, n, b, l);
      assert CoveredAt(c, s, n, b, l);
    }
  }

  /** What a step never undoes: a key stays in its slot with its number, a failure stays noted. */
  ghost predicate Grew(c: Batch, s: State, r: State)
  {
    && Sized(c, s) && Sized(c, r) && (r.success ==> s.success)
    && (forall b: nat, l: nat :: Slot(c.t, b, l) && s.keys[b][l] != EMPTY ==>
          r.keys[b][l] == s.keys[b][l] && r.who[b][l] == s.who[b][l]
              && (s.who[b][l] == -1 ==> r.indices[b][l] == s.indices[b][l]))
    && forall b: nat, l: nat :: Slot(c.t, b, l) && s.keys[b][l] == EMPTY && r.keys[b][l] != EMPTY ==> r.who[b][l] >= 0
  }

  lemma ScanGrows(c: Batch, rebuild: bool, s: State, i: nat)
    requires Inv(c, rebuild, s) && i < |s.pcs| && (s.pcs[i].Scan? || s.pcs[i].Return?)
    ensures Grew(c, s, Step(c, rebuild, s, i))
  {
    hide Inv, ThreadOk, Bucket, TableSize;
    ThreadIs(c, rebuild, s, i);
    Enabled(c, rebuild, s, i);
  }

  lemma CasGrows(c: Batch, rebuild: bool, s: State, i: nat)
    requires Inv(c, rebuild, s) && i < |s.pcs| && s.pcs[i].Cas?
    ensures Grew(c, s, Step(c, rebuild, s, i))
  {
    hide Inv, ThreadOk, Bucket, TableSize;
    ThreadIs(c, rebuild, s, i);
    Enabled(c, rebuild, s, i);
  }

  lemma WorkGrows(c: Batch, rebuild: bool, s: State, i: nat)
    requires Inv(c, rebuild, s) && i < |s.pcs| && Holding(s.pcs[i])
    ensures Grew(c, s, Step(c, rebuild, s, i))
  {
    hide Inv, ThreadOk, SlotOk, TooNear, TableSize;
    Held(c, rebuild, s, i);
    ThreadIs(c, rebuild, s, i);
    Enabled(c, rebuild, s, i);
  }

  lemma StepGrows(c: Batch, rebuild: bool, s: State, i: nat)
    requires Inv(c, rebuild, s) && i < |s.pcs|
    ensures Grew(c, s, Step(c, rebuild, s, i))
  {
    hide Inv, Step, Grew;
    if Holding(s.pcs[i]) {
      WorkGrows(c, rebuild, s, i);
    } else if s.pcs[i].Cas? {
      CasGrows(c, rebuild, s, i);
    } else {
      ScanGrows(c, rebuild, s, i);
    }
  }

  /** The list names the lost keys as before; a rebuild leaves list and counter alone; every thread
      that has placed its key has filled a slot. */
  ghost predicate Kept(c: Batch, rebuild: bool, s: State, r: State)
  {
    && |r.active| == |s.active| && (forall n :: n in c.lost && n < |s.active| && !rebuild ==>
        r.active[n] == s.active[n])
    && (rebuild ==> r.cnt == s.cnt && r.active == s.active)
    && Balanced(s, r)
  }

  /** The results that clear the success flag. */
  predicate Warned(pc: Pc)
  {
    pc.Return? && (pc.r.Full? || pc.r.Near?)
  }

  ghost predicate Silent(s: State)
  {
    forall i :: 0 <= i < |s.pcs| ==> !Warned(s.pcs[i])
  }

  /** The success flag is cleared by a thread that says so. */
  ghost predicate Told(s: State, r: State)
  {
    Silent(r) ==> Silent(s) && (s.success ==> r.success)
  }

  /** A step clears the flag exactly if it ends an insertion with such a result. */
  lemma StepFlag(c: Batch, rebuild: bool, s: State, i: nat)
    requires Inv(c, rebuild, s) && i < |s.pcs|
    ensures var s' := Step(c, rebuild, s, i);
            && |s'.pcs| == |s.pcs| && (forall j :: 0 <= j < |s.pcs| && j != i ==> s'.pcs[j] == s.pcs[j])
            && (s.pcs[i].Return? ==> s' == s)
            && (!s.pcs[i].Return? ==> (s'.success <==> s.success && !Warned(s'.pcs[i])))
  {
    hide Inv, ThreadOk, TooNear, Bucket, TableSize;
    ThreadIs(c, rebuild, s, i);
    Enabled(c, rebuild, s, i);
  }

  lemma StepTold(c: Batch, rebuild: bool, s: State, i: nat)
    requires Inv(c, rebuild, s) && i < |s.pcs|
    ensures Told(s, Step(c, rebuild, s, i))
  {
    hide Inv, Step;
    StepFlag(c, rebuild, s, i);
    var s' := Step(c, rebuild, s, i);
    forall j | 0 <= j < |s.pcs| && Silent(s')
      ensures !Warned(s.pcs[j])
    {
      assert !Warned(s'.pcs[j]);
    }
  }

  lemma LookBalanced(c: Batch, s: State, i: nat, pc: Pc, success: bool)
    requires i < |s.pcs| && HasPlaced(s.pcs[i]) == HasPlaced(pc)
    ensures Balanced(s, s.(pcs := s.pcs[i := pc], success := success))
  {
    SamePlacing(s.pcs, i, pc);
  }

  lemma StepBalanced(c: Batch, rebuild: bool, s: State, i: nat)
    requires Inv(c, rebuild, s) && i < |s.pcs|
    ensures Balanced(s, Step(c, rebuild, s, i))
  {
    hide Inv, ThreadOk, Balanced, Free, TooNear, Bucket;
    ThreadIs(c, rebuild, s, i);
    Enabled(c, rebuild, s, i);
    var s' := Step(c, rebuild, s, i);
    if Holding(s.pcs[i]) {
      WorkCount(c, rebuild, s, i);
    } else if s.pcs[i].Cas? {
      CasFree(c, rebuild, s, i);
      if s.keys[Bucket(c.t, c.jobs[i].key, s.pcs[i].iter)][s.pcs[i].load] == EMPTY {
        CasCount(c, rebuild, s, i);
      } else {
        LookBalanced(c, s, i, s'.pcs[i], s'.success);
      }
    } else {
      LookBalanced(c, s, i, s'.pcs[i], s'.success);
      assert s' == s.(pcs := s.pcs[i := s'.pcs[i]], success := s'.success);
    }
  }

  lemma StepKept(c: Batch, rebuild: bool, s: State, i: nat)
    requires Inv(c, rebuild, s) && i < |s.pcs|
    ensures Kept(c, rebuild, s, Step(c, rebuild, s, i))
  {
    hide Inv, ThreadOk, TooNear, Stored, Passed, Behind, Placed, Distinct, Bucket, Missing, Balanced;
    ThreadIs(c, rebuild, s, i);
    Enabled(c, rebuild, s, i);
    StepBalanced(c, rebuild, s, i);
    if Holding(s.pcs[i]) {
      Held(c, rebuild, s, i);
      SlotFacts(c, rebuild, s, i, s.pcs[i].b, s.pcs[i].l);
    }
  }

  /** Any interleaving: the threads named by `schedule`, one step each. */
  ghost function Run(c: Batch, rebuild: bool, s: State, schedule: seq<nat>): (r: State)
    requires Inv(c, rebuild, s) && forall k :: 0 <= k < |schedule| ==> schedule[k] < |c.jobs|
    ensures Inv(c, rebuild, r) && Grew(c, s, r) && Kept(c, rebuild, s, r)
    decreases |schedule|
  {
    if schedule == [] then s
    else
      StepKeepsInv(c, rebuild, s, schedule[0]);
      StepKept(c, rebuild, s, schedule[0]);
      StepGrows(c, rebuild, s, schedule[0]);
      Run(c, rebuild, Step(c, rebuild, s, schedule[0]), schedule[1..])
  }

  lemma {:induction false} RunTold(c: Batch, rebuild: bool, s: State, schedule: seq<nat>)
    requires Inv(c, rebuild, s) && forall k :: 0 <= k < |schedule| ==> schedule[k] < |c.jobs|
    ensures Told(s, Run(c, rebuild, s, schedule))
    decreases |schedule|
  {
    hide Step, Grew, Kept, Silent, Jobs, TableOk, SlotOk, ThreadOk, Distinct, Missing, Covered;
    if schedule != [] {
      StepKeepsInv(c, rebuild, s, schedule[0]);
      StepTold(c, rebuild, s, schedule[0]);
      RunTold(c, rebuild, Step(c, rebuild, s, schedule[0]), schedule[1..]);
    }
  }

  ghost predicate Finished(s: State)
  {
    forall i :: 0 <= i < |s.pcs| ==> s.pcs[i].Return?
  }

  /** After a batch the table is at rest again. */
  lemma BatchSettles(c: Batch, r: State)
    requires Inv(c, false, r) && Finished(r)
    ensures Partial(c.t, r.keys, r.indices, r.active, r.cnt, c.lost)
  {
    hide TableOk, ThreadOk, Jobs, Missing;
    SumZero(Fetching(r.pcs));
    forall b: nat, l: nat | Slot(c.t, b, l) && r.keys[b][l] != EMPTY
      ensures Numbered(r, b, l) && NumberOf(r, b, l) == r.indices[b][l] && SlotOk(c, false, r, b, l)
    {
      assert SlotOk(c, false, r, b, l);
    }
    forall b: nat, l: nat, b': nat, l': nat | Slot(c.t, b, l) && Slot(c.t, b', l')
      ensures Apart(r.keys, r.indices, b, l, b', l')
    {
      assert Distinct(r, b, l, b', l');
    }
    forall n: nat | n < r.cnt && n !in c.lost
      ensures Used(c.t, r.keys, r.indices, n)
    {
      assert Covered(c, r, n);
      var b: nat, l: nat :| CoveredAt(c, r, n, b, l);
      assert UsedAt(c.t, r.keys, r.indices, n, b, l);
    }
  }

  // The numbers of a batch.

  /** The keys of a batch that can find a slot: those that are not there and have a bucket left. */
  ghost function NewKeys(c: Batch, s: State): (keys: set<int>)
    requires Sized(c, s)
  {
    set i | 0 <= i < |c.jobs| && !Stored(s.keys, c.jobs[i].key) && !Passed(c.t, s.keys, c.jobs[i].key, 3) ::
      c.jobs[i].key
  }

  lemma StaysPassed(c: Batch, s: State, r: State, key: int)
    requires Sized(c, s) && Sized(c, r) && Grew(c, s, r) && TableOk(c.t, r.keys) && key != EMPTY
             && Passed(c.t, s.keys, key, 3)
    ensures !Stored(r.keys, key)
  {
    hide Homed, Fill;
    forall j: nat | j < 3
      ensures FullRow(c.t, r.keys[Bucket(c.t, key, j)]) && key !in r.keys[Bucket(c.t, key, j)]
    {
      assert Prefix(c.t, r.keys[Bucket(c.t, key, j)]);
      assert FullRow(c.t, s.keys[Bucket(c.t, key, j)]);
    }
    PassedAll(c.t, r.keys, key);
  }

  lemma PlacedNew(c: Batch, s: State, r: State, i: nat)
    requires Begun(c, false, s) && Inv(c, false, r) && Grew(c, s, r) && Finished(r) && i < |r.pcs| && HasWon(r.pcs[i].r)
    ensures Sized(c, s) && c.jobs[i].key in NewKeys(c, s)
  {
    hide Homed, Fill, Missing, Distinct, SlotOk, Jobs, Partial;
    var key := c.jobs[i].key;
    ThreadIs(c, false, r, i);
    StoredIffRoom(c, false, r, i);
    if Passed(c.t, s.keys, key, 3) {
      StaysPassed(c, s, r, key);
    }
    forall b: nat, l: nat | Slot(c.t, b, l) && s.keys[b][l] != EMPTY
      ensures s.keys[b][l] != key
    {
      OldKey(c, s, r, i, b, l);
    }
  }

  /** A key that was there before has not been placed by a thread. */
  lemma OldKey(c: Batch, s: State, r: State, i: nat, b: nat, l: nat)
    requires Begun(c, false, s) && Inv(c, false, r) && Grew(c, s, r) && Finished(r) && i < |r.pcs| && HasWon(r.pcs[i].r)
    requires Sized(c, s) && Slot(c.t, b, l) && s.keys[b][l] != EMPTY
    ensures s.keys[b][l] != c.jobs[i].key
  {
    hide Homed, Fill, Missing, Distinct, SlotOk, Jobs, Partial;
    ThreadIs(c, false, r, i);
    var d: nat, m: nat :| PlacedAt(c, r, i, r.pcs[i].r.no, d, m);
    assert r.keys[b][l] == s.keys[b][l] && r.who[b][l] == -1;
  }

  lemma {:induction false} AtMostKeys(pcs: seq<Pc>, jobs: seq<Job>, keys: set<int>)
    requires |pcs| == |jobs| && forall i :: 0 <= i < |pcs| && HasPlaced(pcs[i]) ==> jobs[i].key in keys
    requires forall i, j :: 0 <= i < j < |pcs| && HasPlaced(pcs[i]) && HasPlaced(pcs[j]) ==> jobs[i].key != jobs[j].key
    ensures Sum(Placing(pcs)) <= |keys|
  {
    hide HasPlaced;
    if pcs == [] {
      assert Placing(pcs) == [];
    } else {
      var n := |pcs| - 1;
      var p := pcs[..n];
      assert Placing(pcs) == Placing(p) + [if HasPlaced(pcs[n]) then 1 else 0];
      SumSnoc(Placing(p), if HasPlaced(pcs[n]) then 1 else 0);
      AtMostKeys(p, jobs[..n], if HasPlaced(pcs[n]) then keys - {jobs[n].key} else keys);
    }
  }

  lemma FewPlaced(c: Batch, s: State, r: State)
    requires Begun(c, false, s) && Inv(c, false, r) && Grew(c, s, r) && Finished(r)
    ensures Sized(c, s) && Sum(Placing(r.pcs)) <= |NewKeys(c, s)|
  {
    hide Inv, Begun, Grew, HasWon, NewKeys;
    BothSized(c, s, r);
    forall i: nat | i < |r.pcs| && HasWon(r.pcs[i].r)
      ensures c.jobs[i].key in NewKeys(c, s)
    {
      PlacedNew(c, s, r, i);
    }
    forall i: nat, j: nat | i < j < |r.pcs| && HasWon(r.pcs[i].r) && HasWon(r.pcs[j].r)
      ensures c.jobs[i].key != c.jobs[j].key
    {
      if c.jobs[i].key == c.jobs[j].key {
        OneWinner(c, false, r, i, j);
      }
    }
    AtMostKeys(r.pcs, c.jobs, NewKeys(c, s));
  }

  /** A number past the list has been given to the key of a thread. */
  lemma PastList(c: Batch, s: State, r: State)
    requires Begun(c, false, s) && Inv(c, false, r) && Grew(c, s, r) && Finished(r)
    requires s.cnt <= |s.active| == |r.active| < r.cnt
    ensures Overran(r)
  {
    hide Homed, Fill, TableOk, Distinct, Passed, Jobs, ThreadOk, SlotOk, Begun, Grew;
    var n := |r.active|;
    LostListed(c, r);
    assert Covered(c, r, n);
    var b: nat, l: nat :| CoveredAt(c, r, n, b, l);
    PastSlot(c, s, r, b, l);
  }

  lemma LostListed(c: Batch, r: State)
    requires Inv(c, false, r)
    ensures forall n :: n in c.lost ==> n < |r.active|
  {
    assert forall n :: n in c.lost ==> Misses(c.t, r.keys, r.active, r.cnt, n);
  }

  lemma PastSlot(c: Batch, s: State, r: State, b: nat, l: nat)
    requires Begun(c, false, s) && Inv(c, false, r) && Grew(c, s, r) && Finished(r) && s.cnt <= |r.active|
    requires Slot(c.t, b, l) && r.keys[b][l] != EMPTY && Numbered(r, b, l) && NumberOf(r, b, l) >= |r.active|
    ensures 0 <= r.who[b][l] && OverranAt(r, r.who[b][l])
  {
    hide Homed, Fill, TableOk, Distinct, Passed, Jobs, ThreadOk;
    assert SlotOk(c, false, r, b, l);
  }

  /** Whatever the interleaving, when a batch is through the counter has gone up by the insertions
      that placed their keys, one for each of some keys that could find a slot; and some insertion has
      written past the end of the list exactly if the counter has passed it. So none has if the list has
      an entry for each key that can find a slot, or if no more keys are lost than there are
      buckets. */
  lemma BatchFits(c: Batch, s: State, schedule: seq<nat>)
    requires Begun(c, false, s) && forall k :: 0 <= k < |schedule| ==> schedule[k] < |c.jobs|
    ensures Inv(c, false, s)
    ensures var r := Run(c, false, s, schedule);
            Finished(r) ==>
              && Sized(c, s) && r.cnt == s.cnt + Sum(Placing(r.pcs)) && Sum(Placing(r.pcs)) <= |NewKeys(c, s)|
              && (s.cnt <= |s.active| ==> (Overran(r) <==> r.cnt > |r.active|))
              && (s.cnt + |NewKeys(c, s)| <= |s.active| || |c.lost| <= c.t.nb ==> !Overran(r))
  {
    hide Begun, Inv, Run, Finished, Grew, Kept, NewKeys;
    BegunInv(c, false, s);
    var r := Run(c, false, s, schedule);
    if Finished(r) {
      FewPlaced(c, s, r);
      CountGrows(c, s, r);
      CounterBound(c, r);
      if i: nat :| OverranAt(r, i) {
        OverrunDrawn(c, r, i);
      } else if s.cnt <= |s.active| && r.cnt > |r.active| {
        PastList(c, s, r);
      }
    }
  }

  lemma CountGrows(c: Batch, s: State, r: State)
    requires Begun(c, false, s) && Inv(c, false, r) && Kept(c, false, s, r) && Finished(r)
    ensures r.cnt == s.cnt + Sum(Placing(r.pcs)) && |r.active| == |s.active|
  {
    hide TableOk, Distinct, SlotOk, ThreadOk, Jobs, Missing, Sum, Fills;
    SumZero(Fetching(r.pcs));
    SumZero(Placing(s.pcs));
  }

  /** Two insertions of one key cannot both have placed it. */
  lemma OnePlaces(c: Batch, r: State, i: nat, j: nat, no: int, no': int)
    requires Sized(c, r) && TableOk(c.t, r.keys) && i < |r.pcs| && j < |r.pcs| && c.jobs[i].key == c.jobs[j].key
    requires Placed(c, r, i, no) && Placed(c, r, j, no')
    ensures i == j
  {
    hide Prefix, Homed, Fill;
    var b: nat, l: nat :| PlacedAt(c, r, i, no, b, l);
    var b': nat, l': nat :| PlacedAt(c, r, j, no', b', l');
    assert r.keys[b][l] == r.keys[b'][l'] != EMPTY;
  }

  /** For two insertions of one key: at most one wins, and they agree on whether there was room. */
  lemma OneWinner(c: Batch, rebuild: bool, r: State, i: nat, j: nat)
    requires Inv(c, rebuild, r) && Finished(r) && i < |r.pcs| && j < |r.pcs| && c.jobs[i].key == c.jobs[j].key
    ensures HasWon(r.pcs[i].r) && HasWon(r.pcs[j].r) ==> i == j
    ensures r.pcs[i].r.Full? <==> r.pcs[j].r.Full?
  {
    JobOutcome(c, rebuild, r, i);
    JobOutcome(c, rebuild, r, j);
    hide SlotOk, Distinct, Jobs, Placed, ThreadOk, TableOk, Stored;
    if HasWon(r.pcs[i].r) && HasWon(r.pcs[j].r) {
      OnePlaces(c, r, i, j, r.pcs[i].r.no, r.pcs[j].r.no);
    }
  }

  /** An insertion fails for lack of room exactly when the key is not in the table at the end. */
  lemma StoredIffRoom(c: Batch, rebuild: bool, r: State, i: nat)
    requires Inv(c, rebuild, r) && Finished(r) && i < |r.pcs|
    ensures r.pcs[i].r.Full? <==> !Stored(r.keys, c.jobs[i].key)
  {
    hide SlotOk, Distinct, Jobs, Fill, TableOk;
    ThreadIs(c, rebuild, r, i);
    var key := c.jobs[i].key;
    if r.pcs[i].r.Full? {
      PassedAll(c.t, r.keys, key);
    } else if HasWon(r.pcs[i].r) {
      var b: nat, l: nat :| PlacedAt(c, r, i, r.pcs[i].r.no, b, l);
      assert r.keys[b][l] in r.keys[b];
    }
  }

  lemma PassedAll(c: Config, keys: seq<seq<int>>, key: int)
    requires c.nb > 0 && Grid(c, keys) && TableOk(c, keys) && key != EMPTY && Passed(c, keys, key, 3)
    ensures !Stored(keys, key)
  {
    hide Fill, Prefix;
    forall b: nat, l: nat | Slot(c, b, l)
      ensures keys[b][l] != key
    {
      assert keys[b][l] != EMPTY ==> Homed(c, keys, b, l);
    }
  }

  /** After a batch the success flag is set exactly if it was set before and no insertion returned
      that its buckets are full or that its number lies near the end of the table. */
  lemma FlagIff(c: Batch, rebuild: bool, s: State, schedule: seq<nat>)
    requires Begun(c, rebuild, s) && Inv(c, rebuild, s)
    requires forall k :: 0 <= k < |schedule| ==> schedule[k] < |c.jobs|
    ensures var r := Run(c, rebuild, s, schedule);
            Finished(r) ==> (r.success <==> s.success && Silent(r))
  {
    hide Begun, Inv, Run, Kept, ThreadOk;
    RunTold(c, rebuild, s, schedule);
    var r := Run(c, rebuild, s, schedule);
    if i :| 0 <= i < |r.pcs| && Warned(r.pcs[i]) {
      WarnedCleared(c, rebuild, r, i);
    }
  }

  // Which numbers a batch draws.

  lemma BegunSlot(c: Batch, s: State, b: nat, l: nat)
    requires Begun(c, false, s) && Inv(c, false, s) && Slot(c.t, b, l) && s.keys[b][l] != EMPTY
    ensures Sized(c, s) && s.who[b][l] == -1 && s.indices[b][l] < s.cnt
  {
    hide TableOk, Distinct, ThreadOk, Jobs, Missing, Covered, Partial;
    assert SlotOk(c, false, s, b, l);
  }

  /** An insertion that places its key draws a number of the batch. */
  lemma DrawsNew(c: Batch, s: State, r: State, i: nat)
    requires Begun(c, false, s) && Inv(c, false, s) && Inv(c, false, r) && Grew(c, s, r) && Finished(r)
    requires i < |r.pcs| && HasWon(r.pcs[i].r)
    ensures 0 <= s.cnt <= r.pcs[i].r.no < r.cnt
  {
    hide Begun, Inv;
    BothSized(c, s, r);
    ThreadIs(c, false, s, i);
    ThreadIs(c, false, r, i);
    hide ThreadOk, Grew;
    var no := r.pcs[i].r.no;
    var b: nat, l: nat :| PlacedAt(c, r, i, no, b, l);
    PlacedNumber(c, s, r, i, no, b, l);
    if no < s.cnt {
      var d, m := NumberedBefore(c, s, no);
      BegunSlot(c, s, d, m);
      StaysThere(c, s, r, d, m);
      PairFacts(c, false, r, b, l, d, m);
    }
  }

  lemma PlacedNumber(c: Batch, s: State, r: State, i: nat, no: int, b: nat, l: nat)
    requires Begun(c, false, s) && Inv(c, false, s) && Inv(c, false, r) && Grew(c, s, r) && Finished(r) && Sized(c, s)
    requires i < |r.pcs| && Sized(c, r) && PlacedAt(c, r, i, no, b, l)
    ensures s.keys[b][l] == EMPTY && 0 <= no < r.cnt && no !in c.lost && Numbered(r, b, l) && NumberOf(r, b, l) == no
  {
    hide Begun, Inv;
    PairFacts(c, false, r, b, l, b, l);
    if s.keys[b][l] != EMPTY {
      BegunSlot(c, s, b, l);
      StaysThere(c, s, r, b, l);
    }
  }

  lemma StaysThere(c: Batch, s: State, r: State, b: nat, l: nat)
    requires Grew(c, s, r) && Sized(c, s) && Sized(c, r) && Slot(c.t, b, l) && s.keys[b][l] != EMPTY
             && s.who[b][l] == -1
    ensures r.keys[b][l] == s.keys[b][l] && r.who[b][l] == -1 && r.indices[b][l] == s.indices[b][l]
    ensures Numbered(r, b, l) && NumberOf(r, b, l) == s.indices[b][l]
  {
  }

  lemma NumberedBefore(c: Batch, s: State, n: nat) returns (b: nat, l: nat)
    requires Begun(c, false, s) && Inv(c, false, s) && n < s.cnt && n !in c.lost
    ensures Sized(c, s) && Slot(c.t, b, l) && s.keys[b][l] != EMPTY && s.indices[b][l] == n
  {
    hide TableOk, Distinct, SlotOk, ThreadOk, Jobs, Missing, Partial;
    assert Covered(c, s, n);
    b, l :| CoveredAt(c, s, n, b, l);
  }

  /** Every number drawn in a batch is that of an insertion that places its key. */
  lemma DrawnBy(c: Batch, s: State, r: State, n: nat) returns (i: nat)
    requires Begun(c, false, s) && Inv(c, false, s) && Inv(c, false, r) && Grew(c, s, r) && Finished(r)
    requires s.cnt <= n < r.cnt
    ensures i < |r.pcs| && HasWon(r.pcs[i].r) && r.pcs[i].r.no == n
  {
    hide Begun, Inv;
    BothSized(c, s, r);
    LostBefore(c, s, n);
    var b, l := CoveredSlot(c, r, n);
    PairFacts(c, false, r, b, l, b, l);
    if s.keys[b][l] != EMPTY {
      BegunSlot(c, s, b, l);
      StaysThere(c, s, r, b, l);
      assert false;
    }
    i := r.who[b][l];
  }

  lemma LostBefore(c: Batch, s: State, n: nat)
    requires Inv(c, false, s) && s.cnt <= n
    ensures n !in c.lost
  {
    hide Inv;
    MissingIs(c, s);
    assert n in c.lost ==> Misses(c.t, s.keys, s.active, s.cnt, n);
  }

  lemma CoveredSlot(c: Batch, r: State, n: nat) returns (b: nat, l: nat)
    requires Inv(c, false, r) && n < r.cnt && n !in c.lost
    ensures Sized(c, r) && CoveredAt(c, r, n, b, l)
  {
    hide TableOk, Distinct, SlotOk, ThreadOk, Jobs, Missing;
    assert Covered(c, r, n);
    b, l :| CoveredAt(c, r, n, b, l);
  }

  /** A batch leaves a set flag set exactly if in the end all its keys are there and none of the
      numbers it has drawn is near the end of the table, but for those past the end of the list. */
  lemma SucceedsIff(c: Batch, s: State, schedule: seq<nat>)
    requires Begun(c, false, s) && forall k :: 0 <= k < |schedule| ==> schedule[k] < |c.jobs|
    ensures Inv(c, false, s)
    ensures var r := Run(c, false, s, schedule);
            Finished(r) ==> (r.success <==>
              && s.success && (forall i: nat :: i < |c.jobs| ==> Stored(r.keys, c.jobs[i].key))
              && forall n: nat :: s.cnt <= n < r.cnt && n < |r.active| ==> !TooNear(c.t, n))
  {
    hide Begun, Inv, Run, Kept, Grew, Silent, TooNear, Stored;
    BegunInv(c, false, s);
    FlagIff(c, false, s, schedule);
    var r := Run(c, false, s, schedule);
    if Finished(r) {
      BothSized(c, s, r);
      SilentIff(c, s, r);
    }
  }

  lemma SilentIff(c: Batch, s: State, r: State)
    requires Begun(c, false, s) && Inv(c, false, s) && Inv(c, false, r) && Grew(c, s, r) && Finished(r) && Sized(c, r)
    ensures Silent(r) <==>
            && (forall i: nat :: i < |c.jobs| ==> Stored(r.keys, c.jobs[i].key))
            && forall n: nat :: s.cnt <= n < r.cnt && n < |r.active| ==> !TooNear(c.t, n)
  {
    hide Begun, Inv, Grew, Finished, Warned, TooNear, Stored;
    if Silent(r) {
      forall i: nat | i < |c.jobs|
        ensures Stored(r.keys, c.jobs[i].key)
      {
        ResultIs(c, r, i);
      }
      forall n: nat | s.cnt <= n < r.cnt && n < |r.active|
        ensures !TooNear(c.t, n)
      {
        var i := DrawnBy(c, s, r, n);
        ResultIs(c, r, i);
      }
    } else {
      var i :| 0 <= i < |r.pcs| && Warned(r.pcs[i]);
      ResultIs(c, r, i);
      if HasWon(r.pcs[i].r) {
        DrawsNew(c, s, r, i);
        assert TooNear(c.t, r.pcs[i].r.no) || !Stored(r.keys, c.jobs[i].key);
      }
    }
  }

  lemma ResultIs(c: Batch, r: State, i: nat)
    requires Inv(c, false, r) && Finished(r) && i < |r.pcs|
    ensures Sized(c, r) && r.pcs[i].Return?
    ensures Warned(r.pcs[i]) <==>
            !Stored(r.keys, c.jobs[i].key)
            || (HasWon(r.pcs[i].r) && r.pcs[i].r.no < |r.active| && TooNear(c.t, r.pcs[i].r.no))
  {
    hide Inv, Passed, Placed, Stored, TooNear;
    ThreadIs(c, false, r, i);
    StoredIffRoom(c, false, r, i);
  }

  lemma WarnedCleared(c: Batch, rebuild: bool, r: State, i: nat)
    requires Inv(c, rebuild, r) && i < |r.pcs| && Warned(r.pcs[i])
    ensures !r.success
  {
    hide Inv, Passed, Placed;
    ThreadIs(c, rebuild, r, i);
  }

  /** One batch of insertions, any interleaving: the table is at rest again; what was there
      stays in its place with its number; every key that did not fail is there, every winner
      under the number it returned; nothing else has come in; a key that an earlier rebuild has
      lost fails again; and the success flag is cleared exactly by the insertions that find no room
      or come near the end of the table. */
  lemma InsertBatch(c: Batch, s: State, schedule: seq<nat>)
    requires Begun(c, false, s) && forall k :: 0 <= k < |schedule| ==> schedule[k] < |c.jobs|
    ensures Inv(c, false, s)
    ensures var r := Run(c, false, s, schedule);
            Finished(r) ==>
              && Partial(c.t, r.keys, r.indices, r.active, r.cnt, c.lost) && Grew(c, s, r)
              && (c.lost == {} ==> Settled(c.t, r.keys, r.indices, r.active, r.cnt))
              && (forall i: nat :: i < |c.jobs| ==> Outcome(c, r, i))
              && (forall b: nat, l: nat :: Slot(c.t, b, l) && r.keys[b][l] != EMPTY ==>
                  s.keys[b][l] == r.keys[b][l] || BroughtBy(c, r, b, l))
              && (forall i: nat, n: nat :: i < |c.jobs| && n in c.lost ==> FailsAgain(c, r, i, n))
              && (r.success <==> s.success && Silent(r))
  {
    hide Begun, Inv, Run, Finished, Settled, Partial, Outcome, Grew, Kept, Silent;
    BegunInv(c, false, s);
    FlagIff(c, false, s, schedule);
    var r := Run(c, false, s, schedule);
    if Finished(r) {
      BatchEnds(c, s, r);
    }
  }

  lemma BatchEnds(c: Batch, s: State, r: State)
    requires Begun(c, false, s) && Inv(c, false, r) && Grew(c, s, r) && Finished(r)
    ensures Sized(c, s) && Sized(c, r)
    ensures Partial(c.t, r.keys, r.indices, r.active, r.cnt, c.lost)
    ensures c.lost == {} ==> Settled(c.t, r.keys, r.indices, r.active, r.cnt)
    ensures forall i: nat :: i < |c.jobs| ==> Outcome(c, r, i)
    ensures forall b: nat, l: nat :: Slot(c.t, b, l) && r.keys[b][l] != EMPTY ==>
            s.keys[b][l] == r.keys[b][l] || BroughtBy(c, r, b, l)
    ensures forall i: nat, n: nat :: i < |c.jobs| && n in c.lost ==> FailsAgain(c, r, i, n)
  {
    BothSized(c, s, r);
    hide Inv, Begun, Grew, Partial, Settled, Outcome, Finished;
    BatchSettles(c, r);
    SettledPartial(c.t, r.keys, r.indices, r.active, r.cnt);
    AllBrought(c, s, r);
    forall i: nat | i < |c.jobs|
      ensures Outcome(c, r, i)
    {
      JobOutcome(c, false, r, i);
    }
    forall i: nat, n: nat | i < |c.jobs| && n in c.lost
      ensures FailsAgain(c, r, i, n)
    {
      LostFails(c, r, i, n);
    }
  }

  lemma BothSized(c: Batch, s: State, r: State)
    requires Begun(c, false, s) && Inv(c, false, r) && Finished(r)
    ensures Sized(c, s) && Sized(c, r) && forall i: nat :: i < |c.jobs| ==> r.pcs[i].Return?
  {
    hide Jobs, SlotOk, ThreadOk, Distinct, TableOk, Missing, Partial;
  }

  /** The insertion of a lost key finds no room. */
  ghost predicate FailsAgain(c: Batch, r: State, i: nat, n: nat)
    requires i < |c.jobs| == |r.pcs|
  {
    n < |r.active| && (r.active[n] == c.jobs[i].key ==> r.pcs[i] == Return(Full))
  }

  /** A lost key has no room for ever. */
  lemma LostFails(c: Batch, r: State, i: nat, n: nat)
    requires Inv(c, false, r) && Finished(r) && i < |c.jobs| && n in c.lost
    ensures FailsAgain(c, r, i, n)
  {
    hide SlotOk, Distinct, Jobs, TableOk, ThreadOk, Passed, Stored;
    assert Misses(c.t, r.keys, r.active, r.cnt, n);
    StoredIffRoom(c, false, r, i);
    PassedAll(c.t, r.keys, r.active[n]);
  }

  ghost predicate Outcome(c: Batch, r: State, i: nat)
    requires Sized(c, r) && i < |r.pcs|
  {
    && r.pcs[i].Return?
    && (r.pcs[i].r.Full? <==> !Stored(r.keys, c.jobs[i].key))
    && (r.pcs[i].r.Full? ==> Passed(c.t, r.keys, c.jobs[i].key, 3))
    && (HasWon(r.pcs[i].r) ==>
        && Placed(c, r, i, r.pcs[i].r.no) && (r.pcs[i].r.Overrun? <==> r.pcs[i].r.no >= |r.active|)
        && (!r.pcs[i].r.Overrun? ==> (r.pcs[i].r.Near? <==> TooNear(c.t, r.pcs[i].r.no))))
    && (r.pcs[i].r.Full? || r.pcs[i].r.Near? ==> !r.success)
  }

  lemma JobOutcome(c: Batch, rebuild: bool, r: State, i: nat)
    requires Inv(c, rebuild, r) && Finished(r) && i < |r.pcs|
    ensures Outcome(c, r, i)
  {
    hide SlotOk, Distinct, Jobs, TableOk;
    StoredIffRoom(c, rebuild, r, i);
    assert ThreadOk(c, r, i);
  }

  /** Some insertion of this very key returned the number found here. */
  ghost predicate BroughtBy(c: Batch, r: State, b: nat, l: nat)
    requires Sized(c, r) && Slot(c.t, b, l)
  {
    exists i: nat :: i < |c.jobs| && c.jobs[i].key == r.keys[b][l] && r.pcs[i].Return?
        && HasWon(r.pcs[i].r) && r.pcs[i].r.no == r.indices[b][l]
  }

  lemma AllBrought(c: Batch, s: State, r: State)
    requires Begun(c, false, s) && Inv(c, false, r) && Grew(c, s, r) && Finished(r)
    ensures forall b: nat, l: nat :: Slot(c.t, b, l) && r.keys[b][l] != EMPTY ==>
            s.keys[b][l] == r.keys[b][l] || BroughtBy(c, r, b, l)
  {
    forall b: nat, l: nat | Slot(c.t, b, l) && r.keys[b][l] != EMPTY
      ensures s.keys[b][l] == r.keys[b][l] || BroughtBy(c, r, b, l)
    {
      NewKey(c, r, b, l);
    }
  }

  lemma NewKey(c: Batch, r: State, b: nat, l: nat)
    requires Inv(c, false, r) && Finished(r) && Slot(c.t, b, l) && r.keys[b][l] != EMPTY
    ensures r.who[b][l] >= 0 ==> BroughtBy(c, r, b, l)
  {
    hide Distinct, Jobs, TableOk, ThreadOk;
    assert SlotOk(c, false, r, b, l);
    if r.who[b][l] >= 0 {
      assert r.pcs[r.who[b][l]].Return?;
    }
  }

  // Rebuilding a table with the keys and numbers of another.

  /** The listed keys of a rebuild: distinct, each with its place in the list as its number. */
  ghost predicate Listing(c: Batch)
  {
    && (forall i :: 0 <= i < |c.jobs| ==> c.jobs[i].index == i)
    && forall i, j :: 0 <= i < j < |c.jobs| ==> c.jobs[i].key != c.jobs[j].key
  }

  /** A key of the list gets its number, or finds its three buckets full. */
  lemma Rebuilt(c: Batch, r: State, i: nat)
    requires Inv(c, true, r) && Finished(r) && i < |r.pcs| && Listing(c)
    ensures HasWon(r.pcs[i].r) || r.pcs[i].r.Full?
    ensures i < |r.active| && r.active[i] == c.jobs[i].key != EMPTY
    ensures HasWon(r.pcs[i].r) ==> exists b: nat, l: nat :: PlacedAt(c, r, i, i, b, l)
    ensures r.pcs[i].r.Full? ==> Passed(c.t, r.keys, c.jobs[i].key, 3)
    ensures r.pcs[i].r.Full? || r.pcs[i].r.Near? ==> !r.success
  {
    hide Distinct, TableOk;
    assert ThreadOk(c, r, i);
    if r.pcs[i].r.Found? {
      FoundNone(c, r, i);
    } else if HasWon(r.pcs[i].r) {
      var b: nat, l: nat :| PlacedAt(c, r, i, r.pcs[i].r.no, b, l);
      assert SlotOk(c, true, r, b, l);
      assert PlacedAt(c, r, i, i, b, l);
    }
  }

  lemma FoundNone(c: Batch, r: State, i: nat)
    requires Inv(c, true, r) && Finished(r) && i < |r.pcs| && Listing(c)
    ensures !r.pcs[i].r.Found?
  {
    hide Distinct, TableOk, Jobs;
    if r.pcs[i].r.Found? {
      assert ThreadOk(c, r, i);
      var b :| 0 <= b < |r.keys| && c.jobs[i].key in r.keys[b];
      var l :| 0 <= l < c.t.B && r.keys[b][l] == c.jobs[i].key;
      ThreadIs(c, true, r, i);
      assert false;
    }
  }

  lemma RebuiltResult(c: Batch, r: State, i: nat)
    requires Inv(c, true, r) && Finished(r) && Listing(c) && i < |r.pcs|
    ensures Warned(r.pcs[i]) <==> i in LostIn(r.pcs) || TooNear(c.t, i)
  {
    hide Inv, TooNear, Passed, Placed, Listing, TableOk, Stored;
    Rebuilt(c, r, i);
    ThreadIs(c, true, r, i);
    if HasWon(r.pcs[i].r) {
      OwnNumber(c, r, i);
    }
  }

  /** A listed key gets its place in the list as its number. */
  lemma OwnNumber(c: Batch, r: State, i: nat)
    requires Inv(c, true, r) && Finished(r) && Listing(c) && i < |r.pcs| && HasWon(r.pcs[i].r)
    ensures r.pcs[i].r.no == i
  {
    hide Distinct, TableOk, Jobs, Missing, Covered;
    assert ThreadOk(c, r, i);
    var b: nat, l: nat :| PlacedAt(c, r, i, r.pcs[i].r.no, b, l);
    assert SlotOk(c, true, r, b, l);
  }

  /** The listed keys for which a rebuild found no room. */
  function LostIn(pcs: seq<Pc>): set<nat>
  {
    set i: nat | i < |pcs| && pcs[i] == Return(Full)
  }

  lemma {:induction false} PlacedOrLost(pcs: seq<Pc>)
    requires forall i :: 0 <= i < |pcs| ==> pcs[i].Return? && (HasWon(pcs[i].r) || pcs[i].r.Full?)
    ensures Sum(Placing(pcs)) + |LostIn(pcs)| == |pcs|
  {
    if pcs == [] {
      assert LostIn(pcs) == {} && Placing(pcs) == [];
    } else {
      var (n, p) := (|pcs| - 1, pcs[..|pcs| - 1]);
      PlacedOrLost(p);
      assert Placing(pcs) == Placing(p) + [if HasPlaced(pcs[n]) then 1 else 0];
      SumSnoc(Placing(p), if HasPlaced(pcs[n]) then 1 else 0);
      LostSnoc(pcs);
    }
  }

  lemma LostSnoc(pcs: seq<Pc>)
    requires pcs != []
    ensures var (n, p) := (|pcs| - 1, pcs[..|pcs| - 1]);
            n !in LostIn(p) && LostIn(pcs) == if pcs[n] == Return(Full) then LostIn(p) + {n} else LostIn(p)
  {
  }

  /** Whatever the interleaving, a rebuild ends with a table at rest in which every listed key has
      its number, but for those that are lost: their three buckets are full of other keys. It leaves
      the success flag set exactly if it was set, nothing is lost and no number of the list is near
      the end of the table. */
  lemma RebuildBatch(c: Batch, s: State, schedule: seq<nat>)
    requires Begun(c, true, s) && forall k :: 0 <= k < |schedule| ==> schedule[k] < |c.jobs|
    requires Listing(c) && |c.jobs| <= |s.active|
    ensures Inv(c, true, s)
    ensures var r := Run(c, true, s, schedule);
            Finished(r) ==>
              && Partial(c.t, r.keys, r.indices, r.active, |c.jobs|, LostIn(r.pcs))
              && (r.success ==> LostIn(r.pcs) == {} && Settled(c.t, r.keys, r.indices, r.active, |c.jobs|))
              && forall i: nat :: i < |c.jobs| ==>
                   && i < |r.active| && r.active[i] == c.jobs[i].key
                   && if i in LostIn(r.pcs) then Passed(c.t, r.keys, c.jobs[i].key, 3)
                       else Maps(r.keys, r.indices, c.jobs[i].key, i)
    ensures var r := Run(c, true, s, schedule);
            Finished(r) ==>
              && (r.success <==> s.success && Silent(r))
              && (Silent(r) <==> LostIn(r.pcs) == {} && NoneNear(c.t, |c.jobs|))
  {
    hide TableOk, Passed, Jobs, Settled, Partial, Begun, Listing, Grid, Silent, NoneNear;
    BegunInv(c, true, s);
    FlagIff(c, true, s, schedule);
    var r := Run(c, true, s, schedule);
    if Finished(r) {
      RebuiltAll(c, r);
      RebuiltFlag(c, s, r);
    }
  }

  /** None of the first `n` numbers is near the end of the table. */
  ghost predicate NoneNear(c: Config, n: int)
  {
    forall m: nat :: m < n ==> !TooNear(c, m)
  }

  lemma RebuiltFlag(c: Batch, s: State, r: State)
    requires Inv(c, true, r) && Finished(r) && Listing(c)
    ensures Silent(r) <==> LostIn(r.pcs) == {} && NoneNear(c.t, |c.jobs|)
  {
    hide Inv, TooNear, Listing, Finished;
    ManyThreads(c, true, r);
    forall i: nat | i < |r.pcs|
      ensures Warned(r.pcs[i]) <==> i in LostIn(r.pcs) || TooNear(c.t, i)
    {
      RebuiltResult(c, r, i);
    }
    if LostIn(r.pcs) != {} {
      var i :| i in LostIn(r.pcs);
      assert Warned(r.pcs[i]);
    }
  }

  lemma ManyThreads(c: Batch, rebuild: bool, s: State)
    requires Inv(c, rebuild, s)
    ensures |s.pcs| == |c.jobs|
  {
  }

  lemma RebuiltAll(c: Batch, r: State)
    requires Inv(c, true, r) && Finished(r) && Listing(c)
    ensures Partial(c.t, r.keys, r.indices, r.active, |c.jobs|, LostIn(r.pcs))
    ensures r.success ==> LostIn(r.pcs) == {} && Settled(c.t, r.keys, r.indices, r.active, |c.jobs|)
    ensures forall i: nat :: i < |c.jobs| ==>
              && i < |r.active| && r.active[i] == c.jobs[i].key
              && if i in LostIn(r.pcs) then Passed(c.t, r.keys, c.jobs[i].key, 3)
                  else Maps(r.keys, r.indices, c.jobs[i].key, i)
  {
    hide SlotOk, Distinct, TableOk, ThreadOk, Settled, Jobs, Passed, Listing, Partial;
    forall i: nat | i < |c.jobs|
      ensures HasWon(r.pcs[i].r) || r.pcs[i].r.Full?
      ensures i < |r.active| && r.active[i] == c.jobs[i].key != EMPTY
      ensures if r.pcs[i].r.Full? then Passed(c.t, r.keys, c.jobs[i].key, 3) && !r.success
              else Maps(r.keys, r.indices, c.jobs[i].key, i) && Used(c.t, r.keys, r.indices, i)
    {
      Rebuilt(c, r, i);
      if HasWon(r.pcs[i].r) {
        var b: nat, l: nat :| PlacedAt(c, r, i, i, b, l);
        assert MapsAt(r.keys, r.indices, c.jobs[i].key, i, b, l);
        assert UsedAt(c.t, r.keys, r.indices, i, b, l);
      }
    }
    PlacedOrLost(r.pcs);
    if c.jobs != [] {
      Rebuilt(c, r, |c.jobs| - 1);
    }
    RebuiltPartial(c, r, LostIn(r.pcs));
    SettledPartial(c.t, r.keys, r.indices, r.active, |c.jobs|);
  }

  /** The table maps a key to a number. */
  ghost predicate Maps(keys: seq<seq<int>>, indices: seq<seq<int>>, key: int, no: int)
    requires |keys| == |indices| && forall b :: 0 <= b < |keys| ==> |keys[b]| == |indices[b]|
  {
    exists b: nat, l: nat :: MapsAt(keys, indices, key, no, b, l)
  }

  ghost predicate MapsAt(keys: seq<seq<int>>, indices: seq<seq<int>>, key: int, no: int, b: nat, l: nat)
    requires |keys| == |indices| && forall b :: 0 <= b < |keys| ==> |keys[b]| == |indices[b]|
  {
    b < |keys| && l < |keys[b]| && keys[b][l] == key && indices[b][l] == no
  }

  lemma RebuiltPartial(c: Batch, r: State, lost: set<nat>)
    requires Inv(c, true, r) && Finished(r) && Listing(c) && Sum(Placing(r.pcs)) + |lost| == |c.jobs|
             && |c.jobs| <= |r.active|
    requires lost == LostIn(r.pcs)
    requires forall i: nat :: i < |c.jobs| && i !in lost ==> Used(c.t, r.keys, r.indices, i)
    requires forall i: nat :: i < |c.jobs| ==> r.active[i] == c.jobs[i].key != EMPTY
    requires forall i: nat :: i in lost ==> Passed(c.t, r.keys, c.jobs[i].key, 3)
    ensures Partial(c.t, r.keys, r.indices, r.active, |c.jobs|, lost)
  {
    hide TableOk, ThreadOk, Passed, Jobs;
    forall b: nat, l: nat | Slot(c.t, b, l) && r.keys[b][l] != EMPTY
      ensures 0 <= r.indices[b][l] < |c.jobs| && r.indices[b][l] !in lost
      ensures Numbered(r, b, l) && NumberOf(r, b, l) == r.indices[b][l] && r.active[r.indices[b][l]] == r.keys[b][l]
    {
      assert SlotOk(c, true, r, b, l);
    }
    forall b: nat, l: nat, b': nat, l': nat | Slot(c.t, b, l) && Slot(c.t, b', l')
      ensures Apart(r.keys, r.indices, b, l, b', l')
    {
      assert Distinct(r, b, l, b', l');
    }
  }
}
