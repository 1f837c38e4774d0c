/** `build` from the boxes on: all cells of all primitives are inserted into a `bht`, again after
    each time that it had to grow, and then the primitives are grouped by the numbers of their cells. */
module SpatialTable {
  import opened BhtInsert
  import opened BhtTable
  import opened Buckets
  import opened CellRanges
  import opened Sums
  import opened WordBits
  import SpatialFill
  import SpatialHashes

  /** The keys of a batch of insertions. */
  ghost predicate Inserted(jobs: seq<Job>, key: int)
  {
    exists i: nat :: InsertedBy(jobs, key, i)
  }

  ghost predicate InsertedBy(jobs: seq<Job>, key: int, i: nat)
  {
    i < |jobs| && jobs[i].key == key
  }

  /** All listed keys are keys of the batch. */
  ghost predicate OnlyJobs(jobs: seq<Job>, active: seq<int>, cnt: int)
  {
    cnt <= |active| && forall n: nat :: n < cnt ==> Inserted(jobs, active[n])
  }

  /** The list names exactly the keys of the batch, each once. */
  ghost predicate Names(jobs: seq<Job>, active: seq<int>, cnt: int)
  {
    && 0 <= cnt <= |active|
    && (forall key :: key != EMPTY ==> (key in active[..cnt] <==> Inserted(jobs, key)))
    && forall m, n :: 0 <= m < n < cnt ==> active[m] != active[n]
  }

  /** Whatever the interleaving, a batch after which the success flag is still set has numbered
      exactly the keys inserted, from 0 without gaps, each key once. The table may list keys of the
      batch already, and may have lost some of them to a rebuild: those then fail once more, so
      that success means that nothing is lost. The exception is a batch that notes a key past the
      end of the list: the counter tells; it takes more keys than slots, and more keys lost than
      there are buckets. */
  lemma KeysNumbered(c: Batch, s: State, schedule: seq<nat>)
    requires Begun(c, false, s) && forall k :: 0 <= k < |schedule| ==> schedule[k] < |c.jobs|
    requires OnlyJobs(c.jobs, s.active, s.cnt)
    ensures Inv(c, false, s)
    ensures var r := Run(c, false, s, schedule);
            Finished(r) ==>
              && Partial(c.t, r.keys, r.indices, r.active, r.cnt, c.lost) && (Overran(r) <==> r.cnt > |r.active|)
              && (|Keys(c.jobs)| <= |r.active| || |c.lost| <= c.t.nb ==> !Overran(r))
              && (!Overran(r) ==> OnlyJobs(c.jobs, r.active, r.cnt))
              && (!Overran(r) && r.success ==>
                  c.lost == {} && Settled(c.t, r.keys, r.indices, r.active, r.cnt)
                  && Names(c.jobs, r.active, r.cnt))
  {
    hide Run, Inv, Begun, Finished, Partial, Settled, OnlyJobs, Names, Outcome, Grew, Kept, NewKeys, Keys;
    InsertBatch(c, s, schedule);
    BatchFits(c, s, schedule);
    var r := Run(c, false, s, schedule);
    if Finished(r) {
      BothSized(c, s, r);
      OnlyFits(c.jobs, s.active, s.cnt);
      KeysCounted(c, s);
      SameLength(c, s, r);
      if !Overran(r) {
        BatchLists(c, s, r);
        if r.success {
          NothingLost(c, s, r);
          AllNamed(c, r);
        }
      }
    }
  }

  lemma SameLength(c: Batch, s: State, r: State)
    requires Sized(c, s) && Sized(c, r)
    ensures |s.active| == |r.active|
  {
  }

  lemma OnlyFits(jobs: seq<Job>, active: seq<int>, cnt: int)
    requires OnlyJobs(jobs, active, cnt)
    ensures cnt <= |active|
  {
  }

  /** The different keys of a batch. */
  function Keys(jobs: seq<Job>): set<int>
  {
    set i | 0 <= i < |jobs| :: jobs[i].key
  }

  /** The listed keys and those that may still find a slot are different keys of the batch. */
  lemma KeysCounted(c: Batch, s: State)
    requires Begun(c, false, s) && OnlyJobs(c.jobs, s.active, s.cnt)
    ensures Sized(c, s) && s.cnt + |NewKeys(c, s)| <= |Keys(c.jobs)|
  {
    hide Partial, TableOk, Passed, Stored;
    var listed := set k | k in s.active[..s.cnt];
    forall m: nat, n: nat | m < n < s.cnt
      ensures s.active[..s.cnt][m] != s.active[..s.cnt][n]
    {
      NotedOnce(c.t, s.keys, s.indices, s.active, s.cnt, c.lost, m, n);
    }
    AsMany(s.active[..s.cnt]);
    forall k | k in listed
      ensures k in Keys(c.jobs) && k !in NewKeys(c, s)
    {
      var n: nat :| n < s.cnt && s.active[n] == k;
      LostOrUsed(c.t, s.keys, s.indices, s.active, s.cnt, c.lost, n);
      LostKeys(c.t, s.keys, s.indices, s.active, s.cnt, c.lost);
      assert Inserted(c.jobs, s.active[n]);
    }
    assert listed !! NewKeys(c, s);
    SubsetSize(listed + NewKeys(c, s), Keys(c.jobs));
  }

  lemma {:induction false} SubsetSize(a: set<int>, b: set<int>)
    requires a <= b
    ensures |a| <= |b|
  {
    assert b == a + (b - a);
  }

  lemma {:induction false} AsMany(list: seq<int>)
    requires forall m, n :: 0 <= m < n < |list| ==> list[m] != list[n]
    ensures |set k | k in list| == |list|
  {
    if list == [] {
      assert (set k | k in list) == {};
    } else {
      var p := list[..|list| - 1];
      AsMany(p);
      assert list == p + [list[|list| - 1]];
      assert (set k | k in list) == (set k | k in p) + {list[|list| - 1]};
    }
  }

  /** What the theorem about batches says of a batch that is through. */
  ghost predicate Through(c: Batch, s: State, r: State)
  {
    && Begun(c, false, s) && Sized(c, r) && Kept(c, false, s, r)
        && Partial(c.t, r.keys, r.indices, r.active, r.cnt, c.lost)
    && (forall i: nat :: i < |c.jobs| ==> Outcome(c, r, i))
    && (forall b: nat, l: nat :: Slot(c.t, b, l) && r.keys[b][l] != EMPTY ==>
        s.keys[b][l] == r.keys[b][l] || BroughtBy(c, r, b, l))
    && (forall i: nat, n: nat :: i < |c.jobs| && n in c.lost ==> FailsAgain(c, r, i, n))
  }

  lemma BatchLists(c: Batch, s: State, r: State)
    requires Through(c, s, r) && OnlyJobs(c.jobs, s.active, s.cnt) && r.cnt <= |r.active|
    ensures OnlyJobs(c.jobs, r.active, r.cnt)
  {
    hide TableOk, Outcome, Fills, Sum, Apart, Passed;
    forall n: nat | n < r.cnt
      ensures Inserted(c.jobs, r.active[n])
    {
      if n in c.lost {
        assert Misses(c.t, s.keys, s.active, s.cnt, n);
        assert r.active[n] == s.active[n];
      } else {
        assert Used(c.t, r.keys, r.indices, n);
        var b: nat, l: nat :| UsedAt(c.t, r.keys, r.indices, n, b, l);
        StoredInserted(c, s, r, b, l);
      }
    }
  }

  lemma StoredInserted(c: Batch, s: State, r: State, b: nat, l: nat)
    requires Through(c, s, r) && OnlyJobs(c.jobs, s.active, s.cnt) && Slot(c.t, b, l) && r.keys[b][l] != EMPTY
    ensures Inserted(c.jobs, r.keys[b][l])
  {
    hide TableOk, Outcome, Fills, Sum, Apart, Passed, Missing;
    if s.keys[b][l] == r.keys[b][l] {
      assert Inserted(c.jobs, s.active[s.indices[b][l]]);
    } else {
      assert BroughtBy(c, r, b, l);
      var i: nat :| i < |c.jobs| && c.jobs[i].key == r.keys[b][l];
      assert InsertedBy(c.jobs, r.keys[b][l], i);
    }
  }

  /** A lost key is inserted again and fails. */
  lemma NothingLost(c: Batch, s: State, r: State)
    requires Through(c, s, r) && OnlyJobs(c.jobs, s.active, s.cnt) && r.success
    ensures c.lost == {}
  {
    hide TableOk, Fills, Sum, Apart, Passed, Stored, Placed;
    if n :| n in c.lost {
      assert Misses(c.t, s.keys, s.active, s.cnt, n);
      assert Inserted(c.jobs, s.active[n]);
      var i: nat :| InsertedBy(c.jobs, s.active[n], i);
      LostClears(c, s, r, i, n);
    }
  }

  lemma LostClears(c: Batch, s: State, r: State, i: nat, n: nat)
    requires Through(c, s, r) && n in c.lost && n < |s.active| && InsertedBy(c.jobs, s.active[n], i)
    ensures !r.success
  {
    hide TableOk, Fills, Sum, Apart, Passed, Stored, Placed;
    assert FailsAgain(c, r, i, n) && Outcome(c, r, i);
  }

  lemma AllNamed(c: Batch, r: State)
    requires Sized(c, r) && Settled(c.t, r.keys, r.indices, r.active, r.cnt) && OnlyJobs(c.jobs, r.active, r.cnt)
             && r.success
    requires forall i: nat :: i < |c.jobs| ==> Outcome(c, r, i)
    ensures Names(c.jobs, r.active, r.cnt)
  {
    hide Settled, Placed, Passed, Stored;
    ListBounds(c, r);
    forall key | key != EMPTY
      ensures key in r.active[..r.cnt] <==> Inserted(c.jobs, key)
    {
      if Inserted(c.jobs, key) {
        var i: nat :| InsertedBy(c.jobs, key, i);
        assert Outcome(c, r, i);
        StoredListed(c, r, key);
      }
    }
  }

  lemma ListBounds(c: Batch, r: State)
    requires Sized(c, r) && Settled(c.t, r.keys, r.indices, r.active, r.cnt)
    ensures 0 <= r.cnt <= |r.active| && forall m, n :: 0 <= m < n < r.cnt ==> r.active[m] != r.active[n]
  {
    RoomLeft(c.t, r.keys, r.indices, r.active, r.cnt);
    forall m: nat, n: nat | m < n < r.cnt
      ensures r.active[m] != r.active[n]
    {
      KeyUsed(c.t, r.keys, r.indices, r.active, r.cnt, n);
    }
  }

  lemma StoredListed(c: Batch, r: State, key: int)
    requires Sized(c, r) && Settled(c.t, r.keys, r.indices, r.active, r.cnt) && Stored(r.keys, key) && key != EMPTY
             && 0 <= r.cnt <= |r.active|
    ensures key in r.active[..r.cnt]
  {
    hide TableOk, Used, Fills, Apart;
    var b: nat :| b < |r.keys| && key in r.keys[b];
    var l: nat :| l < |r.keys[b]| && r.keys[b][l] == key;
    assert Slot(c.t, b, l);
    assert r.active[..r.cnt][r.indices[b][l]] == key;
  }

  /** The place of a key in a list. */
  function IndexOf(list: seq<int>, key: int): (n: nat)
    requires key in list
    ensures n < |list| && list[n] == key
  {
    if list[0] == key then 0 else 1 + IndexOf(list[1..], key)
  }

  /** Such a list of keys is the numbering of cells that the other passes look cells up in; `code`
      stands for the integer vector of a cell as a key. */
  lemma CellsNumbered(prims: seq<Box>, cells: set<Cell>, code: Cell -> int,
      list: seq<int>) returns (number: map<Cell, nat>)
    requires forall v :: v in cells <==> exists i :: 0 <= i < |prims| && Covers(prims[i], v)
    requires forall v, w :: v in cells && w in cells && code(v) == code(w) ==> v == w
    requires forall v :: v in cells ==> code(v) in list
    requires forall m, n :: 0 <= m < n < |list| ==> list[m] != list[n]
    ensures SpatialHashes.Numbers(number, |list|, prims)
    ensures forall v :: v in number ==> number[v] < |list| && list[number[v]] == code(v)
  {
    hide Covers;
    number := map v | v in cells :: IndexOf(list, code(v));
  }

  // The loop of `build`: insert, and as long as that does not succeed, grow and insert again.

  /** The table of cells between two passes; `lost` are the numbers of the keys lost. */
  datatype Table = Table(c: Config, keys: seq<seq<int>>, indices: seq<seq<int>>, active: seq<int>, cnt: nat,
      success: bool, lost: set<nat>)

  ghost predicate Resting(t: Table)
  {
    Partial(t.c, t.keys, t.indices, t.active, t.cnt, t.lost)
  }

  /** No key has been noted past the end of the list. */
  predicate Within(t: Table)
  {
    t.cnt <= |t.active|
  }

  /** Insertions without an index, which list their keys. */
  ghost predicate Fresh(jobs: seq<Job>)
  {
    forall i :: 0 <= i < |jobs| ==> jobs[i].key != EMPTY && jobs[i].enqueue && jobs[i].index == NO_INDEX
  }

  /** All threads of a pass are about to start. */
  function Opened(t: Table, jobs: seq<Job>): State
  {
    State(t.keys, t.indices, t.active, t.cnt, t.success, seq(|jobs|, _ => Scan(0, 0)), Blank(t.c.nb, t.c.B, -1))
  }

  predicate Schedules(schedule: seq<nat>, n: nat)
  {
    forall k :: 0 <= k < |schedule| ==> schedule[k] < n
  }

  lemma PassBegins(t: Table, jobs: seq<Job>)
    requires Resting(t) && Fresh(jobs)
    ensures Begun(Batch(t.c, jobs, t.lost), false, Opened(t, jobs))
            && Inv(Batch(t.c, jobs, t.lost), false, Opened(t, jobs))
  {
    hide Partial, Inv;
    PartialShape(t.c, t.keys, t.indices, t.active, t.cnt, t.lost);
    assert Begun(Batch(t.c, jobs, t.lost), false, Opened(t, jobs));
    BegunInv(Batch(t.c, jobs, t.lost), false, Opened(t, jobs));
  }

  /** A pass of insertions, in any interleaving, from `t` to `t'`. */
  ghost predicate Passes(t: Table, jobs: seq<Job>, schedule: seq<nat>, t': Table)
    requires Resting(t) && Fresh(jobs)
  {
    PassBegins(t, jobs);
    Schedules(schedule, |jobs|) &&
    var r := Run(Batch(t.c, jobs, t.lost), false, Opened(t, jobs), schedule);
    Finished(r) && t' == Table(t.c, r.keys, r.indices, r.active, t'.cnt, r.success, t.lost) && t'.cnt == r.cnt
  }

  lemma PassRests(t: Table, jobs: seq<Job>, schedule: seq<nat>, t': Table)
    requires Resting(t) && Fresh(jobs) && Passes(t, jobs, schedule, t')
    ensures Resting(t')
  {
    hide Partial, Begun, Inv, Run, Finished, Settled, Outcome, Grew, Kept;
    PassBegins(t, jobs);
    InsertBatch(Batch(t.c, jobs, t.lost), Opened(t, jobs), schedule);
  }

  /** What `resize` does to a table that has to grow: empty slots, a longer list (`more` is what
      stands in the new part), and the listed keys as insertions by number. */
  datatype Growth = Growth(more: seq<int>, schedule: seq<nat>)

  function Relisted(active: seq<int>, n: nat): (jobs: seq<Job>)
    requires n <= |active|
  {
    seq(n, i requires 0 <= i < n => Job(active[i], i, false))
  }

  function Emptied(t: Table, nb: nat, active: seq<int>): State
    requires t.cnt <= |active|
  {
    State(Blank(nb, t.c.B, EMPTY), Blank(nb, t.c.B, 0), active, t.cnt, true, seq(t.cnt, _ => Scan(0, 0)),
        Blank(nb, t.c.B, -1))
  }

  function Larger(t: Table, size: nat): Config
  {
    if t.c.B == 0 then t.c else Config(size / t.c.B, t.c.B, t.c.hash)
  }

  /** Growing to `size` slots. */
  ghost predicate Grown(t: Table, size: nat, g: Growth)
  {
    Resting(t) && Within(t) && size > TableSize(t.c) && size % t.c.B == 0 && |g.more| == size - |t.active|
        && Schedules(g.schedule, t.cnt)
  }

  lemma GrowthBegins(t: Table, size: nat, g: Growth)
    requires Grown(t, size, g)
    ensures t.cnt <= |t.active|
    ensures var m := Batch(Larger(t, size), Relisted(t.active + g.more, t.cnt), {});
            Begun(m, true, Emptied(t, size / t.c.B, t.active + g.more)) && Listing(m) && |m.jobs| == t.cnt
    ensures Inv(Batch(Larger(t, size), Relisted(t.active + g.more, t.cnt), {}), true,
            Emptied(t, size / t.c.B, t.active + g.more))
  {
    hide Partial, Inv, Jobs, Listing;
    PartialShape(t.c, t.keys, t.indices, t.active, t.cnt, t.lost);
    Whole(size, t.c.B);
    RelistedOk(t, g.more, size);
    BegunInv(Batch(Larger(t, size), Relisted(t.active + g.more, t.cnt), {}), true,
        Emptied(t, size / t.c.B, t.active + g.more));
  }

  lemma RelistedOk(t: Table, more: seq<int>, size: nat)
    requires Resting(t) && t.cnt <= |t.active|
    ensures var m := Batch(Larger(t, size), Relisted(t.active + more, t.cnt), {});
            Jobs(m, true, t.active + more) && Listing(m)
  {
    hide Partial;
    forall i: nat, j: nat | i < j < t.cnt
      ensures t.active[i] != t.active[j]
    {
      NotedOnce(t.c, t.keys, t.indices, t.active, t.cnt, t.lost, i, j);
    }
    forall i: nat | i < t.cnt
      ensures t.active[i] != EMPTY
    {
      NotedOnce(t.c, t.keys, t.indices, t.active, t.cnt, t.lost, i, i);
    }
  }

  /** `resize` for a number of entries, concurrently: from `t` to `t'`. A table that is large enough
      is left as it is, the success flag included. */
  ghost predicate Resizes(t: Table, entries: nat, g: Growth, t': Table)
    requires Resting(t) && Within(t)
  {
    PartialShape(t.c, t.keys, t.indices, t.active, t.cnt, t.lost);
    var size := EvaluateTableSize(entries, t.c.B);
    if size <= TableSize(t.c) then t' == t
    else
      Grown(t, size, g) &&
      (GrowthBegins(t, size, g);
       var m := Batch(Larger(t, size), Relisted(t.active + g.more, t.cnt), {});
       var r := Run(m, true, Emptied(t, size / t.c.B, t.active + g.more), g.schedule);
       Finished(r) && t' == Table(m.t, r.keys, r.indices, r.active, t'.cnt, r.success, LostIn(r.pcs))
           && t'.cnt == r.cnt)
  }

  /** After a resize the table is at rest but for the keys lost, and lists what it listed. One that
      has grown has the success flag set exactly if nothing is lost and no number of the list is near
      the end. */
  lemma ResizeRests(t: Table, entries: nat, g: Growth, t': Table)
    requires Resting(t) && Within(t) && Resizes(t, entries, g, t')
    ensures Resting(t') && Within(t') && t'.cnt == t.cnt <= |t.active| <= |t'.active|
            && t'.active[..|t.active|] == t.active
    ensures t.c.B > 0
    ensures if EvaluateTableSize(entries, t.c.B) <= TableSize(t.c) then t' == t
            else t'.success <==> t'.lost == {} && NoneNear(t'.c, t.cnt)
  {
    hide Partial, Begun, Inv, Run, Finished, Settled, Listing, EvaluateTableSize, Grown, NoneNear, TableSize;
    PartialShape(t.c, t.keys, t.indices, t.active, t.cnt, t.lost);
    var size := EvaluateTableSize(entries, t.c.B);
    if size > TableSize(t.c) {
      GrowthBegins(t, size, g);
      GrownMore(t, size, g);
      RebuildBatch(Batch(Larger(t, size), Relisted(t.active + g.more, t.cnt), {}),
          Emptied(t, size / t.c.B, t.active + g.more), g.schedule);
    } else {
      assert t'.active[..|t.active|] == t.active;
    }
  }

  lemma FourTimes(entries: nat)
    requires entries > 0
    ensures CeilLog2(entries * 4) == CeilLog2(entries) + 2
  {
    var (k, e) := (CeilLog2(entries), CeilLog2(entries * 4));
    assert Pow2(k + 2) == 4 * Pow2(k) && Pow2(k + 1) == 2 * Pow2(k);
    assert k > 0 ==> Pow2(k) == 2 * Pow2(k - 1);
    if e < k + 2 {
      Pow2Grows(e, k + 1);
    } else if e > k + 2 {
      Pow2Grows(k + 2, e - 1);
    }
  }

  /** With the bucket size of the code the retry gets a larger table exactly from two entries on. */
  lemma RetryGrows(entries: nat)
    requires entries > 0
    ensures EvaluateTableSize(entries * 4, 16) > EvaluateTableSize(entries, 16) <==> entries >= 2
  {
    FourTimes(entries);
    var (k, n) := (CeilLog2(entries), Pow2(CeilLog2(entries)) * 2);
    assert Pow2(k + 2) == 4 * Pow2(k);
    if entries >= 2 {
      Pow2Grows(1, k);
      assert Pow2(1) == 2;
    }
  }

  /** A pass does not set a success flag that has been cleared. */
  lemma StaysCleared(t: Table, jobs: seq<Job>, schedule: seq<nat>, t': Table)
    requires Resting(t) && Fresh(jobs) && Passes(t, jobs, schedule, t') && !t.success
    ensures !t'.success
  {
    hide Partial, Begun, Inv, Run, Finished;
    PassBegins(t, jobs);
  }

  /** A pass leaves a set flag set exactly if in the end all its keys are there and none of the
      numbers it has drawn is near the end of the table, but for those past the end of the list. */
  lemma PassSucceeds(t: Table, jobs: seq<Job>, schedule: seq<nat>, t': Table)
    requires Resting(t) && Fresh(jobs) && Passes(t, jobs, schedule, t')
    ensures t'.success <==>
            && t.success && (forall i: nat :: i < |jobs| ==> Stored(t'.keys, jobs[i].key))
            && forall n: nat :: t.cnt <= n < t'.cnt && n < |t'.active| ==> !TooNear(t.c, n)
  {
    hide Partial, Begun, Inv, Run, Finished, Stored, TooNear;
    PassBegins(t, jobs);
    SucceedsIff(Batch(t.c, jobs, t.lost), Opened(t, jobs), schedule);
  }

  /** Every key has a candidate bucket in which fewer than `B - 1` other keys of the batch may
      stand. */
  ghost predicate Uncrowded(c: Config, keys: set<int>)
    requires c.nb > 0
  {
    forall k :: k in keys ==> exists j: nat :: j < 3 && |Rivals(c, keys, k, Bucket(c, k, j))| < c.B - 1
  }

  /** The other keys that have a bucket among their candidates. */
  ghost function Rivals(c: Config, keys: set<int>, k: int, b: nat): set<int>
    requires c.nb > 0
  {
    set m | m in keys && m != k && MayStand(c, m, b)
  }

  predicate MayStand(c: Config, m: int, b: nat)
    requires c.nb > 0
  {
    Bucket(c, m, 0) == b || Bucket(c, m, 1) == b || Bucket(c, m, 2) == b
  }

  /** With room for all cells and no number near the end a pass succeeds, whatever the interleaving,
      and with it the loop at once. */
  lemma UncrowdedSucceeds(t: Table, jobs: seq<Job>, schedule: seq<nat>, t': Table, entries: nat, g: Growth)
    requires Resting(t) && Fresh(jobs) && OnlyJobs(jobs, t.active, t.cnt) && Passes(t, jobs, schedule, t')
    requires t.success && t.c.nb > 0 && Uncrowded(t.c, Keys(jobs))
    requires NoneNear(t.c, |Keys(jobs)|)
    ensures t'.success && (Within(t) ==> Loop(t, jobs, entries, [Turn(schedule, t', g, t')]))
  {
    hide Partial, Begun, Inv, Run, Finished, Stored, TooNear, OnlyJobs, Keys, Passes, Resting, Fresh, Uncrowded;
    PassSucceeds(t, jobs, schedule, t');
    forall i: nat | i < |jobs|
      ensures Stored(t'.keys, jobs[i].key)
    {
      UncrowdedStored(t, jobs, schedule, t', i);
    }
    PassCounts(t, jobs, schedule, t');
    PassRests(t, jobs, schedule, t');
    if Within(t) {
      var u := Turn(schedule, t', g, t');
      assert [u][0] == u;
    }
  }

  lemma PassCounts(t: Table, jobs: seq<Job>, schedule: seq<nat>, t': Table)
    requires Resting(t) && Fresh(jobs) && OnlyJobs(jobs, t.active, t.cnt) && Passes(t, jobs, schedule, t')
    ensures t'.cnt <= |Keys(jobs)|
  {
    hide Partial, Begun, Inv, Run, Finished, OnlyJobs, Keys, NewKeys, Overran, Kept, Grew;
    PassBegins(t, jobs);
    BatchFits(Batch(t.c, jobs, t.lost), Opened(t, jobs), schedule);
    KeysCounted(Batch(t.c, jobs, t.lost), Opened(t, jobs));
  }

  lemma UncrowdedStored(t: Table, jobs: seq<Job>, schedule: seq<nat>, t': Table, i: nat)
    requires Resting(t) && Fresh(jobs) && OnlyJobs(jobs, t.active, t.cnt) && Passes(t, jobs, schedule, t')
    requires t.c.nb > 0 && Uncrowded(t.c, Keys(jobs)) && i < |jobs|
    ensures Stored(t'.keys, jobs[i].key)
  {
    hide Partial, Begun, Inv, Run, Finished, Stored, OnlyJobs, Kept, Grew, Outcome, Settled, Uncrowded, Rivals, Keys,
        Passed;
    PassBegins(t, jobs);
    var (m, s) := (Batch(t.c, jobs, t.lost), Opened(t, jobs));
    InsertBatch(m, s, schedule);
    var r := Run(m, false, s, schedule);
    BothSized(m, s, r);
    if !Stored(r.keys, jobs[i].key) {
      assert Outcome(m, r, i);
      FailedPassed(m, r, i);
      var j := LeastRivals(t.c, jobs, i);
      FullOfRivals(m, s, r, jobs[i].key, j);
    }
  }

  lemma LeastRivals(c: Config, jobs: seq<Job>, i: nat) returns (j: nat)
    requires c.nb > 0 && i < |jobs| && Uncrowded(c, Keys(jobs))
    ensures j < 3 && |Rivals(c, Keys(jobs), jobs[i].key, Bucket(c, jobs[i].key, j))| < c.B - 1
  {
    hide Rivals, Bucket;
    assert jobs[i].key in Keys(jobs);
    j :| j < 3 && |Rivals(c, Keys(jobs), jobs[i].key, Bucket(c, jobs[i].key, j))| < c.B - 1;
  }

  lemma FailedPassed(c: Batch, r: State, i: nat)
    requires Sized(c, r) && i < |r.pcs| && Outcome(c, r, i) && !Stored(r.keys, c.jobs[i].key)
    ensures Passed(c.t, r.keys, c.jobs[i].key, 3)
  {
    hide Passed, Stored, Placed;
  }

  /** The bucket of a key that has found no room is full of rivals. */
  lemma FullOfRivals(c: Batch, s: State, r: State, k: int, j: nat)
    requires Through(c, s, r) && OnlyJobs(c.jobs, s.active, s.cnt) && j < 3 && c.t.nb > 0 && Passed(c.t, r.keys, k, 3)
    ensures |Rivals(c.t, Keys(c.jobs), k, Bucket(c.t, k, j))| >= c.t.B - 1
  {
    hide Outcome, Fills, Sum, Apart, Missing, Prefix, Begun, Kept;
    var b := Bucket(c.t, k, j);
    var list := r.keys[b][..c.t.B - 1];
    assert FullRow(c.t, r.keys[b]) && k !in r.keys[b];
    hide Passed;
    forall l: nat | l < |list|
      ensures list[l] in Rivals(c.t, Keys(c.jobs), k, b)
    {
      assert r.keys[b][l] in r.keys[b];
      StoredInserted(c, s, r, b, l);
      KeyIs(c.jobs, list[l]);
      assert Homed(c.t, r.keys, b, l);
    }
    AsMany(list);
    var keys := set m | m in list;
    SubsetSize(keys, Rivals(c.t, Keys(c.jobs), k, b));
  }

  lemma GrownMore(t: Table, size: nat, g: Growth)
    requires Grown(t, size, g)
    ensures Schedules(g.schedule, t.cnt)
  {
  }

  lemma StillOnly(jobs: seq<Job>, t: Table, t': Table)
    requires OnlyJobs(jobs, t.active, t.cnt) && t'.cnt == t.cnt <= |t.active| <= |t'.active|
             && t'.active[..|t.active|] == t.active
    ensures OnlyJobs(jobs, t'.active, t'.cnt)
  {
    hide Inserted;
    assert forall n: nat :: n < t.cnt ==> t'.active[n] == t'.active[..|t.active|][n];
  }

  /** One turn of the loop: a pass, and after a failure a resize for four times as many entries. */
  datatype Turn = Turn(schedule: seq<nat>, passed: Table, growth: Growth, grown: Table)

  /** The turns of the loop from a table on, up to the pass that succeeds, or to one that notes a key
      past the end of the list. */
  ghost predicate Loop(t: Table, jobs: seq<Job>, entries: nat, turns: seq<Turn>)
    requires Resting(t) && Within(t) && Fresh(jobs)
    decreases |turns|
  {
    turns != [] && var u := turns[0];
    Passes(t, jobs, u.schedule, u.passed) &&
    (PassRests(t, jobs, u.schedule, u.passed);
     if |turns| == 1 then u.passed.success || !Within(u.passed)
     else !u.passed.success && Within(u.passed) && Resizes(u.passed, entries * 4, u.growth, u.grown) &&
          (ResizeRests(u.passed, entries * 4, u.growth, u.grown);
           Loop(u.grown, jobs, entries * 4, turns[1..])))
  }

  function Last(turns: seq<Turn>): Table
    requires turns != []
  {
    turns[|turns| - 1].passed
  }

  lemma PassNumbers(t: Table, jobs: seq<Job>, schedule: seq<nat>, t': Table)
    requires Resting(t) && Fresh(jobs) && OnlyJobs(jobs, t.active, t.cnt) && Passes(t, jobs, schedule, t')
    ensures t'.c == t.c && t'.lost == t.lost
    ensures |Keys(jobs)| <= |t'.active| || |t'.lost| <= t'.c.nb ==> Within(t')
    ensures Within(t') ==> OnlyJobs(jobs, t'.active, t'.cnt)
    ensures Within(t') && t'.success ==>
            && t'.lost == {} && Settled(t'.c, t'.keys, t'.indices, t'.active, t'.cnt)
            && Names(jobs, t'.active, t'.cnt)
  {
    hide Partial, Begun, Inv, Run, Finished, Settled, OnlyJobs, Names, Keys, Overran;
    PassBegins(t, jobs);
    KeysNumbered(Batch(t.c, jobs, t.lost), Opened(t, jobs), schedule);
  }

  /** However many passes it takes and whatever is lost on the way, the loop ends with a table at
      rest that has numbered exactly the keys inserted, from 0 without gaps, each key once; unless
      the last pass notes a key past the end of the list. It does not if there are no more different
      keys than slots, or if no more keys are lost than there are buckets. */
  lemma {:induction false} LoopNumbers(t: Table, jobs: seq<Job>, entries: nat, turns: seq<Turn>)
    requires Resting(t) && Within(t) && Fresh(jobs) && OnlyJobs(jobs, t.active, t.cnt) && Loop(t, jobs, entries, turns)
    ensures turns != []
    ensures var u := Last(turns);
            && (|Keys(jobs)| <= |u.active| || |u.lost| <= u.c.nb ==> Within(u))
            && (Within(u) ==> Settled(u.c, u.keys, u.indices, u.active, u.cnt) && Names(jobs, u.active, u.cnt))
    decreases |turns|
  {
    hide Resting, OnlyJobs, Fresh, Passes, Resizes, Settled, Names, Keys;
    var u := turns[0];
    PassRests(t, jobs, u.schedule, u.passed);
    PassNumbers(t, jobs, u.schedule, u.passed);
    if |turns| > 1 {
      ResizeRests(u.passed, entries * 4, u.growth, u.grown);
      StillOnly(jobs, u.passed, u.grown);
      LoopNumbers(u.grown, jobs, entries * 4, turns[1..]);
    }
  }

  // From the boxes to the finished hash.

  function Concat(groups: seq<seq<Cell>>): (all: seq<Cell>)
    ensures forall v :: v in all <==> exists i :: 0 <= i < |groups| && v in groups[i]
  {
    if groups == [] then [] else Concat(groups[..|groups| - 1]) + groups[|groups| - 1]
  }

  /** The cells of every primitive, as the threads of the passes go through them. */
  ghost predicate Grouping(prims: seq<Box>, groups: seq<seq<Cell>>)
  {
    |groups| == |prims| && forall i :: 0 <= i < |prims| ==> SpatialHashes.Enumerates(groups[i], prims[i])
  }

  /** The insertions of a pass; `code` stands for the integer vector of a cell as a key. */
  function CellJobs(groups: seq<seq<Cell>>, code: Cell -> int): (jobs: seq<Job>)
  {
    var all := Concat(groups);
    seq(|all|, i requires 0 <= i < |all| => Job(code(all[i]), NO_INDEX, true))
  }

  ghost predicate CodesOk(groups: seq<seq<Cell>>, code: Cell -> int)
  {
    && (forall v :: v in Concat(groups) ==> code(v) != EMPTY)
    && forall v, w :: v in Concat(groups) && w in Concat(groups) && code(v) == code(w) ==> v == w
  }

  /** The table that `build` starts with, made for a number of entries. */
  function NewTable(hash: (nat, int) -> nat, B: nat, entries: nat): Table
    requires B >= 3
  {
    var size := EvaluateTableSize(entries, B);
    Table(Config(size / B, B, hash), Blank(size / B, B, EMPTY), Blank(size / B, B, 0), seq(size, _ => 0), 0, true, {})
  }

  lemma NewRests(hash: (nat, int) -> nat, B: nat, entries: nat, jobs: seq<Job>)
    requires B >= 3 && entries > 0
    ensures Resting(NewTable(hash, B, entries)) && Within(NewTable(hash, B, entries))
    ensures OnlyJobs(jobs, NewTable(hash, B, entries).active, 0)
  {
    hide Partial, Settled, Blank, EvaluateTableSize;
    var (t, size) := (NewTable(hash, B, entries), EvaluateTableSize(entries, B));
    Whole(size, B);
    BlankSettled(t.c, 0, t.active);
    SettledPartial(t.c, t.keys, t.indices, t.active, 0);
  }

  /** What `query` answers for the cells of every primitive. */
  ghost predicate Looked(u: Table, code: Cell -> int, cells: seq<Cell>, w: seq<nat>)
    requires Resting(u)
  {
    |w| == |cells| && forall k :: 0 <= k < |w| ==> Answer(u, code(cells[k]), w[k])
  }

  ghost predicate Answer(u: Table, key: int, n: nat)
    requires Resting(u)
  {
    PartialShape(u.c, u.keys, u.indices, u.active, u.cnt, u.lost);
    IsMapped(u.keys, u.indices, key, n)
  }

  lemma CellsInserted(groups: seq<seq<Cell>>, code: Cell -> int, key: int)
    ensures Inserted(CellJobs(groups, code), key) <==> exists v :: v in Concat(groups) && code(v) == key
  {
    var (all, jobs) := (Concat(groups), CellJobs(groups, code));
    if Inserted(jobs, key) {
      var i: nat :| InsertedBy(jobs, key, i);
      assert all[i] in all && code(all[i]) == key;
    }
    if v :| v in all && code(v) == key {
      var i: nat :| i < |all| && all[i] == v;
      assert InsertedBy(jobs, key, i);
    }
  }

  /** The cells are numbered by the list of keys. */
  lemma ListNumbers(prims: seq<Box>, groups: seq<seq<Cell>>, code: Cell -> int, active: seq<int>,
      cnt: nat) returns (number: map<Cell, nat>)
    requires Grouping(prims, groups) && CodesOk(groups, code) && Names(CellJobs(groups, code), active, cnt)
    ensures cnt <= |active| && SpatialHashes.Numbers(number, cnt, prims)
    ensures forall v :: v in number ==> number[v] < cnt && active[number[v]] == code(v)
  {
    hide CellJobs, Covers, SpatialHashes.Numbers;
    var cells := set v | v in Concat(groups);
    var list := active[..cnt];
    forall v
      ensures v in cells <==> exists i :: 0 <= i < |prims| && Covers(prims[i], v)
    {
      CellsCovered(prims, groups, v);
    }
    forall v | v in cells
      ensures code(v) in list
    {
      CellsInserted(groups, code, code(v));
    }
    number := CellsNumbered(prims, cells, code, list);
  }

  lemma CellsCovered(prims: seq<Box>, groups: seq<seq<Cell>>, v: Cell)
    requires Grouping(prims, groups)
    ensures v in Concat(groups) <==> exists i :: 0 <= i < |prims| && Covers(prims[i], v)
  {
    hide Covers;
    if v in Concat(groups) {
      var i :| 0 <= i < |groups| && v in groups[i];
      assert Covers(prims[i], v);
    }
    if i :| 0 <= i < |prims| && Covers(prims[i], v) {
      assert v in groups[i];
    }
  }

  /** What the queries answer are the numbers of the cells. */
  lemma LookedWork(prims: seq<Box>, groups: seq<seq<Cell>>, code: Cell -> int, u: Table, number: map<Cell, nat>, i: nat,
      w: seq<nat>)
    requires Grouping(prims, groups) && CodesOk(groups, code) && Settled(u.c, u.keys, u.indices, u.active, u.cnt)
             && Resting(u)
    requires Names(CellJobs(groups, code), u.active, u.cnt) && SpatialHashes.Numbers(number, u.cnt, prims)
    requires forall v :: v in number ==> number[v] < u.cnt <= |u.active| && u.active[number[v]] == code(v)
    requires i < |prims| && Looked(u, code, groups[i], w)
    ensures SpatialHashes.WorkOf(number, prims[i], w) && forall k :: 0 <= k < |w| ==> w[k] < u.cnt
  {
    hide Settled, Resting, Covers, IsMapped, CellJobs, Concat;
    SettledMap(u.c, u.keys, u.indices, u.active, u.cnt);
    var cells := groups[i];
    assert SpatialHashes.Enumerates(cells, prims[i]);
    forall k: nat | k < |w|
      ensures cells[k] in number && w[k] == number[cells[k]]
    {
      CellsCovered(prims, groups, cells[k]);
      assert cells[k] in cells && Covers(prims[i], cells[k]);
      assert cells[k] in number && code(cells[k]) != EMPTY;
      assert Answer(u, code(cells[k]), w[k]);
    }
    forall v | Covers(prims[i], v)
      ensures v in number && number[v] in w
    {
      assert v in cells;
      var k: nat :| k < |cells| && cells[k] == v;
      assert w[k] == number[v];
    }
    forall c | c in w
      ensures exists v :: Covers(prims[i], v) && v in number && number[v] == c
    {
      var k: nat :| k < |w| && w[k] == c;
      assert cells[k] in cells && Covers(prims[i], cells[k]);
    }
  }

  lemma AllLooked(prims: seq<Box>, groups: seq<seq<Cell>>, code: Cell -> int, u: Table, number: map<Cell, nat>,
      work: SpatialFill.Work)
    requires Grouping(prims, groups) && CodesOk(groups, code) && Settled(u.c, u.keys, u.indices, u.active, u.cnt)
             && Resting(u)
    requires Names(CellJobs(groups, code), u.active, u.cnt) && SpatialHashes.Numbers(number, u.cnt, prims)
    requires forall v :: v in number ==> number[v] < u.cnt <= |u.active| && u.active[number[v]] == code(v)
    requires |work| == |prims| && forall i :: 0 <= i < |prims| ==> Looked(u, code, groups[i], work[i])
    ensures SpatialHashes.Works(number, prims, work) && SpatialFill.WorkOk(work, u.cnt)
  {
    hide Settled, Resting, Names, SpatialHashes.Numbers, SpatialHashes.WorkOf, Looked, CellJobs, CodesOk;
    forall i: nat | i < |prims|
      ensures SpatialHashes.WorkOf(number, prims[i], work[i]) && forall k :: 0 <= k < |work[i]| ==> work[i][k] < u.cnt
    {
      LookedWork(prims, groups, code, u, number, i, work[i]);
    }
  }

  lemma CellsFresh(groups: seq<seq<Cell>>, code: Cell -> int)
    requires CodesOk(groups, code)
    ensures Fresh(CellJobs(groups, code))
  {
  }

  /** The numbers of the cells are what the table answers. */
  lemma NumbersMapped(u: Table, code: Cell -> int, number: map<Cell, nat>, v: Cell)
    requires Resting(u) && Settled(u.c, u.keys, u.indices, u.active, u.cnt) && v in number && code(v) != EMPTY
    requires number[v] < u.cnt <= |u.active| && u.active[number[v]] == code(v)
    ensures Answer(u, code(v), number[v])
  {
    hide Settled, Resting;
    SettledMap(u.c, u.keys, u.indices, u.active, u.cnt);
  }

  /** What has been built: every cell of a primitive has a number, which the table answers for it,
      and no other key is in the table; the segment of that number holds exactly the primitives
      that have the cell, each once. */
  ghost predicate HashBuilt(prims: seq<Box>, code: Cell -> int, u: Table, number: map<Cell, nat>, offsets: seq<int>,
      indices: seq<int>)
  {
    && Resting(u) && Within(u) && SpatialHashes.Built(prims, number, offsets, indices)
    && SpatialHashes.Answers(u.keys, u.indices, code, number)
  }

  /** The finished structure as an object: its queries look cells up in the table. */
  method Finish(prims: seq<Box>, code: Cell -> int, u: Table, ghost number: map<Cell, nat>, offsets: seq<int>,
      indices: seq<int>) returns (h: SpatialHashes.SpatialHash)
    requires HashBuilt(prims, code, u, number, offsets, indices) && SpatialHashes.CodeOk(code)
    ensures fresh(h) && h.Valid() && h.prims == prims && h.code == code
  {
    hide Partial, SpatialHashes.Built, SpatialHashes.Answers, SpatialHashes.CodeOk;
    var table := new Bht.Holding(u.c, u.keys, u.indices, u.active, u.cnt, u.success, u.lost);
    h := new SpatialHashes.SpatialHash(table, code, offsets, indices, number, prims);
  }

  /** The loop of `build` up to the pass that succeeds. */
  ghost predicate Looped(hash: (nat, int) -> nat, B: nat, prims: seq<Box>, groups: seq<seq<Cell>>, code: Cell -> int,
      turns: seq<Turn>)
  {
    && B >= 3 && prims != [] && CodesOk(groups, code) && |turns| <= 5
    && (CellsFresh(groups, code);
        NewRests(hash, B, |prims|, CellJobs(groups, code));
        Loop(NewTable(hash, B, |prims|), CellJobs(groups, code), |prims|, turns))
  }

  /** The new table has the success flag set, so with room for all cells and no number near the end the
      loop ends with its first pass, whatever the interleaving. */
  lemma FirstPass(hash: (nat, int) -> nat, B: nat, prims: seq<Box>, groups: seq<seq<Cell>>, code: Cell -> int,
      schedule: seq<nat>, t': Table, g: Growth)
    requires B >= 3 && prims != [] && CodesOk(groups, code)
    requires (CellsFresh(groups, code);
              NewRests(hash, B, |prims|, CellJobs(groups, code));
              Passes(NewTable(hash, B, |prims|), CellJobs(groups, code), schedule, t'))
    requires NewTable(hash, B, |prims|).c.nb > 0
             && Uncrowded(NewTable(hash, B, |prims|).c, Keys(CellJobs(groups, code)))
    requires NoneNear(NewTable(hash, B, |prims|).c, |Keys(CellJobs(groups, code))|)
    ensures Looped(hash, B, prims, groups, code, [Turn(schedule, t', g, t')])
  {
    hide Loop, Resting, OnlyJobs, CodesOk, NewTable, Fresh, CellJobs, Keys, Within, Passes, Uncrowded, NoneNear;
    var (t, jobs) := (NewTable(hash, B, |prims|), CellJobs(groups, code));
    CellsFresh(groups, code);
    NewRests(hash, B, |prims|, jobs);
    NewEmpty(hash, B, |prims|);
    UncrowdedSucceeds(t, jobs, schedule, t', |prims|, g);
  }

  /** The table that the loop leaves. */
  lemma LoopLeaves(hash: (nat, int) -> nat, B: nat, prims: seq<Box>, groups: seq<seq<Cell>>, code: Cell -> int,
      turns: seq<Turn>)
    requires Looped(hash, B, prims, groups, code, turns)
    ensures turns != []
    ensures var u := Last(turns);
            && Resting(u)
            && (|Keys(CellJobs(groups, code))| <= |u.active| || |u.lost| <= u.c.nb ==> Within(u))
            && (Within(u) ==>
                && Settled(u.c, u.keys, u.indices, u.active, u.cnt)
                && Names(CellJobs(groups, code), u.active, u.cnt))
  {
    hide Loop, Resting, OnlyJobs, Settled, Names, CodesOk, NewTable, Fresh, CellJobs, Keys, Within;
    CellsFresh(groups, code);
    NewRests(hash, B, |prims|, CellJobs(groups, code));
    var t := NewTable(hash, B, |prims|);
    NewEmpty(hash, B, |prims|);
    LoopNumbers(t, CellJobs(groups, code), |prims|, turns);
    LastRests(t, CellJobs(groups, code), |prims|, turns);
  }

  lemma NewEmpty(hash: (nat, int) -> nat, B: nat, entries: nat)
    requires B >= 3
    ensures NewTable(hash, B, entries).cnt == 0 && NewTable(hash, B, entries).success
  {
  }

  lemma {:induction false} LastRests(t: Table, jobs: seq<Job>, entries: nat, turns: seq<Turn>)
    requires Resting(t) && Within(t) && Fresh(jobs) && Loop(t, jobs, entries, turns)
    ensures turns != [] && Resting(Last(turns))
    decreases |turns|
  {
    hide Resting, Fresh, Passes, Resizes;
    var u := turns[0];
    PassRests(t, jobs, u.schedule, u.passed);
    if |turns| > 1 {
      ResizeRests(u.passed, entries * 4, u.growth, u.grown);
      LastRests(u.grown, jobs, entries * 4, turns[1..]);
    }
  }

  /** The loop is through with no key noted past the end of the list, and `work` are the answers to
      the lookups of the passes that follow. */
  ghost predicate Prepared(hash: (nat, int) -> nat, B: nat, prims: seq<Box>, groups: seq<seq<Cell>>, code: Cell -> int,
      turns: seq<Turn>, work: SpatialFill.Work)
  {
    && Grouping(prims, groups) && Looped(hash, B, prims, groups, code, turns)
    && (LoopLeaves(hash, B, prims, groups, code, turns);
        && Within(Last(turns)) && |work| == |prims|
        && forall i :: 0 <= i < |prims| ==> Looked(Last(turns), code, groups[i], work[i]))
  }

  /** The answers are the numbers of the cells in some numbering. */
  lemma PreparedWork(hash: (nat, int) -> nat, B: nat, prims: seq<Box>, groups: seq<seq<Cell>>, code: Cell -> int,
      turns: seq<Turn>, work: SpatialFill.Work)
    returns (number: map<Cell, nat>)
    requires Prepared(hash, B, prims, groups, code, turns, work)
    ensures turns != [] && Resting(Last(turns)) && |work| == |prims| && SpatialFill.WorkOk(work, Last(turns).cnt)
    ensures SpatialHashes.Numbers(number, Last(turns).cnt, prims) && SpatialHashes.Works(number, prims, work)
    ensures Within(Last(turns)) && SpatialHashes.Answers(Last(turns).keys, Last(turns).indices, code, number)
  {
    hide Looped, Resting, Settled, Names, SpatialHashes.Numbers, SpatialHashes.Works, SpatialFill.WorkOk, Looked,
        CellJobs, Answer, CodesOk, Grouping;
    LoopLeaves(hash, B, prims, groups, code, turns);
    LoopedCodes(hash, B, prims, groups, code, turns);
    var u := Last(turns);
    number := ListNumbers(prims, groups, code, u.active, u.cnt);
    AllLooked(prims, groups, code, u, number, work);
    forall v | v in number
      ensures Answer(u, code(v), number[v])
    {
      NumberedCode(prims, groups, code, number, u.cnt, v);
      NumbersMapped(u, code, number, v);
    }
    AllAnswered(prims, groups, code, u, number);
  }

  /** A key in the table is that of a cell. */
  lemma AllAnswered(prims: seq<Box>, groups: seq<seq<Cell>>, code: Cell -> int, u: Table, number: map<Cell, nat>)
    requires Grouping(prims, groups) && SpatialHashes.Numbers(number, u.cnt, prims) && Resting(u)
    requires Settled(u.c, u.keys, u.indices, u.active, u.cnt) && Names(CellJobs(groups, code), u.active, u.cnt)
    requires forall v :: v in number ==> Answer(u, code(v), number[v])
    ensures Within(u) && SpatialHashes.Answers(u.keys, u.indices, code, number)
  {
    hide Settled, Resting, Covers, IsMapped, CellJobs, Concat, Stored, Grouping;
    SettledShape(u.c, u.keys, u.indices, u.active, u.cnt);
    SettledMap(u.c, u.keys, u.indices, u.active, u.cnt);
    forall key | key != EMPTY && Stored(u.keys, key)
      ensures SpatialHashes.CodeOf(code, number, key)
    {
      var n := StoredMapped(u.c, u.keys, u.indices, key);
      assert u.active[..u.cnt][n] == key;
      CellsInserted(groups, code, key);
      var v :| v in Concat(groups) && code(v) == key;
      CellsCovered(prims, groups, v);
    }
  }

  lemma PreparedFits(hash: (nat, int) -> nat, B: nat, prims: seq<Box>, groups: seq<seq<Cell>>, code: Cell -> int,
      turns: seq<Turn>, work: SpatialFill.Work)
    requires Prepared(hash, B, prims, groups, code, turns, work)
    ensures turns != [] && |work| == |prims| && SpatialFill.WorkOk(work, Last(turns).cnt)
  {
    hide *;
    var number := PreparedWork(hash, B, prims, groups, code, turns, work);
  }

  /** Counting pass, scan, and the arrays as the filling pass finds them. */
  ghost predicate Counts(work: SpatialFill.Work, n: nat, counting: seq<nat>, offsets: seq<int>, s: SpatialFill.Filling)
    requires SpatialFill.WorkOk(work, n)
  {
    Schedules(counting, |work|) &&
    var r := SpatialFill.CountPass(work, n, counting);
    && SpatialFill.Counted(work, r) && SpatialFill.Scanned(offsets, r.counts) && s.counts == r.counts && n < |offsets|
    && |s.slots| == offsets[n] && s.pcs == seq(|work|, _ => SpatialFill.Draw(0)) && s.nos == seq(|work|, _ => [])
  }

  /** `build` as a whole. From the boxes: the cells of every primitive are inserted, at most five
      times with a resize after each failure, then looked up, counted, scanned and filled in, every
      pass in any interleaving of its threads. The result is a spatial hash over the boxes. */
  lemma BuildHash(hash: (nat, int) -> nat, B: nat, prims: seq<Box>, groups: seq<seq<Cell>>, code: Cell -> int,
      turns: seq<Turn>,
                  work: SpatialFill.Work, counting: seq<nat>, offsets: seq<int>, s: SpatialFill.Filling,
                      filling: seq<nat>)
    requires Prepared(hash, B, prims, groups, code, turns, work)
    requires (PreparedFits(hash, B, prims, groups, code, turns, work);
              Counts(work, Last(turns).cnt, counting, offsets, s) && Schedules(filling, |work|))
    ensures turns != [] && SpatialFill.FillInv(work, Last(turns).cnt, s)
    ensures var r := SpatialFill.FillRun(work, Last(turns).cnt, s, filling);
            SpatialFill.Finished(work, r) ==>
                exists number :: HashBuilt(prims, code, Last(turns), number, offsets, r.slots)
  {
    hide Prepared, Resting, SpatialHashes.Numbers, SpatialHashes.Built, SpatialHashes.Works, SpatialFill.WorkOk, Answer,
        SpatialFill.CountPass, SpatialFill.FillRun;
    var number := PreparedWork(hash, B, prims, groups, code, turns, work);
    var n := Last(turns).cnt;
    SpatialHashes.BuildGroups(prims, number, n, work, counting, offsets, s, filling);
    var r := SpatialFill.FillRun(work, n, s, filling);
    if SpatialFill.Finished(work, r) {
      assert HashBuilt(prims, code, Last(turns), number, offsets, r.slots);
    }
  }

  lemma LoopedCodes(hash: (nat, int) -> nat, B: nat, prims: seq<Box>, groups: seq<seq<Cell>>, code: Cell -> int,
      turns: seq<Turn>)
    requires Looped(hash, B, prims, groups, code, turns)
    ensures CodesOk(groups, code)
  {
  }

  lemma NumberedCode(prims: seq<Box>, groups: seq<seq<Cell>>, code: Cell -> int, number: map<Cell, nat>, n: nat,
      v: Cell)
    requires Grouping(prims, groups) && CodesOk(groups, code) && SpatialHashes.Numbers(number, n, prims) && v in number
    ensures code(v) != EMPTY
  {
    hide Covers;
    CellsCovered(prims, groups, v);
  }

  // The retries for a single primitive.

  /** With more different keys than a table has slots for, a pass leaves the success flag cleared. */
  lemma CrowdedFails(t: Table, jobs: seq<Job>, schedule: seq<nat>, t': Table)
    requires Resting(t) && Fresh(jobs) && OnlyJobs(jobs, t.active, t.cnt) && Passes(t, jobs, schedule, t')
    requires |Keys(jobs)| > TableSize(t.c) - t.c.nb
    ensures !t'.success || !Within(t')
  {
    hide Partial, Settled, Names, OnlyJobs, Passes, Keys, Fresh, TableOk, Fills;
    PassNumbers(t, jobs, schedule, t');
    if t'.success && Within(t') {
      SettledShape(t'.c, t'.keys, t'.indices, t'.active, t'.cnt);
      FillBound(t'.c, t'.keys);
      NamedAll(jobs, t'.active, t'.cnt);
    }
  }

  lemma NamedAll(jobs: seq<Job>, active: seq<int>, cnt: int)
    requires Names(jobs, active, cnt) && Fresh(jobs)
    ensures |Keys(jobs)| <= cnt
  {
    var listed := set k | k in active[..cnt];
    forall k | k in Keys(jobs)
      ensures k in listed
    {
      var i: nat :| i < |jobs| && jobs[i].key == k;
      assert InsertedBy(jobs, k, i);
    }
    AsMany(active[..cnt]);
    SubsetSize(Keys(jobs), listed);
  }

  /** For a single primitive the first retry has the table of the first pass, with the success flag
      still cleared, so the loop never ends with it. */
  lemma RetryInVain(hash: (nat, int) -> nat, prims: seq<Box>, groups: seq<seq<Cell>>, code: Cell -> int,
      turns: seq<Turn>)
    requires Looped(hash, 16, prims, groups, code, turns) && |prims| == 1
    ensures |turns| != 2
  {
    hide Resting, OnlyJobs, Passes, Names, Settled, CodesOk, CellJobs, NewTable, Fresh, EvaluateTableSize, Keys;
    var (t, jobs) := (NewTable(hash, 16, 1), CellJobs(groups, code));
    CellsFresh(groups, code);
    NewRests(hash, 16, 1, jobs);
    NewIs(hash, 16, 1);
    if |turns| == 2 {
      var (u, v) := (turns[0], turns[1]);
      PassRests(t, jobs, u.schedule, u.passed);
      PassNumbers(t, jobs, u.schedule, u.passed);
      RetryGrows(1);
      SameSize(t, u.passed);
      assert u.grown == u.passed;
      assert turns[1..] == [v] && Loop(u.grown, jobs, 4, turns[1..]);
      PassNumbers(u.grown, jobs, v.schedule, v.passed);
      StaysCleared(u.grown, jobs, v.schedule, v.passed);
    }
  }

  lemma NewIs(hash: (nat, int) -> nat, B: nat, entries: nat)
    requires B >= 3
    ensures var t := NewTable(hash, B, entries);
            && t.lost == {} && t.cnt == 0 && t.c.B == B && TableSize(t.c) == EvaluateTableSize(entries, B)
            && (entries == 1 && B == 16 ==> t.c.nb == 1)
  {
    hide EvaluateTableSize;
    Whole(EvaluateTableSize(entries, B), B);
    OneEntry();
  }

  lemma OneEntry()
    ensures EvaluateTableSize(1, 16) == 16
  {
    assert CeilLog2(1) == 0;
  }

  lemma SameSize(t: Table, t': Table)
    requires t'.c == t.c
    ensures TableSize(t'.c) == TableSize(t.c) && t'.c.B == t.c.B
  {
  }

  /** A box with sixteen cells. */
  function LongBox(): Box
  {
    Boxes.Box([0.0], [16.0])
  }

  /** An input: a single box with sixteen cells. The first table has one bucket, which takes fifteen
      keys, so the first pass fails, whatever the hash and the interleaving, and the first retry with
      it: at least three passes are needed. */
  lemma SixteenCells(hash: (nat, int) -> nat, groups: seq<seq<Cell>>, code: Cell -> int, turns: seq<Turn>)
    requires Grouping([LongBox()], groups) && Looped(hash, 16, [LongBox()], groups, code, turns)
    ensures |turns| >= 3
  {
    hide Resting, OnlyJobs, Passes, Names, Settled, CodesOk, CellJobs, NewTable, Fresh, Keys, LongBox, Grouping;
    var (t, jobs) := (NewTable(hash, 16, 1), CellJobs(groups, code));
    RetryInVain(hash, [LongBox()], groups, code, turns);
    CellsFresh(groups, code);
    NewRests(hash, 16, 1, jobs);
    NewIs(hash, 16, 1);
    LongKeys(groups, code);
    if |turns| == 1 {
      CrowdedFails(t, jobs, turns[0].schedule, turns[0].passed);
      PassNumbers(t, jobs, turns[0].schedule, turns[0].passed);
    }
  }

  lemma LongCovers(n: nat)
    requires n < 16
    ensures Covers(LongBox(), [n])
  {
    assert LongBox().lo[0].Floor == 0 && Ceil(LongBox().hi[0]) == 16;
  }

  /** The insertions for the box have sixteen different keys. */
  lemma LongKeys(groups: seq<seq<Cell>>, code: Cell -> int)
    requires Grouping([LongBox()], groups) && CodesOk(groups, code)
    ensures |Keys(CellJobs(groups, code))| >= 16
  {
    hide CellJobs, Keys, Covers, LongBox, Concat;
    var list := seq(16, n => code([n]));
    forall n: nat | n < 16
      ensures [n] in Concat(groups) && list[n] in Keys(CellJobs(groups, code))
    {
      var v: Cell := [n];
      LongCovers(n);
      assert Covers([LongBox()][0], v);
      CellsCovered([LongBox()], groups, v);
      assert v in Concat(groups);
      CellsInserted(groups, code, code(v));
      KeyIs(CellJobs(groups, code), list[n]);
    }
    forall m, n | 0 <= m < n < 16
      ensures list[m] != list[n]
    {
      assert [m] != [n];
    }
    AsMany(list);
    var keys := set k | k in list;
    SubsetSize(keys, Keys(CellJobs(groups, code)));
  }

  lemma KeyIs(jobs: seq<Job>, key: int)
    requires Inserted(jobs, key)
    ensures key in Keys(jobs)
  {
    var i: nat :| InsertedBy(jobs, key, i);
  }
}
