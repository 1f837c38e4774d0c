/** The hash table `bht` as an object: lookup, insertion, growth and reordering in place. */
module BhtTable {
  import opened Buckets
  import opened BhtInsert
  import opened Sums
  import opened WordBits

  const FAILURE := -0x8000_0000

  datatype Place = Nowhere | At(b: nat, l: nat)

  datatype Verdict = Here | Took | NoRoom

  /** `evaluateTableSize`. */
  function EvaluateTableSize(entryCnt: nat, B: nat): (n: nat)
    requires B >= 3
    ensures n % B == 0
    ensures entryCnt > 0 ==> n >= 2 * entryCnt + 1
    ensures entryCnt == 0 ==> n == 0
  {
    if entryCnt == 0 then 0
    else
      var n := Pow2(CeilLog2(entryCnt)) * 2;
      Multiple(n, B);
      n + (B - n % B)
  }

  /** Even if every bucket keeps its last slot free, the entries expected fit into the table. */
  lemma Roomy(entryCnt: nat, B: nat)
    requires B >= 3 && entryCnt > 0
    ensures var n := EvaluateTableSize(entryCnt, B); (n / B) * (B - 1) >= entryCnt
  {
    var m := Pow2(CeilLog2(entryCnt)) * 2;
    Multiple(m, B);
    Spare(m / B + 1, B, entryCnt);
  }

  lemma Spare(q: nat, B: nat, e: nat)
    requires B >= 3 && q * B >= 2 * e + 1
    ensures q * (B - 1) >= e
  {
    assert q * (B - 1) == q * B - q;
    assert q * (B - 3) == q * B - 3 * q && q * (B - 3) >= 0;
  }

  lemma NoRows(B: nat)
    ensures Blank(0, B, EMPTY) == [] && Blank(0, B, 0) == []
    ensures forall key :: !Stored([], key)
  {
  }

  lemma BlankSettled(c: Config, x: int, active: seq<int>)
    requires c.nb > 0 && c.B >= 3 && |active| == TableSize(c)
    ensures Settled(c, Blank(c.nb, c.B, EMPTY), Blank(c.nb, c.B, x), active, 0) && Cleared(Blank(c.nb, c.B, EMPTY))
    ensures forall key :: key != EMPTY ==> !Stored(Blank(c.nb, c.B, EMPTY), key)
  {
    hide Fill, Prefix, Homed;
    ClearedOk(c, Blank(c.nb, c.B, EMPTY));
    hide TableOk;
  }

  class Bht {
    const B: nat
    const hash: (nat, int) -> nat
    var nb: nat
    var keys: seq<seq<int>>
    var indices: seq<seq<int>>
    var active: seq<int>
    var cnt: int
    var success: bool
    ghost var lost: set<nat>

    ghost function Cfg(): Config
      reads this
    {
      Config(nb, B, hash)
    }

    /** At rest; `lost` are the numbers of the listed keys for which a rebuild found no room. */
    ghost predicate Valid()
      reads this
    {
      && B >= 3
      && if nb == 0 then keys == [] && indices == [] && active == [] && cnt == 0 && lost == {}
         else Partial(Cfg(), keys, indices, active, cnt, lost) && cnt <= |active|
    }

    constructor (B: nat, hash: (nat, int) -> nat, expected: nat)
      requires B >= 3
      ensures Valid() && cnt == 0 && lost == {} && success && nb * B == EvaluateTableSize(expected, B)
      ensures this.B == B && this.hash == hash
      ensures forall key :: key != EMPTY ==> !Stored(keys, key)
    {
      this.B, this.hash := B, hash;
      var size := EvaluateTableSize(expected, B);
      nb := size / B;
      keys := Blank(size / B, B, EMPTY);
      indices := Blank(size / B, B, 0);
      active := seq(size, _ => 0);
      cnt := 0;
      success := true;
      lost := {};
      new;
      hide Settled, Partial, Blank, Cleared;
      Whole(size, B);
      if nb > 0 {
        BlankSettled(Cfg(), 0, active);
        SettledPartial(Cfg(), keys, indices, active, 0);
      } else {
        NoRows(B);
      }
    }

    /** A table taken over as it is. */
    constructor Holding(c: Config, keys: seq<seq<int>>, indices: seq<seq<int>>, active: seq<int>, cnt: int,
        success: bool, ghost lost: set<nat>)
      requires Partial(c, keys, indices, active, cnt, lost) && cnt <= |active|
      ensures Valid() && Cfg() == c && Same(keys, indices, active, cnt) && this.success == success && this.lost == lost
    {
      this.B, this.hash, nb := c.B, c.hash, c.nb;
      this.keys, this.indices, this.active, this.cnt := keys, indices, active, cnt;
      this.success, this.lost := success, lost;
    }

    /** The slot of a key: all slots of its three buckets are looked at. */
    method Find(key: int) returns (at: Place)
      requires B >= 3 && if nb == 0 then keys == [] else Grid(Cfg(), keys) && TableOk(Cfg(), keys)
      ensures at.At? ==>
              at.b < nb && at.l < B && Slot(Cfg(), at.b, at.l) && Grid(Cfg(), keys) && keys[at.b][at.l] == key
      ensures key != EMPTY ==> (at.Nowhere? <==> !Stored(keys, key))
    {
      hide TableOk;
      if nb == 0 {
        return Nowhere;
      }
      var iter := 0;
      var b := hash(0, key) % nb;
      while iter < 3
        invariant iter < 3 ==> b == Bucket(Cfg(), key, iter)
        invariant iter <= 3 && forall j: nat :: j < iter ==> key !in keys[Bucket(Cfg(), key, j)]
      {
        var loc := 0;
        while loc != B && keys[b][loc] != key
          invariant loc <= B && forall l :: 0 <= l < loc ==> keys[b][l] != key
          decreases B - loc
        {
          loc := loc + 1;
        }
        if loc != B {
          assert key in keys[b];
          return At(b, loc);
        }
        iter := iter + 1;
        b := hash(iter, key) % nb;
      }
      if key != EMPTY {
        NotFound(Cfg(), keys, key);
      }
      return Nowhere;
    }

    lemma Shape()
      requires Valid()
      ensures if nb == 0 then keys == [] else Grid(Cfg(), keys) && Grid(Cfg(), indices) && TableOk(Cfg(), keys)
    {
    }

    lemma LostAbsent()
      requires Valid()
      ensures forall n :: n in lost ==> n < cnt && n < |active| && active[n] != EMPTY && !Stored(keys, active[n])
    {
      if nb > 0 {
        LostKeys(Cfg(), keys, indices, active, cnt, lost);
      }
    }

    /** `query`: the number of a key, -1 if it is not there. */
    method Query(key: int) returns (no: int)
      requires Valid()
      ensures key != EMPTY ==>
                && (if Stored(keys, key) then
                    0 <= no < cnt && no < |active| && no !in lost && active[no] == key
                        && IsMapped(keys, indices, key, no)
                    else no == -1)
                && forall n :: IsMapped(keys, indices, key, n) ==> n == no
      ensures forall n :: n in lost ==> n < |active| && (active[n] == key ==> no == -1)
    {
      Shape();
      LostAbsent();
      var at := Find(key);
      if at.Nowhere? {
        if key != EMPTY {
          Unmapped(key);
        }
        return -1;
      }
      no := indices[at.b][at.l];
      if key != EMPTY {
        InRow(keys, at.b, at.l);
        MappedOnce(key, at.b, at.l);
      }
    }

    /** The probing loop of `insert`, run by one thread alone: the compare-and-swap then succeeds. */
    method Claim(key: int) returns (v: Verdict, b: nat, l: nat)
      requires nb > 0 && B >= 3 && Grid(Cfg(), keys) && TableOk(Cfg(), keys) && key != EMPTY
      modifies this`keys
      ensures v.Here? <==> Stored(old(keys), key)
      ensures !v.Took? ==> keys == old(keys)
      ensures v.Took? ==>
                && Slot(Cfg(), b, l) && old(Grid(Cfg(), keys)) && old(keys)[b][l] == EMPTY
                    && keys == Put(old(keys), b, l, key)
                && Grid(Cfg(), keys) && TableOk(Cfg(), keys) && Sum(Fills(keys)) == old(Sum(Fills(keys))) + 1
      ensures v.NoRoom? <==> !Stored(keys, key)
      ensures v.NoRoom? ==> Grid(Cfg(), keys) && Passed(Cfg(), keys, key, 3)
      ensures v.Took? ==> !Passed(Cfg(), old(keys), key, 3)
    {
      hide TableOk, Fill, Passed, Behind;
      ghost var c := Cfg();
      PassedNone(c, keys, key);
      var iter := 0;
      b, l := hash(0, key) % nb, 0;
      while iter < 3
        invariant keys == old(keys) && iter <= 3 && Passed(c, keys, key, iter)
        invariant iter < 3 ==> b == Bucket(c, key, iter)
      {
        l := 0;
        BehindNone(keys[b], key);
        RowOk(c, keys, b);
        while l != B && keys[b][l] != key && keys[b][l] != EMPTY
          invariant keys == old(keys) && l <= B && Behind(keys[b], key, l)
          decreases B - l
        {
          BehindMore(keys[b], key, l);
          l := l + 1;
        }
        LastFree(c, keys, b, key, l);
        if keys[b][l] == key {
          InRow(keys, b, l);
          return Here, b, l;
        }
        if l <= B - 2 {
          Absent(c, keys, key, iter, l);
          CasTable(c, keys, key, iter, l);
          FillGrows(c, keys, key, iter, l);
          keys := Put(keys, b, l, key);
          InRow(keys, b, l);
          return Took, b, l;
        }
        Further(c, keys, key, iter, l);
        iter := iter + 1;
        b := hash(iter, key) % nb;
      }
      PassedAll(c, keys, key);
      return NoRoom, 0, 0;
    }

    /** `insert(key)` on a table at rest: a new key gets the next number; a known key changes
        nothing, nor does a key whose three buckets are full. The code notes the key past the end of
        the list exactly if the counter has reached the end, the key is not there and one of its
        buckets has room. */
    method Insert(key: int) returns (no: int, overrun: bool)
      requires Valid() && key != EMPTY
      modifies this`keys, this`indices, this`active, this`cnt, this`success
      ensures !overrun ==> Valid()
      ensures nb > 0 ==> Partial(Cfg(), keys, indices, active, cnt, lost)
      ensures overrun <==>
                nb > 0 && old(cnt) >= |active| && !Stored(old(keys), key) && !Passed(Cfg(), old(keys), key, 3)
      ensures !Stored(keys, key) <==> !Stored(old(keys), key) && (nb > 0 ==> Passed(Cfg(), old(keys), key, 3))
      ensures Stored(old(keys), key) || !Stored(keys, key) ==>
                Same(old(keys), old(indices), old(active), old(cnt)) && no == if Stored(old(keys), key) then -1
                    else FAILURE
      ensures forall n :: n in lost ==> n < |active| && (active[n] == key ==> no == FAILURE)
      ensures !Stored(old(keys), key) && Stored(keys, key) ==>
                && cnt == old(cnt) + 1 && IsMapped(keys, indices, key, old(cnt))
                && no == (if TooNear(Cfg(), old(cnt)) && !overrun then FAILURE else old(cnt))
                && (exists b: nat, l: nat :: Filled(old(keys), old(indices), key, old(cnt), b, l))
                && forall k, n :: k != key && k != EMPTY ==>
                    (IsMapped(keys, indices, k, n) <==> IsMapped(old(keys), old(indices), k, n))
      ensures success == (old(success) && (nb > 0 ==>
              Stored(old(keys), key) || (Stored(keys, key) && (overrun || !TooNear(Cfg(), old(cnt))))))
    {
      hide TooNear, TableOk, Passed, Partial, Settled, IsMapped, Stored, Fills, Sum, Grid, TableSize;
      if nb == 0 {
        NoRows(B);
        return FAILURE, false;
      }
      ghost var (c, k, i, a, n) := (Cfg(), keys, indices, active, cnt);
      PartialShape(c, k, i, a, n, lost);
      LostKeys(c, k, i, a, n, lost);
      no, overrun := InsertAt(key, NO_INDEX, true);
      if !Stored(k, key) && Stored(keys, key) {
        var b: nat, l: nat :| Filled(k, i, key, n, b, l);
        FilledPartial(c, k, i, a, n, lost, key, b, l);
        FilledMaps(c, k, i, key, n, b, l);
      }
      assert Partial(Cfg(), keys, indices, active, cnt, lost);
    }

    /** `insert(key, index, enqueue)`: the new number, -1 for a key that is there, or failure if
        its three buckets are full; the key is noted under its number, wherever that is. */
    method InsertAt(key: int, index: int, enqueue: bool) returns (no: int, overrun: bool)
      requires nb > 0 && B >= 3 && Grid(Cfg(), keys) && Grid(Cfg(), indices) && TableOk(Cfg(), keys) && key != EMPTY
      modifies this`keys, this`indices, this`active, this`cnt, this`success
      ensures Grid(Cfg(), keys) && Grid(Cfg(), indices) && TableOk(Cfg(), keys)
      ensures Stored(old(keys), key) ==>
              no == -1 && Same(old(keys), old(indices), old(active), old(cnt)) && success == old(success)
      ensures !Stored(keys, key) ==> no == FAILURE && Same(old(keys), old(indices), old(active), old(cnt)) && !success
      ensures !Stored(keys, key) <==> !Stored(old(keys), key) && Passed(Cfg(), old(keys), key, 3)
      ensures var local := if index == NO_INDEX then old(cnt) else index;
              && (overrun <==> !Stored(old(keys), key) && Stored(keys, key) && enqueue && !(0 <= local < |old(active)|))
              && (!Stored(old(keys), key) && Stored(keys, key) ==>
                && (exists b: nat, l: nat :: Filled(old(keys), old(indices), key, local, b, l))
                && Sum(Fills(keys)) == old(Sum(Fills(keys))) + 1
                && active == (if enqueue && 0 <= local < |old(active)| then old(active)[local := key] else old(active))
                && cnt == (if index == NO_INDEX then old(cnt) + 1 else old(cnt))
                && success == (old(success) && (overrun || !TooNear(Cfg(), local)))
                && no == if TooNear(Cfg(), local) && !overrun then FAILURE else local)
    {
      hide TableOk, Fill, TooNear, Passed;
      var v, b, l := Claim(key);
      overrun := false;
      if v.Here? {
        return -1, false;
      }
      if v.NoRoom? {
        success := false;
        return FAILURE, false;
      }
      no := index;
      if index == NO_INDEX {
        no := cnt;
        cnt := cnt + 1;
      }
      ghost var local := no;
      PutGrid(Cfg(), indices, b, l, no);
      indices := Put(indices, b, l, no);
      StoredPut(old(keys), b, l, key);
      if enqueue {
        if !(0 <= no < |active|) {
          assert Filled(old(keys), old(indices), key, local, b, l);
          return no, true;
        }
        active := active[no := key];
      }
      var near := Near(no);
      if near {
        success := false;
        no := FAILURE;
      }
      assert Filled(old(keys), old(indices), key, local, b, l);
    }

    predicate Near(no: int)
      reads this
      ensures Near(no) <==> TooNear(Cfg(), no)
    {
      TooNear(Config(nb, B, hash), no)
    }

    ghost predicate Same(k: seq<seq<int>>, i: seq<seq<int>>, a: seq<int>, n: int)
      reads this
    {
      keys == k && indices == i && active == a && cnt == n
    }

    /** The new entry took a free slot, and nothing else moved. */
    ghost predicate Filled(k: seq<seq<int>>, i: seq<seq<int>>, key: int, no: int, b: nat, l: nat)
      reads this
    {
      && Grid(Cfg(), k) && Grid(Cfg(), i) && Slot(Cfg(), b, l) && k[b][l] == EMPTY
      && keys == Put(k, b, l, key) && indices == Put(i, b, l, no)
    }

    /** `resize`: a larger table, filled again from the noted keys. Every noted key has its number, but
        for the keys now lost: their three buckets are full of other keys. The success flag stays set
        exactly if no key is lost and no number is too near the end. */
    method Resize(newCapacity: nat)
      requires Valid()
      modifies this
      ensures Valid() && cnt == old(cnt)
      ensures nb * B == if EvaluateTableSize(newCapacity, B) <= old(nb * B) then old(nb * B)
              else EvaluateTableSize(newCapacity, B)
      ensures nb * B == old(nb * B) ==>
              lost == old(lost) && Same(old(keys), old(indices), old(active), old(cnt)) && success == old(success)
      ensures nb * B > old(nb * B) ==>
              nb > 0 && Partial(Cfg(), keys, indices, active, cnt, lost)
                  && (success <==> lost == {} && NoneNear(Cfg(), cnt))
      ensures |active| >= cnt && |old(active)| >= cnt && active[..cnt] == old(active)[..cnt]
      ensures forall key, n :: key != EMPTY ==>
              (IsMapped(keys, indices, key, n) <==>
               0 <= n < cnt && n !in lost && n < |old(active)| && old(active)[n] == key)
      ensures forall key, n :: key != EMPTY && IsMapped(old(keys), old(indices), key, n) && n !in lost ==>
              IsMapped(keys, indices, key, n)
    {
      hide Settled, Partial, TooNear, TableOk, Blank, Cleared, Grid, IsMapped, Stored, Fills, Sum, Passed, NoneNear;
      ghost var (c0, k0, i0, a0, l0) := (Cfg(), keys, indices, active, lost);
      var size := EvaluateTableSize(newCapacity, B);
      Bounds();
      MapIs(c0, k0, i0, a0, cnt, l0, nb > 0);
      if size <= nb * B {
        return;
      }
      Whole(size, B);
      var was := nb;
      nb := size / B;
      keys := Blank(nb, B, EMPTY);
      indices := Blank(nb, B, 0);
      success := true;
      lost := {};
      active := active + seq(size - |active|, _ => 0);
      BlankSettled(Cfg(), 0, active);
      SettledPartial(Cfg(), keys, indices, active, 0);
      NoneYet(Cfg());
      var k := 0;
      while k < cnt
        invariant 0 <= k <= cnt == old(cnt) <= |a0| && nb * B == size && |active| == size && nb > 0
        invariant cnt <= |active| && active[..cnt] == a0[..cnt]
        invariant Partial(Cfg(), keys, indices, active, k, lost) && (success <==> lost == {} && NoneNear(Cfg(), k))
      {
        KeyNoted(c0, k0, i0, a0, cnt, l0, k);
        SameKeys(a0, active, cnt, k);
        Restore(k);
        k := k + 1;
      }
      MapIs(Cfg(), keys, indices, active, cnt, lost, true);
      SamePrefix(a0, active, cnt);
    }

    /** The body of the loop of `resize` for a listed key that is not there yet. */
    method Restore(k: nat)
      requires nb > 0 && Partial(Cfg(), keys, indices, active, k, lost)
               && (success <==> lost == {} && NoneNear(Cfg(), k))
      requires k < |active| && active[k] != EMPTY && forall m: nat :: m < k ==> active[m] != active[k]
      modifies this`keys, this`indices, this`active, this`cnt, this`success, this`lost
      ensures Partial(Cfg(), keys, indices, active, k + 1, lost)
              && (success <==> lost == {} && NoneNear(Cfg(), k + 1))
      ensures cnt == old(cnt) && active == old(active)
    {
      hide Partial, TooNear, TableOk, Grid, Stored, Fills, Sum, Passed, NoneNear;
      ghost var (c, k1, i1) := (Cfg(), keys, indices);
      PartialShape(c, k1, i1, active, k, lost);
      KeyNew(c, k1, i1, active, k, lost);
      NearNext(c, k);
      ghost var key := active[k];
      var no, overrun := InsertAt(active[k], k, false);
      if Stored(keys, key) {
        ghost var b: nat, l: nat :| Filled(k1, i1, key, k, b, l);
        assert active[k := key] == active;
        FilledPartial(c, k1, i1, active, k, lost, key, b, l);
      } else {
        LostPartial(c, k1, i1, active, k, lost);
        lost := lost + {k};
      }
    }

    /** `reorder`: renumbers every key by a permutation. Gathering, entry `i` is the old entry
        `map[i]`; scattering, old entry `i` becomes entry `map[i]`. The parallel loop may take
        the entries in any order. The success flag is cleared exactly if a key is lost. */
    method Reorder(map_: seq<nat>, scatter: bool, order: seq<nat>)
      requires Valid() && Permutes(map_, cnt) && Permutes(order, cnt)
      modifies this`indices, this`active, this`success, this`lost
      ensures Valid() && |active| == |old(active)| && cnt <= |active|
      ensures success == (old(success) && old(lost) == {})
      ensures forall i: nat :: i < cnt ==>
                && active[To(map_, scatter, i)] == old(active)[From(map_, scatter, i)]
                && (To(map_, scatter, i) in lost <==> From(map_, scatter, i) in old(lost))
    {
      hide Partial, TableOk, Grid, Halfway, Moved, Permutes, From, To, NoneLost, Renumbered, IsMapped;
      NoneLostStart(lost, map_, scatter);
      Bounds();
      Shape();
      ghost var i0, a0, l0 := indices, active, lost;
      Starts(map_, order, cnt);
      var ordered: seq<int> := seq(|active|, _ => 0);
      if nb > 0 {
        NotYet(Cfg(), keys, i0, map_, scatter);
      }
      var k := 0;
      while k < cnt
        invariant 0 <= k <= cnt == |order| == |map_| && |ordered| == |active| && active == a0 && cnt <= |active|
        invariant lost == l0
        invariant nb > 0 ==> Grid(Cfg(), indices) && Halfway(Cfg(), keys, i0, indices, map_, scatter, order[..k])
        invariant success == (old(success) && NoneLost(lost, map_, scatter, order[..k])) && (nb == 0 ==> indices == i0)
        invariant Moved(a0, ordered, map_, scatter, order[..k])
      {
        MovedOne(a0, ordered, map_, scatter, order, cnt, k);
        InBounds(map_, order, cnt, k);
        NoneLostNext(lost, map_, scatter, order, k);
        ordered := Renumber(ordered, map_, scatter, order[k], order, k, i0);
        k := k + 1;
      }
      assert order[..cnt] == order;
      active := ordered;
      AllMoved(a0, ordered, map_, scatter, order, cnt);
      if nb > 0 {
        NoneLostAtAll(Cfg(), keys, i0, a0, cnt, lost, map_, scatter, order);
        Reordered(Cfg(), keys, i0, a0, indices, ordered, cnt, lost, map_, scatter, order);
        LostMoved(lost, map_, scatter, cnt);
        lost := Renumbered(lost, map_, scatter);
      }
    }

    /** The body of the parallel loop for entry `i`, the `k`-th that is taken. */
    method Renumber(ordered: seq<int>, map_: seq<nat>, scatter: bool, i: nat, ghost order: seq<nat>, ghost k: nat,
        ghost was: seq<seq<int>>)
      returns (r: seq<int>)
      requires nb > 0 && Partial(Cfg(), keys, was, active, cnt, lost) && Permutes(map_, cnt) && Permutes(order, cnt)
      requires k < cnt && i == order[k] && |ordered| == |active| && cnt <= |active|
      requires Grid(Cfg(), indices) && Halfway(Cfg(), keys, was, indices, map_, scatter, order[..k])
      modifies this`indices, this`success
      ensures Grid(Cfg(), indices) && Halfway(Cfg(), keys, was, indices, map_, scatter, order[..k + 1])
      ensures i < |map_| && success == (old(success) && From(map_, scatter, i) !in lost)
      ensures To(map_, scatter, i) < |ordered| && From(map_, scatter, i) < |active|
      ensures r == ordered[To(map_, scatter, i) := active[From(map_, scatter, i)]]
    {
      hide Partial, TableOk, Halfway, Permutes, Passed;
      InBounds(map_, order, cnt, k);
      var j := map_[i];
      var key := if scatter then active[i] else active[j];
      r := if scatter then ordered[j := key] else ordered[i := key];
      LostOrUsed(Cfg(), keys, was, active, cnt, lost, From(map_, scatter, i));
      PartialShape(Cfg(), keys, was, active, cnt, lost);
      var entry := Find(key);
      if entry.At? {
        InRow(keys, entry.b, entry.l);
        HalfwayOne(Cfg(), keys, was, indices, active, cnt, lost, map_, scatter, order, k, entry.b, entry.l);
        indices := Put(indices, entry.b, entry.l, if scatter then j else i);
      } else {
        HalfwayLost(Cfg(), keys, was, indices, active, cnt, lost, map_, scatter, order, k);
        success := false;
      }
    }

    lemma Bounds()
      requires Valid()
      ensures |active| == nb * B && 0 <= cnt <= |active|
      ensures nb > 0 ==> Partial(Cfg(), keys, indices, active, cnt, lost)
      ensures nb == 0 ==> cnt == 0 && keys == [] && indices == [] && lost == {}
    {
    }

    lemma Unmapped(key: int)
      requires Valid() && !Stored(keys, key)
      ensures forall n :: !IsMapped(keys, indices, key, n)
    {
      forall b: nat, l: nat | b < |keys| && l < |keys[b]|
        ensures keys[b][l] != key
      {
        InRow(keys, b, l);
      }
    }

    lemma MappedOnce(key: int, b: nat, l: nat)
      requires Valid() && key != EMPTY && nb > 0 && Slot(Cfg(), b, l) && keys[b][l] == key
      ensures IsMapped(keys, indices, key, indices[b][l])
      ensures forall n :: IsMapped(keys, indices, key, n) ==> n == indices[b][l]
    {
      hide Homed, Prefix, Fill;
      assert MapsAt(keys, indices, key, indices[b][l], b, l);
    }
  }

  ghost predicate IsMapped(keys: seq<seq<int>>, indices: seq<seq<int>>, key: int, no: int)
  {
    |keys| == |indices| && (forall b :: 0 <= b < |keys| ==> |keys[b]| == |indices[b]|) && Maps(keys, indices, key, no)
  }

  lemma InRow(keys: seq<seq<int>>, b: nat, l: nat)
    requires b < |keys| && l < |keys[b]|
    ensures Stored(keys, keys[b][l])
  {
    assert keys[b][l] in keys[b];
  }

  lemma NotFound(c: Config, keys: seq<seq<int>>, key: int)
    requires c.nb > 0 && Grid(c, keys) && TableOk(c, keys) && key != EMPTY
    requires forall j: nat :: j < 3 ==> key !in keys[Bucket(c, key, j)]
    ensures !Stored(keys, key)
  {
    hide Fill, Prefix;
    forall b: nat, l: nat | Slot(c, b, l)
      ensures keys[b][l] != key
    {
      assert keys[b][l] != EMPTY ==> Homed(c, keys, b, l);
    }
  }

  lemma PassedNone(c: Config, keys: seq<seq<int>>, key: int)
    requires c.nb > 0 && Grid(c, keys)
    ensures Passed(c, keys, key, 0)
  {
  }

  lemma BehindNone(row: seq<int>, key: int)
    ensures Behind(row, key, 0)
  {
  }

  lemma BehindMore(row: seq<int>, key: int, l: nat)
    requires Behind(row, key, l) && l < |row| && row[l] != key && row[l] != EMPTY
    ensures Behind(row, key, l + 1)
  {
  }

  lemma RowOk(c: Config, keys: seq<seq<int>>, b: nat)
    requires c.nb > 0 && c.B >= 3 && Grid(c, keys) && TableOk(c, keys) && b < c.nb
    ensures Prefix(c, keys[b]) && |keys[b]| == c.B && keys[b][c.B - 1] == EMPTY
  {
  }

  /** The scan stops in front of the last slot at the latest. */
  lemma LastFree(c: Config, keys: seq<seq<int>>, b: nat, key: int, l: nat)
    requires c.nb > 0 && c.B >= 3 && Grid(c, keys) && b < c.nb && keys[b][c.B - 1] == EMPTY && Behind(keys[b], key, l)
    ensures l < c.B
  {
  }

  lemma Absent(c: Config, keys: seq<seq<int>>, key: int, iter: nat, load: nat)
    requires c.nb > 0 && Grid(c, keys) && TableOk(c, keys) && key != EMPTY && iter < 3 && load <= c.B - 2
    requires Passed(c, keys, key, iter) && Behind(keys[Bucket(c, key, iter)], key, load)
             && keys[Bucket(c, key, iter)][load] == EMPTY
    ensures Free(c, keys, key, iter, load) && !Stored(keys, key) && !Passed(c, keys, key, 3)
  {
    hide TableOk, Fill;
    assert !FullRow(c, keys[Bucket(c, key, iter)]);
    hide Passed;
    forall b: nat, l: nat | Slot(c, b, l)
      ensures keys[b][l] != key
    {
      NotStored(c, keys, key, iter, load, b, l);
    }
  }

  lemma FillGrows(c: Config, keys: seq<seq<int>>, key: int, iter: nat, load: nat)
    requires c.nb > 0 && Grid(c, keys) && TableOk(c, keys) && Free(c, keys, key, iter, load)
    ensures Sum(Fills(Put(keys, Bucket(c, key, iter), load, key))) == Sum(Fills(keys)) + 1
  {
    hide Fill, Homed;
    var b := Bucket(c, key, iter);
    assert Prefix(c, keys[b]);
    FreeRow(c, keys, key, iter, load);
    SumUpdate(Fills(keys), b, load + 1);
    assert Fills(Put(keys, b, load, key)) == Fills(keys)[b := load + 1];
  }

  lemma StoredPut(keys: seq<seq<int>>, b: nat, l: nat, key: int)
    requires b < |keys| && l < |keys[b]|
    ensures Stored(Put(keys, b, l, key), key)
  {
    assert Put(keys, b, l, key)[b][l] == key;
  }

  lemma RoomLeft(c: Config, keys: seq<seq<int>>, indices: seq<seq<int>>, active: seq<int>, cnt: int)
    requires Settled(c, keys, indices, active, cnt)
    ensures 0 <= cnt < |active| && Grid(c, keys) && Grid(c, indices) && TableOk(c, keys) && c.B >= 3 && c.nb > 0
  {
    FillBound(c, keys);
  }

  /** No number below `n` is too near the end of the table. */
  lemma NoneYet(c: Config)
    ensures NoneNear(c, 0)
  {
  }

  lemma NearNext(c: Config, n: nat)
    ensures NoneNear(c, n + 1) <==> NoneNear(c, n) && !TooNear(c, n)
  {
  }

  lemma SameKeys(a: seq<int>, a': seq<int>, cnt: int, k: nat)
    requires k < cnt <= |a| && cnt <= |a'| && a'[..cnt] == a[..cnt]
    ensures forall m: nat :: m <= k ==> a'[m] == a[m]
  {
    assert forall m: nat :: m < cnt ==> a'[m] == a'[..cnt][m] && a[m] == a[..cnt][m];
  }

  lemma PartialShape(c: Config, keys: seq<seq<int>>, indices: seq<seq<int>>, active: seq<int>, cnt: int, lost: set<nat>)
    requires Partial(c, keys, indices, active, cnt, lost)
    ensures Grid(c, keys) && Grid(c, indices) && TableOk(c, keys) && |active| == TableSize(c)
            && cnt == Sum(Fills(keys)) + |lost| && c.nb > 0 && c.B >= 3
  {
  }

  /** The list after a key has been noted, if there is an entry for it. */
  function NotedAt(a: seq<int>, n: nat, key: int): seq<int>
  {
    if n < |a| then a[n := key] else a
  }

  /** A lost key stays lost when a free slot is filled. */
  lemma MissingPut(c: Config, k: seq<seq<int>>, a: seq<int>, n: nat, lost: set<nat>, key: int, b: nat, l: nat)
    requires c.nb > 0 && Grid(c, k) && Missing(c, k, a, n, lost) && key != EMPTY && Slot(c, b, l) && k[b][l] == EMPTY
    requires Grid(c, Put(k, b, l, key)) && TableOk(c, Put(k, b, l, key))
    ensures Missing(c, Put(k, b, l, key), NotedAt(a, n, key), n + 1, lost)
  {
    hide TableOk, Passed;
    forall m | m in lost
      ensures Misses(c, Put(k, b, l, key), NotedAt(a, n, key), n + 1, m)
    {
      assert Misses(c, k, a, n, m);
      PassedStays(c, k, key, b, l, a[m]);
    }
  }

  lemma FilledApart(c: Config, k: seq<seq<int>>, i: seq<seq<int>>, a: seq<int>, n: nat, lost: set<nat>, key: int,
      b: nat, l: nat, b1: nat, l1: nat, b2: nat, l2: nat)
    requires Partial(c, k, i, a, n, lost) && Slot(c, b, l) && k[b][l] == EMPTY
    requires Slot(c, b1, l1) && Slot(c, b2, l2)
    ensures Apart(Put(k, b, l, key), Put(i, b, l, n), b1, l1, b2, l2)
  {
    hide TableOk, Missing, Used;
    assert Apart(k, i, b1, l1, b2, l2);
  }

  lemma FilledUsed(c: Config, k: seq<seq<int>>, i: seq<seq<int>>, a: seq<int>, n: nat, lost: set<nat>, key: int,
      b: nat, l: nat, m: nat)
    requires Partial(c, k, i, a, n, lost) && Slot(c, b, l) && k[b][l] == EMPTY != key && m <= n && m !in lost
    ensures Grid(c, Put(k, b, l, key)) && Grid(c, Put(i, b, l, n)) && Used(c, Put(k, b, l, key), Put(i, b, l, n), m)
  {
    hide TableOk, Missing, Apart;
    var (k', i') := (Put(k, b, l, key), Put(i, b, l, n));
    if m < n {
      assert Used(c, k, i, m);
      var b1: nat, l1: nat :| UsedAt(c, k, i, m, b1, l1);
      assert UsedAt(c, k', i', m, b1, l1);
    } else {
      assert UsedAt(c, k', i', m, b, l);
    }
  }

  /** The next key takes a free slot. */
  lemma FilledPartial(c: Config, k: seq<seq<int>>, i: seq<seq<int>>, a: seq<int>, n: nat, lost: set<nat>, key: int,
      b: nat, l: nat)
    requires Partial(c, k, i, a, n, lost) && key != EMPTY && Slot(c, b, l) && k[b][l] == EMPTY
    requires Grid(c, Put(k, b, l, key)) && TableOk(c, Put(k, b, l, key))
             && Sum(Fills(Put(k, b, l, key))) == Sum(Fills(k)) + 1
    ensures Partial(c, Put(k, b, l, key), Put(i, b, l, n), NotedAt(a, n, key), n + 1, lost)
  {
    hide TableOk, Missing, Apart, Used;
    MissingPut(c, k, a, n, lost, key, b, l);
    Above(c, k, a, n, lost);
    var (k', i', a') := (Put(k, b, l, key), Put(i, b, l, n), NotedAt(a, n, key));
    forall b1: nat, l1: nat, b2: nat, l2: nat | Slot(c, b1, l1) && Slot(c, b2, l2)
      ensures Apart(k', i', b1, l1, b2, l2)
    {
      FilledApart(c, k, i, a, n, lost, key, b, l, b1, l1, b2, l2);
    }
    forall m: nat | m < n + 1 && m !in lost
      ensures Used(c, k', i', m)
    {
      FilledUsed(c, k, i, a, n, lost, key, b, l, m);
    }
  }

  lemma Above(c: Config, k: seq<seq<int>>, a: seq<int>, n: nat, lost: set<nat>)
    requires c.nb > 0 && Grid(c, k) && Missing(c, k, a, n, lost)
    ensures n !in lost
  {
    assert n in lost ==> Misses(c, k, a, n, n);
  }

  /** The next key finds no room. */
  lemma LostPartial(c: Config, k: seq<seq<int>>, i: seq<seq<int>>, a: seq<int>, n: nat, lost: set<nat>)
    requires Partial(c, k, i, a, n, lost) && n < |a| && a[n] != EMPTY && Passed(c, k, a[n], 3)
    requires forall m: nat :: m < n ==> a[m] != a[n]
    ensures Partial(c, k, i, a, n + 1, lost + {n})
  {
    hide TableOk, Passed, Apart, Used, Fill, Sum;
    Above(c, k, a, n, lost);
    forall m | m in lost + {n}
      ensures Misses(c, k, a, n + 1, m)
    {
      assert m in lost ==> Misses(c, k, a, n, m);
    }
  }

  lemma FilledMaps(c: Config, k: seq<seq<int>>, i: seq<seq<int>>, key: int, n: int, b: nat, l: nat)
    requires Grid(c, k) && Grid(c, i) && Slot(c, b, l) && k[b][l] == EMPTY && key != EMPTY
    ensures IsMapped(Put(k, b, l, key), Put(i, b, l, n), key, n)
    ensures forall x, m :: x != key && x != EMPTY ==>
            (IsMapped(Put(k, b, l, key), Put(i, b, l, n), x, m) <==> IsMapped(k, i, x, m))
  {
    var (k', i') := (Put(k, b, l, key), Put(i, b, l, n));
    assert MapsAt(k', i', key, n, b, l);
    forall x, m | x != key && x != EMPTY
      ensures IsMapped(k', i', x, m) <==> IsMapped(k, i, x, m)
    {
      if IsMapped(k, i, x, m) {
        var b1: nat, l1: nat :| MapsAt(k, i, x, m, b1, l1);
        assert MapsAt(k', i', x, m, b1, l1);
      }
      if IsMapped(k', i', x, m) {
        var b1: nat, l1: nat :| MapsAt(k', i', x, m, b1, l1);
        assert MapsAt(k, i, x, m, b1, l1);
      }
    }
  }

  /** What the numbers of a table are, an empty one included. */
  lemma MapIs(c: Config, keys: seq<seq<int>>, indices: seq<seq<int>>, active: seq<int>, cnt: int, lost: set<nat>,
      any: bool)
    requires if any then Partial(c, keys, indices, active, cnt, lost) && cnt <= |active| else keys == [] && cnt == 0
    ensures forall key, n :: key != EMPTY ==>
            (IsMapped(keys, indices, key, n) <==> 0 <= n < cnt && n !in lost && n < |active| && active[n] == key)
  {
    hide Partial, IsMapped;
    if any {
      PartialMap(c, keys, indices, active, cnt, lost);
    } else {
      NothingMapped(keys, indices);
    }
  }

  lemma SamePrefix(a: seq<int>, a': seq<int>, cnt: int)
    requires 0 <= cnt <= |a| && cnt <= |a'| && a'[..cnt] == a[..cnt]
    ensures forall n :: 0 <= n < cnt ==> a'[n] == a[n]
  {
    assert forall n :: 0 <= n < cnt ==> a'[n] == a'[..cnt][n] && a[n] == a[..cnt][n];
  }

  lemma PassedStays(c: Config, keys: seq<seq<int>>, key: int, b: nat, l: nat, other: int)
    requires c.nb > 0 && Grid(c, keys) && Slot(c, b, l) && keys[b][l] == EMPTY != key
    requires TableOk(c, Put(keys, b, l, key)) && Passed(c, keys, other, 3) && Grid(c, Put(keys, b, l, key))
    ensures Passed(c, Put(keys, b, l, key), other, 3)
  {
    var g := Put(keys, b, l, key);
    forall j: nat | j < 3
      ensures Bucket(c, other, j) != b
    {
      assert Prefix(c, g[b]) && FullRow(c, keys[Bucket(c, other, j)]);
    }
  }

  lemma SettledShape(c: Config, keys: seq<seq<int>>, indices: seq<seq<int>>, active: seq<int>, cnt: int)
    requires Settled(c, keys, indices, active, cnt)
    ensures Grid(c, keys) && Grid(c, indices) && TableOk(c, keys) && |active| == TableSize(c)
            && cnt == Sum(Fills(keys)) && c.nb > 0 && c.B >= 3
  {
  }

  /** At rest, the number of a key is the place under which it is noted: the noted keys are the map. */
  lemma SettledMap(c: Config, keys: seq<seq<int>>, indices: seq<seq<int>>, active: seq<int>, cnt: int)
    requires Settled(c, keys, indices, active, cnt)
    ensures forall key, n :: key != EMPTY ==>
            (IsMapped(keys, indices, key, n) <==> 0 <= n < cnt && n < |active| && active[n] == key)
  {
    hide Settled, Partial, IsMapped;
    SettledPartial(c, keys, indices, active, cnt);
    RoomLeft(c, keys, indices, active, cnt);
    PartialMap(c, keys, indices, active, cnt, {});
  }

  /** With keys lost, the others are the map. */
  lemma PartialMap(c: Config, keys: seq<seq<int>>, indices: seq<seq<int>>, active: seq<int>, cnt: int, lost: set<nat>)
    requires Partial(c, keys, indices, active, cnt, lost) && cnt <= |active|
    ensures forall key, n :: key != EMPTY ==>
            (IsMapped(keys, indices, key, n) <==> 0 <= n < cnt && n !in lost && n < |active| && active[n] == key)
  {
    forall key, n | key != EMPTY
      ensures IsMapped(keys, indices, key, n) <==> 0 <= n < cnt && n !in lost && n < |active| && active[n] == key
    {
      MapEntry(c, keys, indices, active, cnt, lost, key, n);
    }
  }

  lemma MapEntry(c: Config, keys: seq<seq<int>>, indices: seq<seq<int>>, active: seq<int>, cnt: int, lost: set<nat>,
      key: int, n: int)
    requires Partial(c, keys, indices, active, cnt, lost) && cnt <= |active| && key != EMPTY
    ensures IsMapped(keys, indices, key, n) <==> 0 <= n < cnt && n !in lost && n < |active| && active[n] == key
  {
    hide TableOk, Fill;
    if 0 <= n < cnt && n !in lost && n < |active| && active[n] == key {
      assert Used(c, keys, indices, n);
      var b: nat, l: nat :| UsedAt(c, keys, indices, n, b, l);
      assert MapsAt(keys, indices, key, n, b, l);
    }
    if IsMapped(keys, indices, key, n) {
      var b: nat, l: nat :| MapsAt(keys, indices, key, n, b, l);
      assert Slot(c, b, l);
    }
  }

  /** A noted key is in the table or lost, and noted once. */
  lemma NotedOnce(c: Config, keys: seq<seq<int>>, indices: seq<seq<int>>, active: seq<int>, cnt: int, lost: set<nat>,
      m: nat, n: nat)
    requires Partial(c, keys, indices, active, cnt, lost) && m < cnt && n < cnt <= |active|
    ensures m < |active| && n < |active| && active[n] != EMPTY && (m != n ==> active[m] != active[n])
  {
    hide TableOk, Fill, Passed, Stored;
    LostOrUsed(c, keys, indices, active, cnt, lost, m);
    LostOrUsed(c, keys, indices, active, cnt, lost, n);
    if m != n && m !in lost && n !in lost && active[m] == active[n] {
      var b: nat, l: nat :| UsedAt(c, keys, indices, m, b, l);
      var b': nat, l': nat :| UsedAt(c, keys, indices, n, b', l');
      TableOnce(c, keys, b, l, b', l');
    }
  }

  lemma TableOnce(c: Config, keys: seq<seq<int>>, b: nat, l: nat, b': nat, l': nat)
    requires c.nb > 0 && Grid(c, keys) && TableOk(c, keys) && Slot(c, b, l) && Slot(c, b', l')
             && keys[b][l] == keys[b'][l'] != EMPTY
    ensures b == b' && l == l'
  {
    hide Fill, Homed, Prefix;
  }

  lemma LostOrUsed(c: Config, keys: seq<seq<int>>, indices: seq<seq<int>>, active: seq<int>, cnt: int, lost: set<nat>,
      n: nat)
    requires Partial(c, keys, indices, active, cnt, lost) && n < cnt <= |active|
    ensures n < |active| && active[n] != EMPTY
    ensures if n in lost then !Stored(keys, active[n]) else Used(c, keys, indices, n) && Stored(keys, active[n])
  {
    hide TableOk, Fill, Passed, Stored;
    if n in lost {
      assert Misses(c, keys, active, cnt, n);
      PassedAll(c, keys, active[n]);
    } else {
      assert Used(c, keys, indices, n);
      var b: nat, l: nat :| UsedAt(c, keys, indices, n, b, l);
      InRow(keys, b, l);
    }
  }

  /** The lost keys are listed, and no table has them. */
  lemma LostKeys(c: Config, keys: seq<seq<int>>, indices: seq<seq<int>>, active: seq<int>, cnt: int, lost: set<nat>)
    requires Partial(c, keys, indices, active, cnt, lost)
    ensures forall n :: n in lost ==>
              && n < cnt && n < |active| && active[n] != EMPTY && !Stored(keys, active[n])
              && Passed(c, keys, active[n], 3)
  {
    hide TableOk, Fill, Passed, Stored;
    forall n | n in lost
      ensures n < cnt && n < |active| && active[n] != EMPTY && !Stored(keys, active[n]) && Passed(c, keys, active[n], 3)
    {
      assert Misses(c, keys, active, cnt, n);
      PassedAll(c, keys, active[n]);
    }
  }

  lemma KeyNoted(c: Config, keys: seq<seq<int>>, indices: seq<seq<int>>, active: seq<int>, cnt: int, lost: set<nat>,
      n: nat)
    requires Partial(c, keys, indices, active, cnt, lost) && n < cnt <= |active|
    ensures active[n] != EMPTY
    ensures forall m: nat :: m < cnt && m != n ==> active[m] != active[n]
  {
    hide Partial;
    NotedOnce(c, keys, indices, active, cnt, lost, n, n);
    forall m: nat | m < cnt && m != n
      ensures active[m] != active[n]
    {
      NotedOnce(c, keys, indices, active, cnt, lost, m, n);
    }
  }

  lemma KeyUsed(c: Config, keys: seq<seq<int>>, indices: seq<seq<int>>, active: seq<int>, cnt: int, n: nat)
    requires Settled(c, keys, indices, active, cnt) && n < cnt
    ensures n < |active| && active[n] != EMPTY
    ensures forall m: nat :: m < cnt && m != n ==> m < |active| && active[m] != active[n]
  {
    hide Settled, Partial;
    SettledPartial(c, keys, indices, active, cnt);
    RoomLeft(c, keys, indices, active, cnt);
    NotedOnce(c, keys, indices, active, cnt, {}, n, n);
    forall m: nat | m < cnt
      ensures m < |active| && (m != n ==> active[m] != active[n])
    {
      NotedOnce(c, keys, indices, active, cnt, {}, m, n);
    }
  }

  /** The next key of a rebuild is not in the new table yet. */
  lemma KeyNew(c: Config, keys: seq<seq<int>>, indices: seq<seq<int>>, active: seq<int>, n: nat, lost: set<nat>)
    requires Partial(c, keys, indices, active, n, lost) && n < |active| && active[n] != EMPTY
             && forall m: nat :: m < n ==> active[m] != active[n]
    ensures !Stored(keys, active[n])
  {
    hide Fill, TableOk;
    forall b: nat, l: nat | Slot(c, b, l)
      ensures keys[b][l] != active[n]
    {
    }
  }

  lemma NothingMapped(keys: seq<seq<int>>, indices: seq<seq<int>>)
    requires keys == []
    ensures forall key, n :: !IsMapped(keys, indices, key, n)
  {
  }

  /** Each of the numbers below `n` occurs once. */
  ghost predicate Permutes(s: seq<nat>, n: int)
  {
    && |s| == n && (forall i :: 0 <= i < n ==> s[i] < n)
    && (forall i, j :: 0 <= i < j < n ==> s[i] != s[j])
    && (forall v: nat :: v < n ==> v in s)
  }

  function From(m: seq<nat>, scatter: bool, i: nat): nat
    requires i < |m|
  {
    if scatter then i else m[i]
  }

  function To(m: seq<nat>, scatter: bool, i: nat): nat
    requires i < |m|
  {
    if scatter then m[i] else i
  }

  /** The entries in `done` have their new numbers, the others their old ones. */
  ghost predicate Halfway(c: Config, keys: seq<seq<int>>, was: seq<seq<int>>, now: seq<seq<int>>, m: seq<nat>,
      scatter: bool, done: seq<nat>)
    requires Grid(c, keys) && Grid(c, was) && Grid(c, now)
  {
    forall b: nat, l: nat, i: nat ::
      Slot(c, b, l) && keys[b][l] != EMPTY && i < |m| && was[b][l] == From(m, scatter, i) ==>
      now[b][l] == if i in done then To(m, scatter, i) else was[b][l]
  }

  ghost predicate Moved(a: seq<int>, a': seq<int>, m: seq<nat>, scatter: bool, done: seq<nat>)
  {
    forall j: nat :: j < |done| ==>
      && done[j] < |m| && To(m, scatter, done[j]) < |a'| && From(m, scatter, done[j]) < |a|
      && a'[To(m, scatter, done[j])] == a[From(m, scatter, done[j])]
  }

  lemma Starts(m: seq<nat>, order: seq<nat>, n: int)
    requires Permutes(m, n) && Permutes(order, n)
    ensures |m| == n && |order| == n && order[..0] == []
    ensures forall a, a', scatter :: Moved(a, a', m, scatter, [])
  {
  }

  lemma NotYet(c: Config, keys: seq<seq<int>>, was: seq<seq<int>>, m: seq<nat>, scatter: bool)
    requires Grid(c, keys) && Grid(c, was)
    ensures Halfway(c, keys, was, was, m, scatter, [])
  {
  }

  lemma InBounds(m: seq<nat>, order: seq<nat>, n: int, k: nat)
    requires Permutes(m, n) && Permutes(order, n) && k < n
    ensures |m| == n && |order| == n && order[k] < n && m[order[k]] < n
    ensures forall scatter :: From(m, scatter, order[k]) < n && To(m, scatter, order[k]) < n
    ensures order[..k + 1] == order[..k] + [order[k]]
  {
  }

  lemma MovedOne(a: seq<int>, a': seq<int>, m: seq<nat>, scatter: bool, order: seq<nat>, n: int, k: nat)
    requires Permutes(m, n) && Permutes(order, n) && k < n && n <= |a| == |a'| && Moved(a, a', m, scatter, order[..k])
    ensures |m| == n && |order| == n && order[k] < n && To(m, scatter, order[k]) < n && From(m, scatter, order[k]) < n
    ensures Moved(a, a'[To(m, scatter, order[k]) := a[From(m, scatter, order[k])]], m, scatter, order[..k + 1])
  {
  }

  /** None of the entries done is that of a lost key. */
  ghost predicate NoneLost(lost: set<nat>, m: seq<nat>, scatter: bool, done: seq<nat>)
  {
    forall j: nat :: j < |done| ==> done[j] < |m| && From(m, scatter, done[j]) !in lost
  }

  lemma NoneLostStart(lost: set<nat>, m: seq<nat>, scatter: bool)
    ensures NoneLost(lost, m, scatter, [])
  {
  }

  lemma NoneLostNext(lost: set<nat>, m: seq<nat>, scatter: bool, order: seq<nat>, k: nat)
    requires k < |order| && order[k] < |m|
    ensures NoneLost(lost, m, scatter, order[..k + 1]) <==>
            NoneLost(lost, m, scatter, order[..k]) && From(m, scatter, order[k]) !in lost
  {
    hide From;
    assert order[..k + 1] == order[..k] + [order[k]];
    if NoneLost(lost, m, scatter, order[..k + 1]) {
      assert From(m, scatter, order[..k + 1][k]) !in lost;
      forall j: nat | j < k
        ensures order[..k][j] < |m| && From(m, scatter, order[..k][j]) !in lost
      {
        assert order[..k + 1][j] == order[..k][j];
      }
    }
  }

  lemma NoneLostAtAll(c: Config, keys: seq<seq<int>>, indices: seq<seq<int>>, active: seq<int>, cnt: int,
      lost: set<nat>,
      m: seq<nat>, scatter: bool, order: seq<nat>)
    requires Partial(c, keys, indices, active, cnt, lost) && Permutes(m, cnt) && Permutes(order, cnt)
    ensures NoneLost(lost, m, scatter, order) <==> lost == {}
  {
    hide TableOk, Passed, Fill, Partial;
    LostKeys(c, keys, indices, active, cnt, lost);
    if n: nat :| n in lost {
      var i := Origin(m, scatter, cnt, n);
      assert i in order;
      var j: nat :| j < |order| && order[j] == i;
      assert From(m, scatter, order[j]) in lost;
    }
  }

  /** The entry that stood at `n`. */
  lemma Origin(m: seq<nat>, scatter: bool, n: int, v: nat) returns (i: nat)
    requires Permutes(m, n) && v < n
    ensures i < n && From(m, scatter, i) == v
  {
    if scatter {
      i := v;
    } else {
      assert v in m;
      i :| i < |m| && m[i] == v;
    }
  }

  /** The new numbers of the lost keys. */
  ghost function Renumbered(lost: set<nat>, m: seq<nat>, scatter: bool): set<nat>
  {
    set i: nat | i < |m| && From(m, scatter, i) in lost :: To(m, scatter, i)
  }

  lemma LostMoved(lost: set<nat>, m: seq<nat>, scatter: bool, n: int)
    requires Permutes(m, n)
    ensures forall i: nat :: i < n ==> (To(m, scatter, i) in Renumbered(lost, m, scatter) <==>
            From(m, scatter, i) in lost)
  {
    forall i: nat | i < n
      ensures To(m, scatter, i) in Renumbered(lost, m, scatter) <==> From(m, scatter, i) in lost
    {
      forall j: nat | j < n
        ensures To(m, scatter, i) == To(m, scatter, j) ==> i == j
      {
        Injective(m, scatter, n, i, j);
      }
    }
  }

  lemma {:induction false} SameMany(lost: set<nat>, m: seq<nat>, scatter: bool, n: int)
    requires Permutes(m, n) && forall v :: v in lost ==> v < n
    ensures |Renumbered(lost, m, scatter)| == |lost|
  {
    hide From, To, Permutes;
    if lost == {} {
      assert Renumbered(lost, m, scatter) == {};
    } else {
      var v :| v in lost;
      SameMany(lost - {v}, m, scatter, n);
      var i := Origin(m, scatter, n, v);
      PermutesIs(m, n);
      OneMoreLost(lost, m, scatter, n, i);
    }
  }

  lemma PermutesIs(m: seq<nat>, n: int)
    requires Permutes(m, n)
    ensures |m| == n
  {
  }

  lemma OneMoreLost(lost: set<nat>, m: seq<nat>, scatter: bool, n: int, i: nat)
    requires Permutes(m, n) && i < n && |m| == n && From(m, scatter, i) in lost
    ensures To(m, scatter, i) !in Renumbered(lost - {From(m, scatter, i)}, m, scatter)
    ensures Renumbered(lost, m, scatter) == Renumbered(lost - {From(m, scatter, i)}, m, scatter) + {To(m, scatter, i)}
  {
    hide From, To, Permutes;
    forall j: nat | j < n
      ensures To(m, scatter, i) == To(m, scatter, j) ==> i == j
      ensures From(m, scatter, i) == From(m, scatter, j) ==> i == j
    {
      Injective(m, scatter, n, i, j);
    }
  }

  lemma ApartIs(c: Config, keys: seq<seq<int>>, indices: seq<seq<int>>, active: seq<int>, cnt: int, lost: set<nat>,
      b: nat, l: nat, b': nat, l': nat)
    requires Partial(c, keys, indices, active, cnt, lost) && Slot(c, b, l) && Slot(c, b', l')
    ensures Apart(keys, indices, b, l, b', l')
  {
    hide TableOk, Missing, Used;
  }

  /** What one loop body does to an entry: it gets its new number, or is not concerned. */
  lemma HalfwayAt(c: Config, keys: seq<seq<int>>, was: seq<seq<int>>, now: seq<seq<int>>, m: seq<nat>, scatter: bool,
      done: seq<nat>, i: nat, b: nat, l: nat, b1: nat, l1: nat, i1: nat)
    requires Grid(c, keys) && Grid(c, was) && Grid(c, now) && Halfway(c, keys, was, now, m, scatter, done)
    requires Slot(c, b, l) && Slot(c, b1, l1) && i < |m| && i1 < |m| && Apart(keys, was, b, l, b1, l1)
    requires keys[b][l] != EMPTY && keys[b1][l1] != EMPTY
    requires was[b][l] == From(m, scatter, i) && was[b1][l1] == From(m, scatter, i1)
    requires From(m, scatter, i) == From(m, scatter, i1) ==> i == i1
    ensures Put(now, b, l, To(m, scatter, i))[b1][l1]
         == if i1 in done + [i] then To(m, scatter, i1) else was[b1][l1]
  {
    hide From, To;
    assert i1 in done + [i] <==> i1 in done || i1 == i;
  }

  /** One loop body: the slot of the key gets its new number, no other slot is concerned. */
  lemma HalfwayOne(c: Config, keys: seq<seq<int>>, was: seq<seq<int>>, now: seq<seq<int>>, active: seq<int>, cnt: int,
      lost: set<nat>, m: seq<nat>, scatter: bool, order: seq<nat>, k: nat, b: nat, l: nat)
    requires Partial(c, keys, was, active, cnt, lost) && cnt <= |active|
    requires Grid(c, now) && Permutes(m, cnt) && Permutes(order, cnt) && k < cnt
    requires Halfway(c, keys, was, now, m, scatter, order[..k]) && Slot(c, b, l)
    requires From(m, scatter, order[k]) < |active| && keys[b][l] == active[From(m, scatter, order[k])] != EMPTY
    ensures var g := Put(now, b, l, To(m, scatter, order[k]));
            Grid(c, g) && Halfway(c, keys, was, g, m, scatter, order[..k + 1])
  {
    hide Partial, Stored, Permutes, From, To, Apart;
    PartialShape(c, keys, was, active, cnt, lost);
    InBounds(m, order, cnt, k);
    var i := order[k];
    OwnNumber(c, keys, was, active, cnt, lost, From(m, scatter, i), b, l);
    PutGrid(c, now, b, l, To(m, scatter, i));
    forall b1: nat, l1: nat, i1: nat | Slot(c, b1, l1) && keys[b1][l1] != EMPTY && i1 < |m|
        && was[b1][l1] == From(m, scatter, i1)
      ensures Put(now, b, l, To(m, scatter, i))[b1][l1]
           == if i1 in order[..k + 1] then To(m, scatter, i1) else was[b1][l1]
    {
      ApartIs(c, keys, was, active, cnt, lost, b, l, b1, l1);
      Injective(m, scatter, cnt, i, i1);
      HalfwayAt(c, keys, was, now, m, scatter, order[..k], i, b, l, b1, l1, i1);
    }
  }

  /** A loop body for a lost key concerns no slot. */
  lemma HalfwayLost(c: Config, keys: seq<seq<int>>, was: seq<seq<int>>, now: seq<seq<int>>, active: seq<int>, cnt: int,
      lost: set<nat>, m: seq<nat>, scatter: bool, order: seq<nat>, k: nat)
    requires Partial(c, keys, was, active, cnt, lost) && cnt <= |active|
    requires Grid(c, now) && Permutes(m, cnt) && Permutes(order, cnt) && k < cnt
    requires Halfway(c, keys, was, now, m, scatter, order[..k]) && From(m, scatter, order[k]) in lost
    ensures Halfway(c, keys, was, now, m, scatter, order[..k + 1])
  {
    hide Fill, TableOk, Missing;
    var i := order[k];
    assert order[..k + 1] == order[..k] + [i];
    forall b1: nat, l1: nat, i1: nat | Slot(c, b1, l1) && keys[b1][l1] != EMPTY && i1 < |m|
        && was[b1][l1] == From(m, scatter, i1)
      ensures now[b1][l1] == if i1 in order[..k + 1] then To(m, scatter, i1) else was[b1][l1]
    {
      assert i1 in order[..k + 1] <==> i1 in order[..k] || i1 == i;
    }
  }

  lemma OwnNumber(c: Config, keys: seq<seq<int>>, indices: seq<seq<int>>, active: seq<int>, cnt: int, lost: set<nat>,
      n: nat, b: nat, l: nat)
    requires Partial(c, keys, indices, active, cnt, lost) && n < cnt && n < |active| && Slot(c, b, l)
             && keys[b][l] == active[n] != EMPTY && cnt <= |active|
    ensures indices[b][l] == n && n !in lost
  {
    hide Fill, Missing, Passed, Stored, TableOk;
    InRow(keys, b, l);
    LostOrUsed(c, keys, indices, active, cnt, lost, n);
    var b1: nat, l1: nat :| UsedAt(c, keys, indices, n, b1, l1);
    TableOnce(c, keys, b, l, b1, l1);
  }

  lemma AllMoved(a: seq<int>, a': seq<int>, m: seq<nat>, scatter: bool, order: seq<nat>, n: int)
    requires Permutes(m, n) && Permutes(order, n) && Moved(a, a', m, scatter, order)
    ensures forall i: nat :: i < n ==>
              && From(m, scatter, i) < n && From(m, scatter, i) < |a| && To(m, scatter, i) < n
                  && To(m, scatter, i) < |a'|
              && a'[To(m, scatter, i)] == a[From(m, scatter, i)]
  {
    forall i: nat | i < n
      ensures && From(m, scatter, i) < n && From(m, scatter, i) < |a| && To(m, scatter, i) < n
              && To(m, scatter, i) < |a'|
              && a'[To(m, scatter, i)] == a[From(m, scatter, i)]
    {
      assert i in order;
      var j :| 0 <= j < |order| && order[j] == i;
    }
  }

  /** With every number moved the table is at rest again. */
  lemma Reordered(c: Config, keys: seq<seq<int>>, was: seq<seq<int>>, a: seq<int>, now: seq<seq<int>>, a': seq<int>,
      cnt: int, lost: set<nat>, m: seq<nat>, scatter: bool, order: seq<nat>)
    requires Partial(c, keys, was, a, cnt, lost) && Grid(c, now) && |a'| == |a| && cnt <= |a|
    requires Permutes(m, cnt) && Permutes(order, cnt) && Halfway(c, keys, was, now, m, scatter, order)
    requires forall i: nat :: i < cnt ==>
               && From(m, scatter, i) < cnt && To(m, scatter, i) < cnt
                   && a'[To(m, scatter, i)] == a[From(m, scatter, i)]
    ensures Partial(c, keys, now, a', cnt, Renumbered(lost, m, scatter))
  {
    hide Fill, TableOk, Missing, Permutes, From, To, Halfway, Renumbered;
    forall b: nat, l: nat | Slot(c, b, l) && keys[b][l] != EMPTY
      ensures 0 <= now[b][l] < cnt && now[b][l] !in Renumbered(lost, m, scatter) && a'[now[b][l]] == keys[b][l]
    {
      var i := NewNumber(c, keys, was, a, now, cnt, lost, m, scatter, order, b, l);
      LostMoved(lost, m, scatter, cnt);
    }
    forall b: nat, l: nat, b': nat, l': nat | Slot(c, b, l) && Slot(c, b', l')
      ensures Apart(keys, now, b, l, b', l')
    {
      assert Apart(keys, was, b, l, b', l');
      if keys[b][l] != EMPTY && keys[b'][l'] != EMPTY {
        var i := NewNumber(c, keys, was, a, now, cnt, lost, m, scatter, order, b, l);
        var i' := NewNumber(c, keys, was, a, now, cnt, lost, m, scatter, order, b', l');
        Injective(m, scatter, cnt, i, i');
      }
    }
    forall n: nat | n < cnt && n !in Renumbered(lost, m, scatter)
      ensures Used(c, keys, now, n)
    {
      StillUsed(c, keys, was, a, now, cnt, lost, m, scatter, order, n);
    }
    LostKeys(c, keys, was, a, cnt, lost);
    SameMany(lost, m, scatter, cnt);
    MissingMoved(c, keys, a, a', cnt, lost, m, scatter);
  }

  lemma StillUsed(c: Config, keys: seq<seq<int>>, was: seq<seq<int>>, a: seq<int>, now: seq<seq<int>>, cnt: int,
      lost: set<nat>, m: seq<nat>, scatter: bool, order: seq<nat>, n: nat)
    requires Partial(c, keys, was, a, cnt, lost) && Grid(c, now) && Permutes(m, cnt) && Permutes(order, cnt)
    requires Halfway(c, keys, was, now, m, scatter, order) && n < cnt && n !in Renumbered(lost, m, scatter)
    requires forall i: nat :: i < cnt ==> From(m, scatter, i) < cnt && To(m, scatter, i) < cnt
    ensures Used(c, keys, now, n)
  {
    hide Fill, TableOk, Missing, From, To;
    var i := Source(m, scatter, cnt, n);
    assert i in order;
    assert Used(c, keys, was, From(m, scatter, i));
    var b: nat, l: nat :| UsedAt(c, keys, was, From(m, scatter, i), b, l);
    assert UsedAt(c, keys, now, n, b, l);
  }

  /** The lost keys are listed under their new numbers. */
  lemma MissingMoved(c: Config, keys: seq<seq<int>>, a: seq<int>, a': seq<int>, cnt: int, lost: set<nat>, m: seq<nat>,
      scatter: bool)
    requires c.nb > 0 && Grid(c, keys) && Missing(c, keys, a, cnt, lost) && cnt <= |a| == |a'| && Permutes(m, cnt)
    requires forall i: nat :: i < cnt ==>
               && From(m, scatter, i) < cnt && To(m, scatter, i) < cnt
                   && a'[To(m, scatter, i)] == a[From(m, scatter, i)]
    ensures Missing(c, keys, a', cnt, Renumbered(lost, m, scatter))
  {
    hide Passed, From, To;
    forall n | n in Renumbered(lost, m, scatter)
      ensures Misses(c, keys, a', cnt, n)
    {
      var i: nat :| i < |m| && From(m, scatter, i) in lost && To(m, scatter, i) == n;
      assert Misses(c, keys, a, cnt, From(m, scatter, i));
    }
    forall x, y | x in Renumbered(lost, m, scatter) && y in Renumbered(lost, m, scatter) && x != y
      ensures x < |a'| && y < |a'| && a'[x] != a'[y]
    {
      var i: nat :| i < |m| && From(m, scatter, i) in lost && To(m, scatter, i) == x;
      var j: nat :| j < |m| && From(m, scatter, j) in lost && To(m, scatter, j) == y;
      Injective(m, scatter, cnt, i, j);
      assert Misses(c, keys, a, cnt, From(m, scatter, i));
    }
  }

  lemma Injective(m: seq<nat>, scatter: bool, n: int, i: nat, j: nat)
    requires Permutes(m, n) && i < n && j < n
    ensures To(m, scatter, i) == To(m, scatter, j) ==> i == j
    ensures From(m, scatter, i) == From(m, scatter, j) ==> i == j
  {
  }

  /** The entry that comes to stand at `n`. */
  lemma Source(m: seq<nat>, scatter: bool, n: int, v: nat) returns (i: nat)
    requires Permutes(m, n) && v < n
    ensures i < n && To(m, scatter, i) == v
  {
    if scatter {
      assert v in m;
      i :| i < |m| && m[i] == v;
    } else {
      i := v;
    }
  }

  lemma NewNumber(c: Config, keys: seq<seq<int>>, was: seq<seq<int>>, a: seq<int>, now: seq<seq<int>>, cnt: int,
      lost: set<nat>, m: seq<nat>, scatter: bool, order: seq<nat>, b: nat, l: nat) returns (i: nat)
    requires Partial(c, keys, was, a, cnt, lost) && cnt <= |a| && Grid(c, now) && Permutes(m, cnt)
             && Permutes(order, cnt)
    requires Halfway(c, keys, was, now, m, scatter, order) && Slot(c, b, l) && keys[b][l] != EMPTY
    ensures i < cnt && i < |m| && was[b][l] == From(m, scatter, i) && now[b][l] == To(m, scatter, i)
    ensures From(m, scatter, i) !in lost && was[b][l] < |a| && a[was[b][l]] == keys[b][l]
  {
    hide Fill, TableOk, Missing;
    i := Origin(m, scatter, cnt, was[b][l]);
    assert i in order;
  }

  /** While fewer keys are stored than a bucket can take, no bucket is full. */
  lemma StillRoom(c: Config, keys: seq<seq<int>>, key: int)
    requires c.nb > 0 && c.B >= 3 && Grid(c, keys) && TableOk(c, keys) && Sum(Fills(keys)) < c.B - 1
    ensures !Passed(c, keys, key, 3)
  {
    hide Homed;
    var b := Bucket(c, key, 0);
    assert Prefix(c, keys[b]);
    SumHolds(Fills(keys), b);
    assert keys[b][Fill(keys[b])] == EMPTY;
    assert !FullRow(c, keys[b]);
  }

  lemma StoredMapped(c: Config, keys: seq<seq<int>>, indices: seq<seq<int>>, key: int) returns (n: int)
    requires Grid(c, keys) && Grid(c, indices) && Stored(keys, key)
    ensures IsMapped(keys, indices, key, n)
  {
    var b: nat :| b < |keys| && key in keys[b];
    var l: nat :| l < |keys[b]| && keys[b][l] == key;
    n := indices[b][l];
    assert MapsAt(keys, indices, key, n, b, l);
  }

  lemma MappedStored(keys: seq<seq<int>>, indices: seq<seq<int>>, key: int, n: int)
    requires IsMapped(keys, indices, key, n)
    ensures Stored(keys, key)
  {
    var b: nat, l: nat :| MapsAt(keys, indices, key, n, b, l);
    InRow(keys, b, l);
  }

  /** A key that a table does not hold is not there after another key has been put in. */
  lemma NoOther(c: Config, k: seq<seq<int>>, i: seq<seq<int>>, k': seq<seq<int>>, i': seq<seq<int>>, key: int, x: int)
    requires Grid(c, k') && Grid(c, i') && x != key && x != EMPTY && !Stored(k, x)
    requires forall y, n :: y != key && y != EMPTY ==> (IsMapped(k', i', y, n) <==> IsMapped(k, i, y, n))
    ensures !Stored(k', x)
  {
    hide IsMapped, Stored;
    if Stored(k', x) {
      var n := StoredMapped(c, k', i', x);
      MappedStored(k, i, x, n);
    }
  }

  /** A number within 20 of the table size is reported as a failure although the key is stored: it
      comes up with the thirteenth key of a table made for eight. */
  method FailsThoughStored(hash: (nat, int) -> nat) returns (no: int, t: Bht)
    ensures t.Valid() && t.cnt == 13 && t.nb * t.B == 32 && Stored(t.keys, 12) && no == FAILURE && !t.success
  {
    hide TooNear, TableOk, IsMapped, Passed, Partial, Settled, Stored, Grid, Sum, Fills, EvaluateTableSize;
    t := new Bht(16, hash, 8);
    ForEight();
    var k := 0;
    no := 0;
    while k < 13
      invariant k <= 13 && t.Valid() && t.lost == {} && t.B == 16 && t.nb == 2 && t.cnt == k && fresh(t)
      invariant forall x :: x >= k && x != EMPTY ==> !Stored(t.keys, x)
      invariant k == 13 ==> no == FAILURE && Stored(t.keys, 12) && !t.success
    {
      ghost var (k0, i0) := (t.keys, t.indices);
      PartialShape(t.Cfg(), t.keys, t.indices, t.active, t.cnt, {});
      NearFrom12(t.Cfg(), k);
      var over: bool;
      no, over := t.Insert(k);
      PartialShape(t.Cfg(), t.keys, t.indices, t.active, t.cnt, {});
      if !Stored(t.keys, k) {
        StillRoom(t.Cfg(), t.keys, k);
        assert false;
      }
      forall x | x >= k + 1 && x != EMPTY
        ensures !Stored(t.keys, x)
      {
        NoOther(t.Cfg(), k0, i0, t.keys, t.indices, k, x);
      }
      k := k + 1;
    }
  }

  lemma ForEight()
    ensures EvaluateTableSize(8, 16) == 32
  {
    assert CeilLog2(8) == 3;
  }

  lemma NearFrom12(c: Config, n: nat)
    requires c.nb == 2 && c.B == 16
    ensures TooNear(c, n) <==> n >= 12
  {
  }

  // A run that writes past the end of the list.

  /** One bucket a key: the first nine keys share one of five buckets, and three of three. */
  function Spread(iter: nat, key: int): nat
  {
    if 1 <= key <= 9 then 10 * key else 1 + key % 4
  }

  /** Another key takes the next slot of its row. */
  lemma RowGrows(c: Config, k: seq<seq<int>>, b: nat, l: nat, key: int)
    requires c.nb > 0 && Grid(c, k) && TableOk(c, k) && Slot(c, b, l) && k[b][l] == EMPTY != key
    requires Grid(c, Put(k, b, l, key)) && TableOk(c, Put(k, b, l, key))
    ensures forall d :: 0 <= d < c.nb ==> Fill(Put(k, b, l, key)[d]) == Fill(k[d]) + if d == b then 1 else 0
  {
    hide Fill, Homed;
    var (f, row) := (Fill(k[b]), Put(k, b, l, key)[b]);
    assert Prefix(c, k[b]) && Prefix(c, row);
    if l > f {
      FillIs(row, f);
    }
    FillIs(row, f + 1);
  }

  lemma RoomInRow(c: Config, k: seq<seq<int>>, key: int)
    requires c.nb > 0 && Grid(c, k) && TableOk(c, k) && Fill(k[Bucket(c, key, 0)]) < c.B - 1
    ensures !Passed(c, k, key, 3)
  {
    hide Homed;
    var row := k[Bucket(c, key, 0)];
    assert Prefix(c, row) && row[Fill(row)] == EMPTY;
    assert !FullRow(c, row);
  }

  /** A key with one bucket stands there. */
  lemma InItsRow(c: Config, k: seq<seq<int>>, b: nat, l: nat)
    requires c.nb > 0 && Grid(c, k) && TableOk(c, k) && Slot(c, b, l) && k[b][l] != EMPTY && c.hash == Spread
    ensures b == Bucket(c, k[b][l], 0)
  {
    hide Fill, Prefix, FullRow;
    assert Homed(c, k, b, l);
  }

  ghost predicate OneMoreKey(k: seq<seq<int>>, k': seq<seq<int>>, b: nat)
  {
    |k| == |k'| && forall d :: 0 <= d < |k| ==> Fill(k'[d]) == Fill(k[d]) + if d == b then 1 else 0
  }

  /** One insertion of the run: a new key, and its row has room. */
  method Press(t: Bht, key: int) returns (no: int, overrun: bool)
    requires t.Valid() && t.nb > 0 && t.B == 4 && t.hash == Spread && 1 <= key <= 21
    requires t.nb == |t.keys| && !Stored(t.keys, key) && Fill(t.keys[Bucket(t.Cfg(), key, 0)]) < 3
    modifies t`keys, t`indices, t`active, t`cnt, t`success
    ensures overrun <==> old(t.cnt) >= |t.active|
    ensures (!overrun ==> t.Valid()) && t.cnt == old(t.cnt) + 1 && |t.active| == 4 * t.nb
    ensures OneMoreKey(old(t.keys), t.keys, Bucket(t.Cfg(), key, 0))
    ensures forall x :: x != EMPTY && Stored(t.keys, x) ==> x == key || Stored(old(t.keys), x)
    ensures overrun ==> no == old(t.cnt)
  {
    hide TableOk, Fill, Passed, Stored, IsMapped, TooNear, Grid, Partial, Bucket;
    ghost var (c, k, i, n) := (t.Cfg(), t.keys, t.indices, t.cnt);
    PartialShape(c, k, i, t.active, n, t.lost);
    RoomInRow(c, k, key);
    no, overrun := t.Insert(key);
    PartialShape(c, t.keys, t.indices, t.active, t.cnt, t.lost);
    ghost var b: nat, l: nat :| t.Filled(k, i, key, n, b, l);
    RowGrows(c, k, b, l, key);
    OwnRow(c, k, b, l, key);
    Rows(c, k);
    Rows(c, t.keys);
    forall x | x != EMPTY && x != key && !Stored(k, x)
      ensures !Stored(t.keys, x)
    {
      NoOther(c, k, i, t.keys, t.indices, key, x);
    }
  }

  lemma OwnRow(c: Config, k: seq<seq<int>>, b: nat, l: nat, key: int)
    requires c.nb > 0 && Grid(c, k) && Slot(c, b, l) && key != EMPTY && c.hash == Spread
    requires Grid(c, Put(k, b, l, key)) && TableOk(c, Put(k, b, l, key))
    ensures b == Bucket(c, key, 0)
  {
    hide TableOk, Bucket;
    InItsRow(c, Put(k, b, l, key), b, l);
  }

  lemma Rows(c: Config, k: seq<seq<int>>)
    requires Grid(c, k)
    ensures |k| == c.nb
  {
  }

  /** How full the rows are after `k` of the first nine keys, and after `j` of the others. */
  ghost predicate ThreeRows(keys: seq<seq<int>>, k: nat)
  {
    |keys| == 3 && Fill(keys[0]) == k / 3 && Fill(keys[1]) == (k + 2) / 3 && Fill(keys[2]) == (k + 1) / 3
  }

  ghost predicate FiveRows(keys: seq<seq<int>>, j: nat)
  {
    && |keys| == 5 && Fill(keys[1]) == Quarter(j + 1) && Fill(keys[2]) == Quarter(j) && Fill(keys[3]) == Quarter(j + 3)
    && Fill(keys[4]) == Quarter(j + 2)
  }

  function Quarter(n: nat): nat
  {
    n / 4
  }

  lemma QuarterNext(n: nat)
    ensures Quarter(n + 1) == Quarter(n) + if n % 4 == 3 then 1 else 0
  {
  }

  lemma RoomOfThree(c: Config, k: seq<seq<int>>, j: nat)
    requires ThreeRows(k, j) && j < 9 && c.nb == 3 && c.hash == Spread
    ensures |k| == 3 && Fill(k[Bucket(c, j + 1, 0)]) < 3
  {
    SpreadOf(c, j + 1);
    hide Spread, Fill, Bucket;
  }

  lemma NextOfThree(c: Config, k: seq<seq<int>>, k': seq<seq<int>>, j: nat)
    requires ThreeRows(k, j) && j < 9 && c.nb == 3 && c.hash == Spread && OneMoreKey(k, k', Bucket(c, j + 1, 0))
    ensures ThreeRows(k', j + 1)
  {
    SpreadOf(c, j + 1);
    hide Spread, Fill, Bucket;
  }

  lemma RoomOfFive(c: Config, k: seq<seq<int>>, j: nat)
    requires FiveRows(k, j) && j < 12 && c.nb == 5 && c.hash == Spread
    ensures |k| == 5 && Fill(k[Bucket(c, 10 + j, 0)]) < 3
  {
    SpreadOf(c, 10 + j);
    hide Spread, Fill, Bucket;
  }

  lemma NextOfFive(c: Config, k: seq<seq<int>>, k': seq<seq<int>>, j: nat)
    requires FiveRows(k, j) && j < 12 && c.nb == 5 && c.hash == Spread && OneMoreKey(k, k', Bucket(c, 10 + j, 0))
    ensures FiveRows(k', j + 1)
  {
    hide Spread, Fill, Bucket, Quarter;
    SpreadOf(c, 10 + j);
    QuarterNext(j);
    QuarterNext(j + 1);
    QuarterNext(j + 2);
    QuarterNext(j + 3);
  }

  /** The first nine keys fill a table made for three entries. */
  method NineKeys() returns (t: Bht)
    ensures fresh(t) && t.Valid() && t.B == 4 && t.nb == 3 && t.hash == Spread && t.cnt == 9 && t.lost == {}
    ensures forall x :: x != EMPTY && Stored(t.keys, x) ==> 1 <= x <= 9
  {
    hide TableOk, Fill, Passed, Stored, IsMapped, Partial, EvaluateTableSize, ThreeRows, Bucket, OneMoreKey;
    t := new Bht(4, Spread, 3);
    SmallSizes();
    EmptyRows(t);
    var k := 0;
    while k < 9
      invariant k <= 9 && fresh(t) && t.Valid() && t.B == 4 && t.nb == 3 && t.hash == Spread && t.cnt == k
                && t.lost == {}
      invariant ThreeRows(t.keys, k) && forall x :: x != EMPTY && Stored(t.keys, x) ==> 1 <= x <= k
    {
      RoomOfThree(t.Cfg(), t.keys, k);
      ghost var was := t.keys;
      var no, over := Press(t, k + 1);
      NextOfThree(t.Cfg(), was, t.keys, k);
      k := k + 1;
    }
  }

  lemma SmallSizes()
    ensures EvaluateTableSize(3, 4) == 12 && EvaluateTableSize(5, 4) == 20
  {
    assert CeilLog2(3) == 2 && CeilLog2(5) == 3;
  }

  lemma EmptyRows(t: Bht)
    requires t.Valid() && t.nb == 3 && forall key :: key != EMPTY ==> !Stored(t.keys, key)
    ensures ThreeRows(t.keys, 0)
  {
    hide TableOk;
    forall b | 0 <= b < 3
      ensures Fill(t.keys[b]) == 0
    {
      if Fill(t.keys[b]) > 0 {
        InRow(t.keys, b, 0);
      }
    }
  }

  lemma SpreadOf(c: Config, key: int)
    requires c.hash == Spread && 1 <= key <= 21
    ensures c.nb == 3 && key <= 9 ==> Bucket(c, key, 0) == key % 3
    ensures c.nb == 5 ==> Bucket(c, key, 0) == if key <= 9 then 0 else 1 + key % 4
  {
  }

  /** A larger table has room for three of the nine keys; the other rows are empty. */
  lemma NineInOne(t: Bht)
    requires t.Valid() && t.nb == 5 && t.hash == Spread && t.B == 4
    requires forall x :: x != EMPTY && Stored(t.keys, x) ==> 1 <= x <= 9
    ensures FiveRows(t.keys, 0)
  {
    hide TableOk, Spread;
    forall b | 1 <= b < 5
      ensures Fill(t.keys[b]) == 0
    {
      if Fill(t.keys[b]) > 0 {
        InRow(t.keys, b, 0);
        InItsRow(t.Cfg(), t.keys, b, 0);
        SpreadOf(t.Cfg(), t.keys[b][0]);
      }
    }
  }

  /** Nine keys in a table made for three entries, a resize for five that has room for three of them,
      and twelve more keys: the last one gets number 20, and the list has 20 entries. */
  method ListRunsOut() returns (t: Bht, no: int, overrun: bool)
    ensures overrun && no == |t.active| == t.nb * t.B == 20 && t.cnt == 21
  {
    hide TableOk, Fill, Passed, Stored, IsMapped, Partial, EvaluateTableSize, FiveRows, Bucket, OneMoreKey;
    t := NineKeys();
    ghost var (c, k, i, a) := (t.Cfg(), t.keys, t.indices, t.active);
    SmallSizes();
    t.Resize(5);
    OnlyNine(c, k, i, a, t);
    NineInOne(t);
    var j := 0;
    while j < 11
      invariant j <= 11 && fresh(t) && t.Valid() && t.B == 4 && t.nb == 5 && t.hash == Spread && t.cnt == 9 + j
      invariant |t.active| == 20 && FiveRows(t.keys, j)
      invariant forall x :: x != EMPTY && Stored(t.keys, x) ==> 1 <= x <= 9 + j
    {
      RoomOfFive(t.Cfg(), t.keys, j);
      ghost var was := t.keys;
      no, overrun := Press(t, 10 + j);
      NextOfFive(t.Cfg(), was, t.keys, j);
      j := j + 1;
    }
    RoomOfFive(t.Cfg(), t.keys, 11);
    no, overrun := Press(t, 21);
  }

  /** The resize makes up no keys. */
  lemma OnlyNine(c: Config, k: seq<seq<int>>, i: seq<seq<int>>, a: seq<int>, t: Bht)
    requires Partial(c, k, i, a, 9, {}) && |a| >= 9 && t.Valid() && t.nb == 5 && t.B == 4
    requires forall x :: x != EMPTY && Stored(k, x) ==> 1 <= x <= 9
    requires forall key, n :: key != EMPTY && IsMapped(t.keys, t.indices, key, n) ==>
               0 <= n < 9 && n < |a| && a[n] == key
    ensures forall x :: x != EMPTY && Stored(t.keys, x) ==> 1 <= x <= 9
    ensures |t.active| == 20
  {
    hide IsMapped, Stored;
    PartialMap(c, k, i, a, 9, {});
    forall x | x != EMPTY && Stored(t.keys, x)
      ensures 1 <= x <= 9
    {
      var n := StoredMapped(t.Cfg(), t.keys, t.indices, x);
      MappedStored(k, i, x, n);
    }
  }
}
