/** The bucketed cuckoo hash table `bcht`: a key stands in one of three buckets, and a full bucket
    makes room by sending one of its keys on to another bucket of that key. */
module Cuckoo {
  import opened Buckets

  /** Where the stored keys are. */
  type Places = map<int, (nat, nat)>

  predicate Full(row: seq<int>)
  {
    EMPTY !in row
  }

  /** The free slots of a bucket are its last ones. */
  ghost predicate Packed(row: seq<int>)
  {
    forall l :: Fill(row) <= l < |row| ==> row[l] == EMPTY
  }

  /** Bucket `b` is the `j`th candidate of the key, and the candidates before it are full. */
  ghost predicate StandsAt(c: Config, keys: seq<seq<int>>, key: int, b: nat, j: nat)
    requires c.nb > 0 && Grid(c, keys)
  {
    Bucket(c, key, j) == b && forall i: nat :: i < j ==> Full(keys[Bucket(c, key, i)])
  }

  ghost predicate CanStand(c: Config, keys: seq<seq<int>>, key: int, b: nat)
    requires c.nb > 0 && Grid(c, keys)
  {
    StandsAt(c, keys, key, b, 0) || StandsAt(c, keys, key, b, 1) || StandsAt(c, keys, key, b, 2)
  }

  ghost predicate SlotOk(c: Config, keys: seq<seq<int>>, at: Places, b: nat, l: nat)
    requires Grid(c, keys) && Slot(c, b, l)
  {
    keys[b][l] != EMPTY ==> keys[b][l] in at && at[keys[b][l]] == (b, l)
  }

  ghost predicate KeyOk(c: Config, keys: seq<seq<int>>, at: Places, k: int)
    requires c.nb > 0 && Grid(c, keys) && k in at
  {
    var (b, l) := at[k];
    k != EMPTY && Slot(c, b, l) && keys[b][l] == k && CanStand(c, keys, k, b)
  }

  /** Every key has one slot, in a bucket in which a lookup will look for it. */
  ghost predicate Sound(c: Config, keys: seq<seq<int>>, at: Places)
  {
    && c.nb > 0 && c.B > 0 && Grid(c, keys)
    && (forall b :: 0 <= b < c.nb ==> Packed(keys[b]))
    && (forall b: nat, l: nat :: Slot(c, b, l) ==> SlotOk(c, keys, at, b, l))
    && (forall k :: k in at ==> KeyOk(c, keys, at, k))
  }

  /** Full buckets are still full. */
  ghost predicate StillFull(keys: seq<seq<int>>, keys': seq<seq<int>>)
  {
    |keys'| == |keys| && forall b :: 0 <= b < |keys| && Full(keys[b]) ==> Full(keys'[b])
  }

  lemma CanStandStays(c: Config, keys: seq<seq<int>>, keys': seq<seq<int>>, key: int, b: nat)
    requires c.nb > 0 && Grid(c, keys) && Grid(c, keys') && StillFull(keys, keys') && CanStand(c, keys, key, b)
    ensures CanStand(c, keys', key, b)
  {
    hide Full;
  }

  /** A key written over the first free slot, or over another key. */
  lemma PackedPut(row: seq<int>, l: nat, key: int)
    requires Packed(row) && l < |row| && l <= Fill(row) && key != EMPTY
    ensures Packed(row[l := key]) && Fill(row[l := key]) == if l == Fill(row) then l + 1 else Fill(row)
    ensures Full(row) ==> Full(row[l := key])
  {
    var n := if l == Fill(row) then l + 1 else Fill(row);
    var r := row[l := key];
    if n < |row| {
      FillIs(r, n);
    } else {
      assert EMPTY !in r;
      assert Fill(r) == |r|;
    }
  }

  lemma FullIs(row: seq<int>)
    ensures Full(row) <==> Fill(row) == |row|
  {
    if Fill(row) < |row| {
      assert row[Fill(row)] == EMPTY;
    }
  }

  /** The places after a key is written over a slot that held `was`. */
  function Replaced(at: Places, was: int, key: int, b: nat, l: nat): Places
  {
    (at - {was})[key := (b, l)]
  }

  lemma PutRows(c: Config, keys: seq<seq<int>>, key: int, b: nat, l: nat)
    requires Grid(c, keys) && (forall d :: 0 <= d < c.nb ==> Packed(keys[d]))
    requires key != EMPTY && Slot(c, b, l) && l <= Fill(keys[b])
    ensures var g := Put(keys, b, l, key);
            Grid(c, g) && StillFull(keys, g) && forall d :: 0 <= d < c.nb ==> Packed(g[d])
  {
    hide Packed, Fill, Full;
    assert Packed(keys[b]);
    PackedPut(keys[b], l, key);
    forall d | 0 <= d < c.nb
      ensures Packed(Put(keys, b, l, key)[d])
    {
      assert Packed(keys[d]);
    }
  }

  /** A key is written into the first free slot of its bucket, or over another key: the table
      stays sound without the key that stood there, and full buckets stay full. */
  lemma Written(c: Config, keys: seq<seq<int>>, at: Places, key: int, b: nat, l: nat)
    requires Sound(c, keys, at) && key != EMPTY && key !in at
    requires Slot(c, b, l) && l <= Fill(keys[b]) && CanStand(c, keys, key, b)
    ensures var g := Put(keys, b, l, key);
            Sound(c, g, Replaced(at, keys[b][l], key, b, l)) && StillFull(keys, g)
  {
    hide Packed, Fill, Full, CanStand, StillFull;
    var (g, was) := (Put(keys, b, l, key), keys[b][l]);
    var at' := Replaced(at, was, key, b, l);
    PutRows(c, keys, key, b, l);
    PutGrid(c, keys, b, l, key);
    assert SlotOk(c, keys, at, b, l);
    forall d: nat, m: nat | Slot(c, d, m)
      ensures SlotOk(c, g, at', d, m)
    {
      assert SlotOk(c, keys, at, d, m);
    }
    forall k | k in at'
      ensures KeyOk(c, g, at', k)
    {
      if k == key {
        CanStandStays(c, keys, g, k, b);
      } else {
        assert KeyOk(c, keys, at, k);
        CanStandStays(c, keys, g, k, at[k].0);
      }
    }
  }

  /** The bucket in which an evicted key is tried next. */
  function NextBucket(c: Config, key: int, b: nat): (d: nat)
    requires c.nb > 0
    ensures d < c.nb
  {
    var (b0, b1, b2) := (Bucket(c, key, 0), Bucket(c, key, 1), Bucket(c, key, 2));
    var d := if b == b1 then b2 else b0;
    if b == b0 then b1 else d
  }

  /** From a full bucket a key goes on to a bucket in which a lookup will find it. */
  lemma MovesOn(c: Config, keys: seq<seq<int>>, key: int, b: nat)
    requires c.nb > 0 && Grid(c, keys) && b < c.nb && Full(keys[b]) && CanStand(c, keys, key, b)
    ensures CanStand(c, keys, key, NextBucket(c, key, b))
  {
    hide Full, Bucket;
    var d := NextBucket(c, key, b);
    if b == Bucket(c, key, 0) {
      assert StandsAt(c, keys, key, d, 1);
    } else if b == Bucket(c, key, 1) {
      assert StandsAt(c, keys, key, d, 2);
    } else {
      assert StandsAt(c, keys, key, d, 0);
    }
  }

  /** Evictions from the candidates of a key, if they are different, lead round all three of them. */
  lemma Visits(c: Config, key: int, j: nat)
    requires c.nb > 0 && j < 3
    requires forall i: nat, k: nat :: i < k < 3 ==> Bucket(c, key, i) != Bucket(c, key, k)
    ensures NextBucket(c, key, Bucket(c, key, j)) == Bucket(c, key, (j + 1) % 3)
    ensures var b := Bucket(c, key, j);
            var (d, e) := (NextBucket(c, key, b), NextBucket(c, key, NextBucket(c, key, b)));
            {b, d, e} == {Bucket(c, key, 0), Bucket(c, key, 1), Bucket(c, key, 2)} && NextBucket(c, key, e) == b
  {
    hide Bucket;
    assert Bucket(c, key, 0) != Bucket(c, key, 1);
    assert Bucket(c, key, 0) != Bucket(c, key, 2);
    assert Bucket(c, key, 1) != Bucket(c, key, 2);
  }

  /** Bucket `b` is the `j`th candidate of the key and none before, and the candidate after it,
      round the three of them, has room. */
  ghost predicate RoomAfter(c: Config, keys: seq<seq<int>>, key: int, b: nat, j: nat)
    requires c.nb > 0 && Grid(c, keys)
  {
    && j < 3 && Bucket(c, key, j) == b && (forall i: nat :: i < j ==> Bucket(c, key, i) != b)
    && !Full(keys[Bucket(c, key, (j + 1) % 3)])
  }

  /** A lookup may stop at the first bucket that is not full and does not hold the key. */
  lemma EarlyExit(c: Config, keys: seq<seq<int>>, at: Places, key: int, iter: nat)
    requires Sound(c, keys, at) && key != EMPTY && iter < 3
    requires forall j: nat :: j <= iter ==> key !in keys[Bucket(c, key, j)]
    requires iter == 2 || !Full(keys[Bucket(c, key, iter)])
    ensures key !in at
  {
    hide Packed, SlotOk, Full;
    if key in at && KeyOk(c, keys, at, key) {
    }
  }

  lemma InRow(c: Config, keys: seq<seq<int>>, at: Places, key: int, b: nat)
    requires Sound(c, keys, at) && key != EMPTY && b < c.nb
    ensures key in keys[b] <==> key in at && at[key].0 == b
  {
    hide Packed, CanStand, Full;
    if key in keys[b] {
      var l: nat :| l < c.B && keys[b][l] == key;
      assert SlotOk(c, keys, at, b, l);
    } else if key in at {
      assert KeyOk(c, keys, at, key);
    }
  }

  lemma BlankSound(c: Config)
    requires c.nb > 0 && c.B > 0
    ensures Sound(c, Blank(c.nb, c.B, EMPTY), map[])
  {
  }

  ghost function Entries(at: Places, indices: seq<seq<int>>): map<int, int>
    requires forall k :: k in at ==> at[k].0 < |indices| && at[k].1 < |indices[at[k].0]|
  {
    map k | k in at :: indices[at[k].0][at[k].1]
  }

  // Chains of evictions.

  /** What is left at the end of the loop of `insert`: the key was there, or all pairs have a slot,
      or one pair is left in hand. */
  datatype Verdict = Refused | Settles | Loses(hand: int, idx: int)

  datatype Chased = Chased(keys: seq<seq<int>>, indices: seq<seq<int>>, v: Verdict)

  /** `sentinel_v`, the number, or `failure_token_v`; or the key has been placed, but the entry of
      `_activeKeys` in which it would be listed lies past the end. */
  datatype Outcome = Present | Placed(no: int) | Failed | Overrun(no: int)

  /** The arrays of a table in use: buckets filled from the front, a number beside every key. */
  ghost predicate Formed(c: Config, keys: seq<seq<int>>, indices: seq<seq<int>>)
  {
    && c.nb > 0 && c.B > 0 && Grid(c, keys) && Grid(c, indices)
    && (forall b :: 0 <= b < c.nb ==> Packed(keys[b]))
    && forall b: nat, l: nat :: Slot(c, b, l) && keys[b][l] != EMPTY ==> indices[b][l] != NO_INDEX
  }

  /** The loop of `insert` as a function: `hand` is tried in bucket `b`, `pick` are the random
      numbers, and after the round in which `max` evictions have been made the loop gives up. */
  ghost function Chase(c: Config, keys: seq<seq<int>>, indices: seq<seq<int>>, b: nat, hand: int, idx: int,
      pick: nat -> nat, chains: nat, max: nat): Chased
    requires c.nb > 0 && c.B > 0 && Grid(c, keys) && Grid(c, indices) && b < c.nb
    decreases if max > chains then max - chains else 0
  {
    var l := Fill(keys[b]);
    if hand in keys[b] then Chased(keys, indices, Refused)
    else if l < c.B then Chased(Put(keys, b, l, hand), Put(indices, b, l, idx), Settles)
    else
      var p := pick(chains) % c.B;
      var (k, i) := (Put(keys, b, p, hand), Put(indices, b, p, idx));
      if chains + 1 >= max then Chased(k, i, Loses(keys[b][p], indices[b][p]))
      else Chase(c, k, i, NextBucket(c, keys[b][p], b), keys[b][p], indices[b][p], pick, chains + 1, max)
  }

  /** The buckets that the loop visits, up to the first one with room, as far as `max` allows. */
  ghost function Trail(c: Config, keys: seq<seq<int>>, b: nat, hand: int, pick: nat -> nat, chains: nat,
      max: nat): (s: seq<nat>)
    requires c.nb > 0 && c.B > 0 && Grid(c, keys) && b < c.nb
    ensures forall t :: 0 <= t < |s| ==> s[t] < c.nb
    decreases if max > chains then max - chains else 0
  {
    if Fill(keys[b]) < c.B || chains + 1 >= max then [b]
    else
      var p := pick(chains) % c.B;
      [b] + Trail(c, Put(keys, b, p, hand), NextBucket(c, keys[b][p], b), keys[b][p], pick, chains + 1, max)
  }

  /** A pair goes into the first free slot of its bucket, or over another pair of the full bucket. */
  lemma PutFormed(c: Config, keys: seq<seq<int>>, indices: seq<seq<int>>, b: nat, l: nat, hand: int, idx: int)
    requires Formed(c, keys, indices) && Slot(c, b, l) && l <= Fill(keys[b]) && hand != EMPTY && idx != NO_INDEX
    ensures Formed(c, Put(keys, b, l, hand), Put(indices, b, l, idx))
  {
    hide Packed, Fill, Full;
    PutRows(c, keys, hand, b, l);
    PutGrid(c, keys, b, l, hand);
    PutGrid(c, indices, b, l, idx);
  }

  lemma {:induction false} ChaseFormed(c: Config, keys: seq<seq<int>>, indices: seq<seq<int>>, b: nat, hand: int,
      idx: int, pick: nat -> nat, chains: nat, max: nat)
    requires Formed(c, keys, indices) && b < c.nb && hand != EMPTY && idx != NO_INDEX
    ensures var r := Chase(c, keys, indices, b, hand, idx, pick, chains, max); Formed(c, r.keys, r.indices)
    decreases if max > chains then max - chains else 0
  {
    hide Packed, Full, NextBucket;
    var l := Fill(keys[b]);
    if hand in keys[b] {
    } else if l < c.B {
      PutFormed(c, keys, indices, b, l, hand, idx);
    } else {
      var p := pick(chains) % c.B;
      PutFormed(c, keys, indices, b, p, hand, idx);
      if chains + 1 < max {
        ChaseFormed(c, Put(keys, b, p, hand), Put(indices, b, p, idx), NextBucket(c, keys[b][p], b), keys[b][p],
            indices[b][p], pick, chains + 1, max);
      }
    }
  }

  /** The hand of a sound table: a key that is not in it, in front of a bucket where it may stand. */
  ghost predicate InHand(c: Config, keys: seq<seq<int>>, indices: seq<seq<int>>, at: Places, b: nat, hand: int,
      idx: int)
  {
    && Sound(c, keys, at) && Formed(c, keys, indices) && b < c.nb
    && hand != EMPTY && hand !in at && idx != NO_INDEX && CanStand(c, keys, hand, b)
  }

  lemma Inside(c: Config, keys: seq<seq<int>>, indices: seq<seq<int>>, at: Places)
    requires Sound(c, keys, at) && Formed(c, keys, indices)
    ensures forall k :: k in at ==> at[k].0 < |indices| && at[k].1 < |indices[at[k].0]|
    ensures Entries(at, indices).Keys == at.Keys
  {
    hide Packed, CanStand, Full;
    forall k | k in at
      ensures Slot(c, at[k].0, at[k].1)
    {
      assert KeyOk(c, keys, at, k);
    }
  }

  /** The contents with the pair in hand. */
  ghost function Together(at: Places, indices: seq<seq<int>>, hand: int, idx: int): map<int, int>
    requires forall k :: k in at ==> at[k].0 < |indices| && at[k].1 < |indices[at[k].0]|
  {
    Entries(at, indices)[hand := idx]
  }

  /** A round that finds room. */
  lemma SettleSound(c: Config, keys: seq<seq<int>>, indices: seq<seq<int>>, at: Places, b: nat, hand: int,
      idx: int) returns (at': Places)
    requires InHand(c, keys, indices, at, b, hand, idx) && Fill(keys[b]) < c.B
    ensures var l := Fill(keys[b]);
            Sound(c, Put(keys, b, l, hand), at')
            && Formed(c, Put(keys, b, l, hand), Put(indices, b, l, idx))
    ensures forall k :: k in at ==> at[k].0 < |indices| && at[k].1 < |indices[at[k].0]|
    ensures var i := Put(indices, b, Fill(keys[b]), idx);
            && (forall k :: k in at' ==> at'[k].0 < |i| && at'[k].1 < |i[at'[k].0]|)
            && Entries(at', i) == Together(at, indices, hand, idx)
  {
    hide Packed, CanStand, Full, Fill;
    var l := Fill(keys[b]);
    FirstFree(keys[b], l);
    Written(c, keys, at, hand, b, l);
    PutFormed(c, keys, indices, b, l, hand, idx);
    Inside(c, keys, indices, at);
    EntriesPut(c, keys, at, indices, hand, b, l, idx);
    at' := Replaced(at, keys[b][l], hand, b, l);
  }

  /** A round that evicts: table and hand together hold the same pairs as before. */
  lemma EvictSound(c: Config, keys: seq<seq<int>>, indices: seq<seq<int>>, at: Places, b: nat, hand: int, idx: int,
      p: nat) returns (at': Places)
    requires InHand(c, keys, indices, at, b, hand, idx) && Fill(keys[b]) == c.B && p < c.B
    ensures InHand(c, Put(keys, b, p, hand), Put(indices, b, p, idx), at', NextBucket(c, keys[b][p], b), keys[b][p],
            indices[b][p])
    ensures forall k :: k in at ==> at[k].0 < |indices| && at[k].1 < |indices[at[k].0]|
    ensures var i := Put(indices, b, p, idx);
            && (forall k :: k in at' ==> at'[k].0 < |i| && at'[k].1 < |i[at'[k].0]|)
            && Together(at', i, keys[b][p], indices[b][p]) == Together(at, indices, hand, idx)
  {
    hide Packed, CanStand, Full, Fill;
    FullIs(keys[b]);
    Evicted(c, keys, at, b, p);
    Written(c, keys, at, hand, b, p);
    PutFormed(c, keys, indices, b, p, hand, idx);
    Inside(c, keys, indices, at);
    EntriesPut(c, keys, at, indices, hand, b, p, idx);
    var (k, was) := (Put(keys, b, p, hand), keys[b][p]);
    FullStays(keys, k, b);
    CanStandStays(c, keys, k, was, b);
    MovesOn(c, k, was, b);
    at' := Replaced(at, was, hand, b, p);
  }

  lemma FullStays(keys: seq<seq<int>>, keys': seq<seq<int>>, b: nat)
    requires StillFull(keys, keys') && b < |keys| && Full(keys[b])
    ensures Full(keys'[b])
  {
    hide Full;
  }

  /** The whole chain conserves the pairs of table and hand, and refuses nothing. */
  lemma {:induction false} ChaseSound(c: Config, keys: seq<seq<int>>, indices: seq<seq<int>>, at: Places, b: nat,
      hand: int, idx: int, pick: nat -> nat, chains: nat, max: nat) returns (at': Places)
    requires InHand(c, keys, indices, at, b, hand, idx)
    ensures forall k :: k in at ==> at[k].0 < |indices| && at[k].1 < |indices[at[k].0]|
    ensures var r := Chase(c, keys, indices, b, hand, idx, pick, chains, max);
            && !r.v.Refused? && Sound(c, r.keys, at') && Formed(c, r.keys, r.indices)
            && (forall k :: k in at' ==> at'[k].0 < |r.indices| && at'[k].1 < |r.indices[at'[k].0]|)
            && (r.v.Settles? ==> Entries(at', r.indices) == Together(at, indices, hand, idx))
            && (r.v.Loses? ==>
                r.v.hand !in at' && Together(at', r.indices, r.v.hand, r.v.idx) == Together(at, indices, hand, idx))
    decreases if max > chains then max - chains else 0
  {
    hide Sound, Formed, Fill, Packed, CanStand, Full, NextBucket, Entries, Together, Replaced;
    HandOutside(c, keys, indices, at, b, hand, idx);
    if Fill(keys[b]) < c.B {
      at' := SettleSound(c, keys, indices, at, b, hand, idx);
    } else {
      var p := pick(chains) % c.B;
      at' := EvictSound(c, keys, indices, at, b, hand, idx, p);
      if chains + 1 < max {
        at' := ChaseSound(c, Put(keys, b, p, hand), Put(indices, b, p, idx), at', NextBucket(c, keys[b][p], b),
            keys[b][p], indices[b][p], pick, chains + 1, max);
      }
    }
  }

  /** One eviction is enough if the key drawn from the full bucket has room in its candidate after
      that bucket: it moves there, and the new key takes its slot. */
  lemma OneMove(c: Config, keys: seq<seq<int>>, indices: seq<seq<int>>, at: Places, b: nat, hand: int, idx: int,
      pick: nat -> nat, chains: nat, max: nat, j: nat)
    requires InHand(c, keys, indices, at, b, hand, idx) && c.nb > 0 && c.B > 0 && Grid(c, keys) && Grid(c, indices)
    requires Full(keys[b]) && chains + 1 < max && RoomAfter(c, keys, keys[b][pick(chains) % c.B], b, j)
    ensures var p := pick(chains) % c.B;
            var was := keys[b][p];
            var d := Bucket(c, was, (j + 1) % 3);
            && d != b && Fill(keys[d]) < c.B
            && Chase(c, keys, indices, b, hand, idx, pick, chains, max) ==
                Chased(Put(Put(keys, b, p, hand), d, Fill(keys[d]), was),
                    Put(Put(indices, b, p, idx), d, Fill(keys[d]), indices[b][p]), Settles)
  {
    hide Packed, Fill, Full, CanStand, Bucket, InHand, Sound, Formed, Replaced, Entries, Together;
    var p := pick(chains) % c.B;
    var was := keys[b][p];
    var d := Bucket(c, was, (j + 1) % 3);
    FullIs(keys[b]);
    FullIs(keys[d]);
    assert NextBucket(c, was, b) == d;
    HandOutside(c, keys, indices, at, b, hand, idx);
    var at' := EvictSound(c, keys, indices, at, b, hand, idx, p);
    HandOutside(c, Put(keys, b, p, hand), Put(indices, b, p, idx), at', d, was, indices[b][p]);
  }

  lemma HandOutside(c: Config, keys: seq<seq<int>>, indices: seq<seq<int>>, at: Places, b: nat, hand: int, idx: int)
    requires InHand(c, keys, indices, at, b, hand, idx)
    ensures c.nb > 0 && c.B > 0 && Grid(c, keys) && Grid(c, indices) && hand !in keys[b] && Fill(keys[b]) <= c.B
  {
    InRow(c, keys, at, hand, b);
    hide Packed, CanStand, Full, SlotOk, KeyOk;
  }

  /** Evictions neither fill nor free a bucket. */
  lemma SameFullness(c: Config, keys: seq<seq<int>>, b: nat, p: nat, hand: int)
    requires c.nb > 0 && Grid(c, keys) && b < c.nb && Fill(keys[b]) == c.B && p < c.B && hand != EMPTY
    ensures Grid(c, Put(keys, b, p, hand)) && forall t :: 0 <= t < c.nb ==>
            Full(Put(keys, b, p, hand)[t]) == Full(keys[t])
  {
    FullIs(keys[b]);
    assert EMPTY !in keys[b][p := hand];
  }

  /** Whether an insertion fails can be told from the buckets its chain visits, as they are before
      the call: it fails exactly if they are all full, and then has made as many rounds as allowed. */
  lemma {:induction false} FailsIff(c: Config, keys: seq<seq<int>>, indices: seq<seq<int>>, at: Places, b: nat,
      hand: int, idx: int, pick: nat -> nat, chains: nat, max: nat)
    requires InHand(c, keys, indices, at, b, hand, idx)
    requires c.nb > 0 && c.B > 0 && Grid(c, keys) && Grid(c, indices)
    ensures var (r, trail) := (Chase(c, keys, indices, b, hand, idx, pick, chains, max),
            Trail(c, keys, b, hand, pick, chains, max));
            && (r.v.Loses? <==> forall t :: 0 <= t < |trail| ==> Full(keys[trail[t]]))
            && (r.v.Loses? ==> |trail| == if max > chains then max - chains else 1)
    decreases if max > chains then max - chains else 0
  {
    hide Sound, Formed, Packed, CanStand, Full, NextBucket, Replaced, InHand, Put, Fill, Bucket;
    HandOutside(c, keys, indices, at, b, hand, idx);
    HandIsKey(c, keys, indices, at, b, hand, idx);
    FullIs(keys[b]);
    assert Trail(c, keys, b, hand, pick, chains, max)[0] == b;
    if Fill(keys[b]) == c.B {
      var p := pick(chains) % c.B;
      if chains + 1 < max {
        var at' := EvictSound(c, keys, indices, at, b, hand, idx, p);
        var (k, i, next) := (Put(keys, b, p, hand), Put(indices, b, p, idx), NextBucket(c, keys[b][p], b));
        SameFullness(c, keys, b, p, hand);
        HandOutside(c, k, i, at', next, keys[b][p], indices[b][p]);
        FailsIff(c, k, i, at', next, keys[b][p], indices[b][p], pick, chains + 1, max);
        TrailGoesOn(keys, k, b, Trail(c, k, next, keys[b][p], pick, chains + 1, max));
      }
    }
  }

  lemma HandIsKey(c: Config, keys: seq<seq<int>>, indices: seq<seq<int>>, at: Places, b: nat, hand: int, idx: int)
    requires InHand(c, keys, indices, at, b, hand, idx)
    ensures hand != EMPTY && b < c.nb
  {
  }

  lemma TrailGoesOn(keys: seq<seq<int>>, k: seq<seq<int>>, b: nat, rest: seq<nat>)
    requires b < |keys| == |k| && Full(keys[b]) && (forall t :: 0 <= t < |rest| ==> rest[t] < |keys|)
    requires forall t :: 0 <= t < |keys| ==> Full(k[t]) == Full(keys[t])
    ensures var trail := [b] + rest;
            && (forall t :: 0 <= t < |trail| ==> trail[t] < |keys|)
            && ((forall t :: 0 <= t < |trail| ==> Full(keys[trail[t]])) <==>
                (forall t :: 0 <= t < |rest| ==> Full(k[rest[t]])))
  {
    hide Full;
    var trail := [b] + rest;
    assert forall t :: 0 <= t < |rest| ==> trail[t + 1] == rest[t];
    assert forall t :: 0 < t < |trail| ==> trail[t] == rest[t - 1];
  }

  /** A trap: full buckets whose keys have all their candidates among them, and the key in hand too. */
  ghost predicate Trap(c: Config, keys: seq<seq<int>>, hand: int, trap: set<nat>)
    requires c.nb > 0 && Grid(c, keys)
  {
    && (forall j: nat :: j < 3 ==> Bucket(c, hand, j) in trap)
    && forall t :: t in trap ==> t < c.nb && Fill(keys[t]) == c.B && Closed(c, keys, t, trap)
  }

  ghost predicate Closed(c: Config, keys: seq<seq<int>>, t: nat, trap: set<nat>)
    requires c.nb > 0 && Grid(c, keys) && t < c.nb
  {
    forall l: nat, j: nat :: l < c.B && j < 3 ==> Bucket(c, keys[t][l], j) in trap
  }

  /** Caught in a trap, an insertion fails whatever the random numbers and however long the chain. */
  lemma {:induction false} FailsAlways(c: Config, keys: seq<seq<int>>, indices: seq<seq<int>>, at: Places, b: nat,
      hand: int, idx: int, pick: nat -> nat, chains: nat, max: nat, trap: set<nat>)
    requires InHand(c, keys, indices, at, b, hand, idx)
    requires c.nb > 0 && c.B > 0 && Grid(c, keys) && Grid(c, indices) && Trap(c, keys, hand, trap) && b in trap
    ensures Chase(c, keys, indices, b, hand, idx, pick, chains, max).v.Loses?
    decreases if max > chains then max - chains else 0
  {
    hide Sound, Formed, Packed, CanStand, Full, Replaced, InHand, Fill, Bucket;
    HandOutside(c, keys, indices, at, b, hand, idx);
    HandIsKey(c, keys, indices, at, b, hand, idx);
    var p := pick(chains) % c.B;
    if chains + 1 < max {
      var at' := EvictSound(c, keys, indices, at, b, hand, idx, p);
      var (k, i, next) := (Put(keys, b, p, hand), Put(indices, b, p, idx), NextBucket(c, keys[b][p], b));
      HandOutside(c, k, i, at', next, keys[b][p], indices[b][p]);
      TrapHolds(c, keys, b, p, hand, trap);
      FailsAlways(c, k, i, at', next, keys[b][p], indices[b][p], pick, chains + 1, max, trap);
    }
  }

  lemma TrapHolds(c: Config, keys: seq<seq<int>>, b: nat, p: nat, hand: int, trap: set<nat>)
    requires c.nb > 0 && c.B > 0 && Grid(c, keys) && Trap(c, keys, hand, trap) && b in trap && b < c.nb && p < c.B
             && hand != EMPTY
    ensures Grid(c, Put(keys, b, p, hand)) && Trap(c, Put(keys, b, p, hand), keys[b][p], trap)
            && NextBucket(c, keys[b][p], b) in trap
  {
    hide Fill, Bucket, Full;
    var (k, was) := (Put(keys, b, p, hand), keys[b][p]);
    assert Closed(c, keys, b, trap);
    forall j: nat | j < 3
      ensures Bucket(c, was, j) in trap
    {
    }
    SameFullness(c, keys, b, p, hand);
    forall t | t in trap
      ensures Fill(k[t]) == c.B && Closed(c, k, t, trap)
    {
      FullIs(keys[t]);
      FullIs(k[t]);
      assert Closed(c, keys, t, trap);
    }
  }

  // Keys that are there already.

  /** A key that is there is refused at once, and nothing changes, exactly if it stands in its
      first bucket: `insert` looks for it there only. Otherwise it is first of all written. */
  lemma RefusedAtOnce(c: Config, keys: seq<seq<int>>, indices: seq<seq<int>>, at: Places, key: int)
    requires Sound(c, keys, at) && key != EMPTY
    ensures key in keys[Bucket(c, key, 0)] <==> key in at && at[key].0 == Bucket(c, key, 0)
  {
    InRow(c, keys, at, key, Bucket(c, key, 0));
  }

  // Pairs and the list of keys.

  /** Every pair is one of the list: the key listed under its number. */
  ghost predicate FromList(c: Config, keys: seq<seq<int>>, indices: seq<seq<int>>, list: seq<int>, n: nat)
    requires Grid(c, keys) && Grid(c, indices)
  {
    forall b: nat, l: nat :: Slot(c, b, l) && keys[b][l] != EMPTY ==> Names(list, n, keys[b][l], indices[b][l])
  }

  predicate Names(list: seq<int>, n: nat, key: int, index: int)
  {
    0 <= index < n && index < |list| && list[index] == key
  }

  /** A chain makes up no pairs. */
  lemma {:induction false} ChaseFromList(c: Config, keys: seq<seq<int>>, indices: seq<seq<int>>, b: nat, hand: int,
      idx: int, pick: nat -> nat, chains: nat, max: nat, list: seq<int>, n: nat)
    requires Formed(c, keys, indices) && b < c.nb && hand != EMPTY && idx != NO_INDEX
    requires FromList(c, keys, indices, list, n) && Names(list, n, hand, idx)
    ensures var r := Chase(c, keys, indices, b, hand, idx, pick, chains, max);
            Grid(c, r.keys) && Grid(c, r.indices) && FromList(c, r.keys, r.indices, list, n)
    decreases if max > chains then max - chains else 0
  {
    hide Packed, Full, NextBucket, Names;
    var l := Fill(keys[b]);
    if hand in keys[b] {
    } else if l < c.B {
      PutFormed(c, keys, indices, b, l, hand, idx);
    } else {
      var p := pick(chains) % c.B;
      PutFormed(c, keys, indices, b, p, hand, idx);
      assert FromList(c, Put(keys, b, p, hand), Put(indices, b, p, idx), list, n);
      if chains + 1 < max {
        ChaseFromList(c, Put(keys, b, p, hand), Put(indices, b, p, idx), NextBucket(c, keys[b][p], b), keys[b][p],
            indices[b][p], pick, chains + 1, max, list, n);
      }
    }
  }

  /** The first `n` keys of a list are the keys of a map, numbered by it. */
  ghost predicate Roster(m: map<int, int>, list: seq<int>, n: nat)
  {
    && n <= |list|
    && (forall i :: 0 <= i < n ==> list[i] != EMPTY && list[i] in m && m[list[i]] == i)
    && forall k :: k in m ==> 0 <= m[k] < n && list[m[k]] == k
  }

  lemma RosterKept(m: map<int, int>, list: seq<int>, list': seq<int>, n: nat)
    requires Roster(m, list, n) && |list| <= |list'| && list'[..|list|] == list
    ensures Roster(m, list', n)
  {
    assert forall i :: 0 <= i < n ==> list'[i] == list'[..|list|][i];
  }

  lemma RosterFits(m: map<int, int>, list: seq<int>, n: nat)
    requires Roster(m, list, n)
    ensures n <= |list|
  {
  }

  /** What the first `i` insertions of a listed map have brought back. */
  ghost predicate Part(m: map<int, int>, was: map<int, int>, list: seq<int>, i: nat, failed: nat)
  {
    && i <= |list|
    && (forall k :: k in m ==> k in was && m[k] == was[k] < i)
    && |m| + failed == i
    && (failed == 0 ==> forall n :: 0 <= n < i ==> list[n] in m)
  }

  lemma PartNone(was: map<int, int>, list: seq<int>)
    ensures Part(map[], was, list, 0, 0)
  {
  }

  lemma PartNext(m: map<int, int>, was: map<int, int>, list: seq<int>, n: nat, i: nat, failed: nat)
    requires Roster(was, list, n) && Part(m, was, list, i, failed) && i < n
    ensures i < |list| && list[i] != EMPTY && list[i] !in m
  {
  }

  lemma PartGrows(m: map<int, int>, m': map<int, int>, was: map<int, int>, list: seq<int>, n: nat, i: nat, failed: nat,
      lost: bool)
    requires Roster(was, list, n) && Part(m, was, list, i, failed) && i < n
    requires Gained(m, m', list[i], i, lost)
    ensures Part(m', was, list, i + 1, if lost then failed + 1 else failed)
  {
    PartNext(m, was, list, n, i, failed);
    Grown(m, m', list[i], i, lost);
  }

  lemma PartWhole(m: map<int, int>, was: map<int, int>, list: seq<int>, n: nat, failed: nat)
    requires Roster(was, list, n) && Part(m, was, list, n, failed)
    ensures |m| + failed == n && forall k :: k in m ==> k in was && m[k] == was[k]
    ensures failed == 0 ==> m == was
  {
    if failed == 0 {
      forall k | k in was
        ensures k in m
      {
        assert list[was[k]] in m;
      }
      assert forall k :: k in m.Keys <==> k in was.Keys;
      assert forall k :: k in was ==> m[k] == was[k];
      assert m == was;
    }
  }

  /** A pair has joined a map, which then may have lost one. */
  ghost predicate Gained(m: map<int, int>, m': map<int, int>, key: int, no: int, lost: bool)
  {
    if lost then exists k :: k in m[key := no] && m' == m[key := no] - {k} else m' == m[key := no]
  }

  lemma Grown(m: map<int, int>, m': map<int, int>, key: int, no: int, lost: bool)
    requires key !in m && Gained(m, m', key, no, lost)
    ensures |m'| == if lost then |m| else |m| + 1
    ensures forall k :: k in m' ==> (k == key && m'[k] == no) || (k in m && m'[k] == m[k])
  {
    assert m[key := no].Keys == m.Keys + {key};
    if lost {
      var k :| k in m[key := no] && m' == m[key := no] - {k};
      assert m'.Keys == m[key := no].Keys - {k};
    }
  }

  /** As many keys as numbers. */
  lemma {:induction false} Numbered(m: map<int, int>, list: seq<int>, n: nat)
    requires Roster(m, list, n)
    ensures |m| == n <= |list|
  {
    if n == 0 {
      forall k
        ensures k !in m
      {
      }
      assert m == map[];
    } else {
      var m' := m - {list[n - 1]};
      assert m.Keys == m'.Keys + {list[n - 1]};
      Numbered(m', list, n - 1);
    }
  }

  // Numbers and slots.

  function Row(b: nat, B: nat): (s: set<(nat, nat)>)
  {
    set l: nat | l < B :: (b, l)
  }

  function Slots(nb: nat, B: nat): (s: set<(nat, nat)>)
    ensures forall b: nat, l: nat :: (b, l) in s <==> b < nb && l < B
  {
    if nb == 0 then {} else Slots(nb - 1, B) + Row(nb - 1, B)
  }

  lemma {:induction false} RowSize(b: nat, B: nat)
    ensures |Row(b, B)| == B
  {
    if B == 0 {
      assert Row(b, B) == {};
    } else {
      RowSize(b, B - 1);
      assert Row(b, B) == Row(b, B - 1) + {(b, B - 1)};
    }
  }

  lemma RowIs(b: nat, B: nat)
    ensures forall x :: x in Row(b, B) ==> x.0 == b
  {
  }

  lemma OneRow(n: nat, B: nat)
    ensures n * B + B == (n + 1) * B
  {
  }

  lemma SlotsMore(nb: nat, B: nat)
    ensures Slots(0, B) == {} && |Slots(nb + 1, B)| == |Slots(nb, B)| + B
  {
    hide Row;
    RowIs(nb, B);
    RowSize(nb, B);
    Disjoint(Slots(nb, B), Row(nb, B));
  }

  lemma {:induction false} SlotsSize(nb: nat, B: nat)
    ensures |Slots(nb, B)| == nb * B
  {
    hide Slots;
    if nb > 0 {
      SlotsMore(nb - 1, B);
      SlotsSize(nb - 1, B);
      OneRow(nb - 1, B);
    } else {
      SlotsMore(0, B);
    }
  }

  lemma Disjoint<T>(s: set<T>, t: set<T>)
    requires s !! t
    ensures |s + t| == |s| + |t|
  {
  }

  /** Keys in different slots are at most as many as the slots. */
  lemma {:induction false} Injected(at: Places, slots: set<(nat, nat)>)
    requires forall k :: k in at ==> at[k] in slots
    requires forall k, m :: k in at && m in at && k != m ==> at[k] != at[m]
    ensures |at| <= |slots|
    decreases |at|
  {
    if at != map[] {
      var k :| k in at;
      var at' := at - {k};
      assert at.Keys == at'.Keys + {k};
      Injected(at', slots - {at[k]});
    }
  }

  /** With a free slot the keys are fewer than the slots. */
  lemma SlotLeft(c: Config, keys: seq<seq<int>>, at: Places, b: nat, l: nat)
    requires Sound(c, keys, at) && Slot(c, b, l) && keys[b][l] == EMPTY
    ensures |at| < c.nb * c.B
  {
    hide Packed, CanStand, Full;
    SlotsSize(c.nb, c.B);
    forall k | k in at
      ensures at[k] in Slots(c.nb, c.B) - {(b, l)} && keys[at[k].0][at[k].1] == k
    {
      assert KeyOk(c, keys, at, k);
    }
    Injected(at, Slots(c.nb, c.B) - {(b, l)});
  }

  lemma SlotsEnough(c: Config, keys: seq<seq<int>>, at: Places)
    requires Sound(c, keys, at)
    ensures |at| <= c.nb * c.B
  {
    hide Packed, CanStand, Full;
    SlotsSize(c.nb, c.B);
    forall k | k in at
      ensures at[k] in Slots(c.nb, c.B) && keys[at[k].0][at[k].1] == k
    {
      assert KeyOk(c, keys, at, k);
    }
    Injected(at, Slots(c.nb, c.B));
  }

  /** As long as the list is complete, an insertion that finds room draws a number of the list. */
  lemma NumberFits(c: Config, keys: seq<seq<int>>, indices: seq<seq<int>>, at: Places, list: seq<int>, n: nat, t: nat)
    requires Sound(c, keys, at) && Formed(c, keys, indices) && |list| == c.nb * c.B && t < c.nb && !Full(keys[t])
    requires (forall k :: k in at ==> at[k].0 < |indices| && at[k].1 < |indices[at[k].0]|)
             && Roster(Entries(at, indices), list, n)
    ensures n < |list|
  {
    Inside(c, keys, indices, at);
    Numbered(Entries(at, indices), list, n);
    assert |at| == |at.Keys| == |Entries(at, indices).Keys| == |Entries(at, indices)|;
    FullIs(keys[t]);
    FirstFree(keys[t], Fill(keys[t]));
    SlotLeft(c, keys, at, t, Fill(keys[t]));
  }

  /** A numbered insertion that fails uses up a number for a key that is not listed. */
  lemma ListedIffPlaced(m: map<int, int>, m': map<int, int>, list: seq<int>, n: nat, key: int, lost: bool,
      list': seq<int>)
    requires Roster(m, list, n) && key != EMPTY && key !in m && Gained(m, m', key, n, lost)
    requires lost || (n < |list| && list' == list[n := key])
    ensures Roster(m', list', n + 1) <==> !lost
  {
    if lost {
      Numbered(m, list, n);
      Grown(m, m', key, n, lost);
      if Roster(m', list', n + 1) {
        Numbered(m', list', n + 1);
      }
    } else {
      forall i | 0 <= i < n + 1
        ensures list'[i] != EMPTY && list'[i] in m' && m'[list'[i]] == i
      {
        assert i < n ==> list[i] in m;
      }
    }
  }

  lemma FirstFree(row: seq<int>, l: nat)
    requires l == Fill(row) < |row|
    ensures row[l] == EMPTY
  {
  }

  lemma FirstStand(c: Config, keys: seq<seq<int>>, key: int)
    requires c.nb > 0 && Grid(c, keys)
    ensures CanStand(c, keys, key, Bucket(c, key, 0))
  {
  }

  /** The key in a full bucket's slot is a stored one. */
  lemma Evicted(c: Config, keys: seq<seq<int>>, at: Places, b: nat, l: nat)
    requires Sound(c, keys, at) && Slot(c, b, l) && Full(keys[b])
    ensures var k := keys[b][l]; k != EMPTY && k in at && at[k] == (b, l) && CanStand(c, keys, k, b)
  {
    hide Packed, CanStand;
    assert SlotOk(c, keys, at, b, l);
    assert KeyOk(c, keys, at, keys[b][l]);
  }

  lemma EntriesPut(c: Config, keys: seq<seq<int>>, at: Places, indices: seq<seq<int>>, key: int, b: nat, l: nat,
      index: int)
    requires Sound(c, keys, at) && Grid(c, indices) && Slot(c, b, l) && key !in at
    ensures var (at', indices') := (Replaced(at, keys[b][l], key, b, l), Put(indices, b, l, index));
            && (forall k :: k in at' ==> Slot(c, at'[k].0, at'[k].1)) && Grid(c, indices')
            && Entries(at', indices') == (if keys[b][l] == EMPTY then Entries(at, indices)
                else Entries(at, indices) - {keys[b][l]})[key := index]
  {
    hide Packed, CanStand, Full;
    var at' := Replaced(at, keys[b][l], key, b, l);
    assert EMPTY in at ==> KeyOk(c, keys, at, EMPTY);
    forall k | k in at'
      ensures Slot(c, at'[k].0, at'[k].1) && (k != key ==> at'[k] != (b, l))
    {
      if k != key {
        assert KeyOk(c, keys, at, k);
      }
    }
  }
}
