/** `bcht` as an object, used by one thread. */
module CuckooTables {
  import opened Buckets
  import opened Cuckoo

  /** What a round leaves in hand. */
  datatype Next = Exists | Settled(no: int) | Moved(hand: int, idx: int, b: nat, no: int)

  function PaddedCapacity(capacity: nat, B: nat): (n: nat)
    requires B > 0
    ensures n % B == 0 && capacity <= n < capacity + B
  {
    if capacity % B == 0 then capacity else Multiple(capacity, B); capacity + (B - capacity % B)
  }

  /** The capacity asked for, in whole buckets, twice over. */
  function TableSize(capacity: nat, B: nat): (n: nat)
    requires B > 0
    ensures n % B == 0 && 2 * capacity <= n < 2 * (capacity + B)
  {
    Doubled(PaddedCapacity(capacity, B), B); PaddedCapacity(capacity, B) * 2
  }

  lemma Doubled(n: nat, B: nat)
    requires B > 0 && n % B == 0
    ensures n * 2 % B == 0
  {
    assert n * 2 == (n / B * 2) * B + 0;
    Exact(n / B * 2, 0, B);
  }

  /** A pair is written over a slot. */
  ghost predicate Replaces(k: seq<seq<int>>, i: seq<seq<int>>, k': seq<seq<int>>, i': seq<seq<int>>, b: nat, l: nat,
      key: int, index: int)
  {
    && b < |k| == |i| && l < |k[b]| == |i[b]|
    && k' == Put(k, b, l, key) && i' == Put(i, b, l, index)
  }

  /** What a round does to the arrays: the pair in hand goes into the first free slot, or over the
      slot drawn, whose pair is then in hand. */
  ghost predicate IsRound(c: Config, k: seq<seq<int>>, i: seq<seq<int>>, k': seq<seq<int>>, i': seq<seq<int>>, b: nat,
      loc: nat, hand: int, r: Next)
    requires c.nb > 0 && Grid(c, k) && Grid(c, i) && b < c.nb
  {
    match r
    case Exists => hand in k[b] && k' == k && i' == i
    case Settled(no) => hand !in k[b] && Fill(k[b]) < c.B && Replaces(k, i, k', i', b, Fill(k[b]), hand, no)
    case Moved(oldKey, oldIndex, next, no) =>
      && hand !in k[b] && Fill(k[b]) == c.B && Replaces(k, i, k', i', b, loc, hand, no)
      && oldKey == k[b][loc] && oldIndex == i[b][loc] && next == NextBucket(c, oldKey, b)
  }

  /** What the caller learns of the end of a chain. */
  predicate Answers(v: Verdict, r: Outcome, number: int)
  {
    match v
    case Refused => r == Present
    case Settles => r == Placed(number)
    case Loses(_, _) => r == Failed
  }

  /** All buckets of a trail are full. */
  ghost predicate AllFull(keys: seq<seq<int>>, trail: seq<nat>)
  {
    forall t :: 0 <= t < |trail| ==> trail[t] < |keys| && Full(keys[trail[t]])
  }

  /** What is returned and listed at the end of a chain. */
  predicate Listing(v: Verdict, r: Outcome, number: int, enqueue: bool, key: int, a: seq<int>, a': seq<int>)
  {
    if !v.Settles? || !enqueue then Answers(v, r, number) && a' == a
    else if 0 <= number < |a| then r == Placed(number) && a' == a[number := key]
    else r == Overrun(number) && a' == a
  }

  lemma BlankFormed(c: Config)
    requires c.nb > 0 && c.B > 0
    ensures Formed(c, Blank(c.nb, c.B, EMPTY), Blank(c.nb, c.B, 0))
  {
  }

  lemma Taken(row: seq<int>, l: nat)
    requires l < |row| == Fill(row)
    ensures row[l] != EMPTY
  {
  }

  /** A round of the loop is a step of the function. */
  lemma ChaseStep(c: Config, k: seq<seq<int>>, i: seq<seq<int>>, k': seq<seq<int>>, i': seq<seq<int>>, b: nat,
      hand: int, no: int, r: Next, pick: nat -> nat, chains: nat, max: nat)
    requires c.nb > 0 && c.B > 0 && Grid(c, k) && Grid(c, i) && Grid(c, k') && Grid(c, i') && b < c.nb
    requires IsRound(c, k, i, k', i', b, pick(chains) % c.B, hand, r) && (!r.Exists? ==> r.no == no)
    ensures r.Exists? ==> Chase(c, k, i, b, hand, no, pick, chains, max) == Chased(k', i', Refused)
    ensures r.Settled? ==> Chase(c, k, i, b, hand, no, pick, chains, max) == Chased(k', i', Settles)
    ensures r.Moved? ==> Chase(c, k, i, b, hand, no, pick, chains, max)
                         == if chains + 1 >= max then Chased(k', i', Loses(r.hand, r.idx))
                             else Chase(c, k', i', r.b, r.hand, r.idx, pick, chains + 1, max)
  {
    hide NextBucket;
  }

  /** The chain of a new key on a table in order. */
  lemma FreshChase(c: Config, k: seq<seq<int>>, i: seq<seq<int>>, a: Places, key: int, n: int, pick: nat -> nat,
      max: nat) returns (a': Places)
    requires Sound(c, k, a) && Formed(c, k, i) && key != EMPTY && key !in a && n != NO_INDEX
    ensures c.nb > 0 && c.B > 0 && Grid(c, k) && Grid(c, i)
    ensures (forall x :: x in a ==> a[x].0 < |i| && a[x].1 < |i[a[x].0]|) && Entries(a, i).Keys == a.Keys
    ensures var r := Chase(c, k, i, Bucket(c, key, 0), key, n, pick, 0, max);
            && Sound(c, r.keys, a') && Formed(c, r.keys, r.indices) && !r.v.Refused?
            && (forall x :: x in a' ==> a'[x].0 < |r.indices| && a'[x].1 < |r.indices[a'[x].0]|)
            && Gained(Entries(a, i), Entries(a', r.indices), key, n, r.v.Loses?)
            && (r.v.Loses? <==> AllFull(k, Trail(c, k, Bucket(c, key, 0), key, pick, 0, max)))
            && (OneMoveLeft(c, k, key, pick, max) ==> r.v.Settles?)
  {
    hide Sound, Formed, CanStand, Full, Chase, Trail, Entries, Together, OneMoveLeft;
    Inside(c, k, i, a);
    NewHand(c, k, i, a, key, n);
    MovesOnce(c, k, i, a, key, n, pick, max);
    var b := Bucket(c, key, 0);
    a' := ChaseSound(c, k, i, a, b, key, n, pick, 0, max);
    FailsIff(c, k, i, a, b, key, n, pick, 0, max);
    var r := Chase(c, k, i, b, key, n, pick, 0, max);
    Inside(c, r.keys, r.indices, a');
    GainedIs(a, i, a', r.indices, key, n, r.v);
  }

  /** Whatever the random numbers and the length of chains, an insertion fails that finds itself in a
      trap: full buckets whose keys have all their buckets among them. */
  lemma TrapFails(c: Config, k: seq<seq<int>>, i: seq<seq<int>>, a: Places, key: int, trap: set<nat>, pick: nat -> nat,
      max: nat)
    requires Sound(c, k, a) && Formed(c, k, i) && key != EMPTY && key !in a
    requires c.nb > 0 && Grid(c, k) && Trap(c, k, key, trap)
    ensures c.B > 0 && AllFull(k, Trail(c, k, Bucket(c, key, 0), key, pick, 0, max))
  {
    hide Sound, Formed, CanStand, Full, Chase, Trail, Bucket;
    NewHand(c, k, i, a, key, 0);
    var b := Bucket(c, key, 0);
    FailsAlways(c, k, i, a, b, key, 0, pick, 0, max, trap);
    FailsIff(c, k, i, a, b, key, 0, pick, 0, max);
  }

  lemma NewHand(c: Config, k: seq<seq<int>>, i: seq<seq<int>>, a: Places, key: int, n: int)
    requires Sound(c, k, a) && Formed(c, k, i) && key != EMPTY && key !in a && n != NO_INDEX
    ensures c.nb > 0 && c.B > 0 && Grid(c, k) && Grid(c, i) && InHand(c, k, i, a, Bucket(c, key, 0), key, n)
  {
    FirstStand(c, k, key);
  }

  lemma GainedIs(a: Places, i: seq<seq<int>>, a': Places, i': seq<seq<int>>, key: int, n: int, v: Verdict)
    requires forall x :: x in a ==> a[x].0 < |i| && a[x].1 < |i[a[x].0]|
    requires forall x :: x in a' ==> a'[x].0 < |i'| && a'[x].1 < |i'[a'[x].0]|
    requires Entries(a', i').Keys == a'.Keys && !v.Refused?
    requires v.Settles? ==> Entries(a', i') == Together(a, i, key, n)
    requires v.Loses? ==> v.hand !in a' && Together(a', i', v.hand, v.idx) == Together(a, i, key, n)
    ensures Gained(Entries(a, i), Entries(a', i'), key, n, v.Loses?)
  {
    hide Entries;
    if v.Loses? {
      LastLost(Entries(a', i'), v.hand, v.idx, Entries(a, i), key, n);
    }
  }

  lemma LastLost(m: map<int, int>, hand: int, idx: int, before: map<int, int>, key: int, number: int)
    requires hand !in m && m[hand := idx] == before[key := number]
    ensures Gained(before, m, key, number, true)
  {
    var given := before[key := number];
    assert forall k :: k in m <==> k in given - {hand};
    assert hand in given && m == given - {hand};
  }

  /** A numbered insertion into a table with a complete list. */
  lemma ListedOn(c: Config, k: seq<seq<int>>, i: seq<seq<int>>, a: Places, list: seq<int>, n: nat, key: int,
      m: map<int, int>, list': seq<int>, v: Verdict, trail: seq<nat>)
    requires Sound(c, k, a) && Formed(c, k, i) && key != EMPTY && key !in a && |list| == c.nb * c.B && !v.Refused?
    requires (forall x :: x in a ==> a[x].0 < |i| && a[x].1 < |i[a[x].0]|) && Roster(Entries(a, i), list, n)
    requires Gained(Entries(a, i), m, key, n, v.Loses?) && (v.Loses? <==> AllFull(k, trail))
    requires forall t :: 0 <= t < |trail| ==> trail[t] < c.nb
    requires v.Settles? && n < |list| ==> list' == list[n := key]
    ensures v.Settles? ==> n < |list|
    ensures Roster(m, list', n + 1) <==> !v.Loses?
  {
    hide Sound, Formed, Roster, Gained, Full, Entries;
    Inside(c, k, i, a);
    if v.Settles? {
      Rows(c, k, i);
      var t :| 0 <= t < |trail| && !Full(k[trail[t]]);
      NumberFits(c, k, i, a, list, n, trail[t]);
    }
    ListedIffPlaced(Entries(a, i), m, list, n, key, v.Loses?, list');
  }

  /** The first bucket of the key is full, and the key drawn there has room in its candidate after
      that bucket. */
  ghost predicate OneMoveLeft(c: Config, k: seq<seq<int>>, key: int, pick: nat -> nat, max: nat)
    requires c.nb > 0 && c.B > 0 && Grid(c, k)
  {
    var b := Bucket(c, key, 0);
    Full(k[b]) && max >= 2 && exists j: nat :: RoomAfter(c, k, k[b][pick(0) % c.B], b, j)
  }

  lemma MovesOnce(c: Config, k: seq<seq<int>>, i: seq<seq<int>>, a: Places, key: int, n: int, pick: nat -> nat,
      max: nat)
    requires Sound(c, k, a) && Formed(c, k, i) && key != EMPTY && key !in a && n != NO_INDEX
    requires c.nb > 0 && c.B > 0 && Grid(c, k) && Grid(c, i)
    ensures OneMoveLeft(c, k, key, pick, max) ==> Chase(c, k, i, Bucket(c, key, 0), key, n, pick, 0, max).v.Settles?
  {
    hide Sound, Formed, Chase, Full, Fill, InHand, Bucket, RoomAfter;
    NewHand(c, k, i, a, key, n);
    var b := Bucket(c, key, 0);
    if OneMoveLeft(c, k, key, pick, max) {
      var j: nat :| RoomAfter(c, k, k[b][pick(0) % c.B], b, j);
      OneMove(c, k, i, a, b, key, n, pick, 0, max, j);
    }
  }

  lemma Rows(c: Config, k: seq<seq<int>>, i: seq<seq<int>>)
    requires Formed(c, k, i)
    ensures |k| == c.nb
  {
  }

  class Bcht {
    const B: nat
    const hash: (nat, int) -> nat
    var nb: nat
    var keys: seq<seq<int>>
    var indices: seq<seq<int>>
    var active: seq<int>
    var cnt: nat
    var maxChains: nat
    ghost var at: Places

    function Cfg(): Config
      reads this`nb
    {
      Config(nb, B, hash)
    }

    function Capacity(): nat
      reads this`nb
    {
      nb * B
    }

    /** The arrays fit each other; every call keeps this much. */
    ghost predicate Fit()
      reads this
    {
      && B > 0 && |active| == Capacity() && EMPTY !in active
      && if nb == 0 then keys == [] && indices == [] && cnt == 0 else Formed(Cfg(), keys, indices)
    }

    /** Every key stands once, where a lookup finds it. */
    ghost predicate Valid()
      reads this
    {
      Fit() && if nb == 0 then at == map[] else Sound(Cfg(), keys, at)
    }

    /** The map this table stands for. */
    ghost function Contents(): map<int, int>
      requires Valid()
      reads this
    {
      Entries(at, indices)
    }

    /** `_activeKeys` names the stored keys by their numbers. */
    ghost predicate Listed()
      requires Valid()
      reads this
    {
      Roster(Contents(), active, cnt)
    }

    constructor (B: nat, hash: (nat, int) -> nat, capacity: nat, maxChains: nat)
      requires B > 0
      ensures this.B == B && this.hash == hash && this.maxChains == maxChains
      ensures Valid() && Contents() == map[] && cnt == 0 && Listed() && Capacity() == TableSize(capacity, B)
      ensures nb == TableSize(capacity, B) / B && keys == Blank(nb, B, EMPTY)
    {
      this.B, this.hash, this.maxChains := B, hash, maxChains;
      var size := TableSize(capacity, B);
      nb := size / B;
      keys := Blank(size / B, B, EMPTY);
      indices := Blank(size / B, B, 0);
      active := seq(size, _ => 0);
      cnt := 0;
      at := map[];
      new;
      Buckets.Whole(size, B);
      if nb > 0 {
        BlankSound(Cfg());
        BlankFormed(Cfg());
      }
    }

    lemma Domain()
      requires Valid()
      ensures Contents().Keys == at.Keys && Fit()
      ensures nb > 0 ==> Sound(Cfg(), keys, at) && Formed(Cfg(), keys, indices) && |active| == Cfg().nb * Cfg().B
      ensures forall k :: k in at ==> at[k].0 < |indices| && at[k].1 < |indices[at[k].0]|
      ensures Contents() == Entries(at, indices)
    {
    }

    lemma Shape()
      requires Fit()
      ensures B > 0 && |active| == Capacity()
      ensures nb > 0 ==> Formed(Cfg(), keys, indices) && Grid(Cfg(), keys) && Grid(Cfg(), indices)
      ensures nb > 0 ==> forall b :: 0 <= b < nb ==> Packed(keys[b])
    {
    }

    /** Whether a bucket holds a key. */
    method Holds(b: nat, key: int) returns (exist: bool)
      requires Fit() && b < nb
      ensures exist <==> key in keys[b]
    {
      exist := false;
      var i := 0;
      while i != B
        invariant i <= B == |keys[b]| && (exist <==> key in keys[b][..i])
        decreases B - i
      {
        if key == keys[b][i] {
          exist := true;
        }
        i := i + 1;
      }
      assert keys[b][..B] == keys[b];
    }

    /** Number of keys in a bucket, which is also the position of its first free slot. */
    method Load(b: nat) returns (load: nat)
      requires Fit() && b < nb
      ensures load == Fill(keys[b]) <= B && (load == B <==> Full(keys[b]))
    {
      hide Formed, Full;
      Shape();
      assert Packed(keys[b]);
      FullIs(keys[b]);
      load := 0;
      var i := 0;
      while i != B
        invariant i <= B == |keys[b]| && load == (if i < Fill(keys[b]) then i else Fill(keys[b]))
        decreases B - i
      {
        if keys[b][i] != EMPTY {
          load := load + 1;
        }
        i := i + 1;
      }
    }

    function Number(index: int): int
      reads this`cnt
    {
      if index == NO_INDEX then cnt else index
    }

    ghost predicate Same(k: seq<seq<int>>, i: seq<seq<int>>, a: seq<int>, n: nat)
      reads this
    {
      keys == k && indices == i && active == a && cnt == n
    }

    /** One round of the loop of `insert` for the pair in hand: the key is there, or it is written
        into a free slot, or it is written over another key, which is then in hand. */
    method Round(b: nat, hand: int, idx: int, loc: nat) returns (r: Next)
      requires Fit() && b < nb && loc < B && hand != EMPTY
      modifies this`keys, this`indices, this`cnt
      ensures Fit() && Formed(Cfg(), old(keys), old(indices))
      ensures IsRound(Cfg(), old(keys), old(indices), keys, indices, b, loc, hand, r)
      ensures r.Exists? <==> hand in old(keys)[b]
      ensures r.Exists? ==> cnt == old(cnt)
      ensures !r.Exists? ==> r.no == old(Number(idx)) && cnt == if idx == NO_INDEX then old(cnt) + 1 else old(cnt)
      ensures r.Moved? ==> r.hand != EMPTY && r.idx != NO_INDEX && r.b < nb
    {
      hide Packed, Full, Fill;
      Shape();
      var exist := Holds(b, hand);
      if exist {
        return Exists;
      }
      var load := Load(b);
      var no := idx;
      if idx == NO_INDEX {
        no, cnt := cnt, cnt + 1;
      }
      var l := if load != B then load else loc;
      PutFormed(Cfg(), keys, indices, b, l, hand, no);
      var oldKey, oldIndex := keys[b][l], indices[b][l];
      keys, indices := Put(keys, b, l, hand), Put(indices, b, l, no);
      if load != B {
        return Settled(no);
      }
      Taken(old(keys)[b], l);
      return Moved(oldKey, oldIndex, NextBucket(Cfg(), oldKey, b), no);
    }

    /** The loop of `insert`, `pick` are the random numbers: it is the function `Chase`. */
    method Pursue(key: int, index: int, pick: nat -> nat) returns (r: Outcome, ghost v: Verdict)
      requires Fit() && nb > 0 && key != EMPTY
      modifies this`keys, this`indices, this`cnt
      ensures Fit() && Formed(Cfg(), old(keys), old(indices)) && Answers(v, r, old(Number(index)))
      ensures Grid(Cfg(), old(keys)) && Grid(Cfg(), old(indices)) && B > 0
      ensures Chased(keys, indices, v) == Chase(Cfg(), old(keys), old(indices), Bucket(Cfg(), key, 0), key,
              old(Number(index)), pick, 0, maxChains)
      ensures cnt == if index == NO_INDEX && key !in old(keys)[Bucket(Cfg(), key, 0)] then old(cnt) + 1 else old(cnt)
    {
      hide Fit, Chase, IsRound, Formed, Bucket, Packed;
      Shape();
      var (no, hand, idx, chains) := (index, key, index, 0);
      var b: nat := Bucket(Cfg(), key, 0);
      ghost var first := b;
      ghost var goal := Chase(Cfg(), keys, indices, b, key, Number(index), pick, 0, maxChains);
      while true
        invariant Fit() && b < nb && hand != EMPTY && Grid(Cfg(), keys) && Grid(Cfg(), indices)
        invariant chains == 0 ==>
                  hand == key && idx == no == index && keys == old(keys) && indices == old(indices)
                  && cnt == old(cnt) && b == first
        invariant chains > 0 ==> idx != NO_INDEX && no == old(Number(index)) && key !in old(keys)[first]
        invariant chains > 0 ==> cnt == if index == NO_INDEX then old(cnt) + 1 else old(cnt)
        invariant Chase(Cfg(), keys, indices, b, hand, Number(idx), pick, chains, maxChains) == goal
        decreases maxChains - chains
      {
        Shape();
        ghost var (k, i) := (keys, indices);
        var next := Round(b, hand, idx, pick(chains) % B);
        Shape();
        ChaseStep(Cfg(), k, i, keys, indices, b, hand,
            if idx == NO_INDEX then old(cnt) else idx, next, pick, chains, maxChains);
        if next.Exists? {
          return Present, Refused;
        }
        if idx == NO_INDEX {
          no := next.no;
        }
        if next.Settled? {
          return Placed(no), Settles;
        }
        hand, idx, b := next.hand, next.idx, next.b;
        chains := chains + 1;
        if chains >= maxChains {
          break;
        }
      }
      return Failed, Loses(hand, idx);
    }

    lemma KeyThere(key: int)
      requires Fit() && nb > 0 && key != EMPTY
      ensures Formed(Cfg(), keys, indices) && |active| == Cfg().nb * Cfg().B
      ensures Valid() ==>
              Sound(Cfg(), keys, at)
              && (key in keys[Bucket(Cfg(), key, 0)] <==> key in at && at[key].0 == Bucket(Cfg(), key, 0))
      ensures Valid() ==> Contents().Keys == at.Keys
    {
      if Valid() {
        RefusedAtOnce(Cfg(), keys, indices, at, key);
      }
    }

    /** The loop of `insert` on a table in order: a key that is there in its first bucket changes
        nothing; a new pair joins the contents, or does so and one pair is lost. */
    method Chain(key: int, index: int, pick: nat -> nat) returns (r: Outcome, ghost v: Verdict)
      requires Fit() && nb > 0 && key != EMPTY
      modifies this`keys, this`indices, this`at, this`cnt
      ensures Fit() && Formed(Cfg(), old(keys), old(indices)) && Answers(v, r, old(Number(index))) && B > 0
      ensures Chased(keys, indices, v) == Chase(Cfg(), old(keys), old(indices), Bucket(Cfg(), key, 0), key,
              old(Number(index)), pick, 0, maxChains)
      ensures cnt == if index == NO_INDEX && key !in old(keys)[Bucket(Cfg(), key, 0)] then old(cnt) + 1 else old(cnt)
      ensures key in old(keys)[Bucket(Cfg(), key, 0)] ==> v.Refused? && keys == old(keys) && indices == old(indices)
      ensures old(Valid()) ==>
              old(Sound(Cfg(), keys, at))
              && (key in old(keys)[Bucket(Cfg(), key, 0)] <==>
                  key in old(at) && old(at)[key].0 == Bucket(Cfg(), key, 0))
      ensures old(Valid()) && key in old(at) && old(at)[key].0 == Bucket(Cfg(), key, 0) ==>
              at == old(at) && Valid() && Contents() == old(Contents())
      ensures old(Valid()) && key !in old(at) ==>
                && Valid() && !v.Refused? && Gained(old(Contents()), Contents(), key, old(Number(index)), v.Loses?)
                && (v.Loses? <==> AllFull(old(keys),
                    Trail(Cfg(), old(keys), Bucket(Cfg(), key, 0), key, pick, 0, maxChains)))
                && (OneMoveLeft(Cfg(), old(keys), key, pick, maxChains) ==> v.Settles?)
    {
      hide Chase, Formed, Bucket, Sound, Entries, Trail, Full, Gained, Fill, Answers, OneMoveLeft;
      Shape();
      ghost var (c, k, i, a, n) := (Cfg(), keys, indices, at, Number(index));
      ghost var isNew := Valid() && key !in at;
      KeyThere(key);
      r, v := Pursue(key, index, pick);
      if key in k[Bucket(c, key, 0)] {
        HandThere(c, k, i, Bucket(c, key, 0), key, n, pick, 0, maxChains);
      }
      if isNew {
        ghost var a' := FreshChase(c, k, i, a, key, n, pick, maxChains);
        at := a';
      }
    }

    /** `_activeKeys[no] = key`. */
    method Enlist(key: int, no: int) returns (r: Outcome)
      requires Fit() && key != EMPTY
      modifies this`active
      ensures Fit() && (old(Valid()) <==> Valid()) && (Valid() ==> Contents() == old(Contents()))
      ensures if 0 <= no < old(|active|) then r == Placed(no) && active == old(active)[no := key]
              else r == Overrun(no) && active == old(active)
    {
      hide Formed, Sound;
      if 0 <= no < |active| {
        active := active[no := key];
        return Placed(no);
      }
      return Overrun(no);
    }

    /** `insert`. The arrays change as in `Chase`, and a key placed is listed if its entry exists. On
        a table in order, a key that is there in its first bucket changes nothing; a new pair joins
        the contents, or does so and one pair is lost, exactly if all buckets of its trail are full
        before the call; a complete list stays complete exactly if no pair is lost. Nothing is lost if
        the key drawn from a full first bucket has room in its candidate after that bucket. */
    method Insert(key: int, index: int, enqueue: bool, pick: nat -> nat) returns (r: Outcome, ghost v: Verdict)
      requires Fit() && key != EMPTY
      modifies this`keys, this`indices, this`at, this`active, this`cnt
      ensures Fit()
      ensures nb == 0 ==> r.Failed? && Same(old(keys), old(indices), old(active), old(cnt))
      ensures nb > 0 ==>
                && Formed(Cfg(), old(keys), old(indices)) && B > 0
                && Chased(keys, indices, v) ==
                    Chase(Cfg(), old(keys), old(indices), Bucket(Cfg(), key, 0), key, old(Number(index)), pick, 0,
                    maxChains)
                && cnt == (if index == NO_INDEX && key !in old(keys)[Bucket(Cfg(), key, 0)] then old(cnt) + 1
                    else old(cnt))
      ensures nb > 0 ==> Listing(v, r, old(Number(index)), enqueue, key, old(active), active)
      ensures nb > 0 && index == NO_INDEX ==>
                (key in old(keys)[Bucket(Cfg(), key, 0)] <==>
                    r.Present? && Same(old(keys), old(indices), old(active), old(cnt)))
      ensures old(Valid()) && nb > 0 && (key in old(at) ==> old(at)[key].0 == Bucket(Cfg(), key, 0)) ==>
                && Valid() && (r.Present? <==> key in old(Contents()))
                && (r.Present? ==>
                    Same(old(keys), old(indices), old(active), old(cnt)) && Contents() == old(Contents()))
                && (!r.Present? ==> Gained(old(Contents()), Contents(), key, old(Number(index)), r.Failed?))
      ensures old(Valid()) && nb > 0 && key !in old(at) ==>
                (r.Failed? <==> AllFull(old(keys),
                    Trail(Cfg(), old(keys), Bucket(Cfg(), key, 0), key, pick, 0, maxChains)))
      ensures old(Valid()) && nb > 0 && key !in old(at) && enqueue ==>
                (r.Overrun? <==>
                    !(0 <= old(Number(index)) < |active|)
                    && !AllFull(old(keys), Trail(Cfg(), old(keys), Bucket(Cfg(), key, 0), key, pick, 0, maxChains)))
      ensures old(Valid()) && nb > 0 && key !in old(at) && old(Listed()) && index == NO_INDEX && enqueue ==>
                !r.Overrun? && (Listed() <==> !r.Failed?)
      ensures old(Valid()) && nb > 0 && key !in old(at) && OneMoveLeft(Cfg(), old(keys), key, pick, maxChains) ==>
                && v.Settles? && !r.Failed? && (enqueue && 0 <= old(Number(index)) < |old(active)| ==> r.Placed?)
                && Valid() && Gained(old(Contents()), Contents(), key, old(Number(index)), false)
    {
      hide Fit, Chase, Formed, Bucket, Sound, Entries, Trail, Full, Gained, Fill, AllFull, Roster, Contents,
          OneMoveLeft;
      if nb == 0 {
        return Failed, Loses(key, index);
      }
      Shape();
      ghost var (c, k, i, a) := (Cfg(), keys, indices, at);
      if Valid() {
        Domain();
      }
      r, v := Chain(key, index, pick);
      if r.Placed? && enqueue {
        r := Enlist(key, r.no);
      }
      if old(Valid()) && key !in a && old(Listed()) && index == NO_INDEX && enqueue {
        ListedOn(c, k, i, a, old(active), old(cnt), key, Contents(), active, v,
            Trail(c, k, Bucket(c, key, 0), key, pick, 0, maxChains));
      }
    }

    /** `insert` with its default arguments. */
    method Add(key: int, pick: nat -> nat) returns (r: Outcome)
      requires Fit() && nb > 0 && key != EMPTY
      modifies this`keys, this`indices, this`at, this`active, this`cnt
      ensures Fit() && Grid(Cfg(), keys) && Grid(Cfg(), indices)
      ensures Grid(Cfg(), old(keys)) && Grid(Cfg(), old(indices)) && B > 0
      ensures var v := Chase(Cfg(), old(keys), old(indices), Bucket(Cfg(), key, 0), key, old(cnt), pick, 0, maxChains);
              keys == v.keys && indices == v.indices && Listing(v.v, r, old(cnt), true, key, old(active), active)
      ensures cnt == if key !in old(keys)[Bucket(Cfg(), key, 0)] then old(cnt) + 1 else old(cnt)
    {
      hide Fit, Chase, Formed, Bucket, Sound, Entries, Trail, Full, Gained, Fill, AllFull, Roster, Contents, Listing;
      Shape();
      ghost var v;
      r, v := Insert(key, NO_INDEX, true, pick);
      Shape();
    }

    /** `query`: the number of a key, -1 if it is not there. */
    method Query(key: int) returns (no: int)
      requires Valid() && key != EMPTY
      ensures no == if key in Contents() then Contents()[key] else NO_INDEX
    {
      if nb == 0 {
        return NO_INDEX;
      }
      hide Packed, CanStand, Full, KeyOk;
      var b := hash(0, key) % nb;
      var iter := 0;
      while iter < 3
        invariant b == Bucket(Cfg(), key, iter) && iter <= 3
        invariant forall j: nat :: j < iter ==> key !in keys[Bucket(Cfg(), key, j)]
      {
        var loc := 0;
        while loc != B && key != keys[b][loc]
          invariant loc <= B && key !in keys[b][..loc]
          decreases B - loc
        {
          loc := loc + 1;
        }
        if loc != B {
          assert SlotOk(Cfg(), keys, at, b, loc);
          return indices[b][loc];
        }
        assert keys[b][..B] == keys[b];
        var load := Load(b);
        if load < B || iter == 2 {
          EarlyExit(Cfg(), keys, at, key, iter);
          return NO_INDEX;
        }
        iter := iter + 1;
        b := hash(iter, key) % nb;
      }
      return NO_INDEX;
    }

    /** `resize`: a larger table is filled again from the list, by number, so that every pair then
        stored is one of the list. With a complete list each failed insertion costs one pair, and no
        other pair is changed; numbers past the end of the list cannot be read back. */
    method Resize(newCapacity: nat, chains: nat, pick: (nat, nat) -> nat) returns (failed: nat, overrun: bool)
      requires Fit()
      modifies this
      ensures Fit() && cnt == old(cnt)
      ensures Capacity() == if TableSize(newCapacity, B) <= old(Capacity()) then old(Capacity())
              else TableSize(newCapacity, B)
      ensures TableSize(newCapacity, B) <= old(Capacity()) ==>
              failed == 0 && !overrun && keys == old(keys) && indices == old(indices) && active == old(active)
              && (old(Valid()) ==> Valid())
      ensures maxChains == if TableSize(newCapacity, B) <= old(Capacity()) then old(maxChains) else chains
      ensures TableSize(newCapacity, B) > old(Capacity()) ==>
                && nb > 0 && Formed(Cfg(), keys, indices) && FromList(Cfg(), keys, indices, active, cnt)
                && (overrun <==> cnt > TableSize(newCapacity, B))
                && |active| == TableSize(newCapacity, B) && active[..|old(active)|] == old(active)
      ensures old(Valid()) && old(Listed()) ==>
                && Valid() && !overrun && |Contents()| + failed == |old(Contents())|
                && (forall k :: k in Contents() ==> k in old(Contents()) && Contents()[k] == old(Contents())[k])
                && (failed == 0 ==> Contents() == old(Contents()) && Listed())
    {
      hide Fit, TableSize, Capacity, Roster, Sound, Formed, Entries, FromList;
      Shape();
      ghost var isListed := Valid() && Listed();
      ghost var (was, list) := (if isListed then Contents() else map[], active);
      if isListed {
        Domain();
        Numbered(was, active, cnt);
      }
      var size := TableSize(newCapacity, B);
      if size <= Capacity() {
        return 0, false;
      }
      Clear(size, chains);
      if isListed {
        RosterKept(was, list, active, cnt);
      }
      failed, overrun := Refill(isListed, was, pick);
      Shape();
    }

    /** Larger arrays, no keys; the list of keys is kept. */
    method Clear(size: nat, chains: nat)
      requires Fit() && size > Capacity() && size % B == 0
      modifies this
      ensures Valid() && nb > 0 && Contents() == map[] && cnt == old(cnt) && Capacity() == size
      ensures |active| == size && active[..|old(active)|] == old(active)
      ensures Formed(Cfg(), keys, indices) && FromList(Cfg(), keys, indices, active, cnt) && maxChains == chains
    {
      Whole(size, B);
      nb := size / B;
      keys, indices := Blank(size / B, B, EMPTY), Blank(size / B, B, 0);
      active := active + seq(size - |active|, _ => 0);
      maxChains := chains;
      at := map[];
      BlankSound(Cfg());
      BlankFormed(Cfg());
    }

    /** One insertion by number, which lists nothing. */
    method Reinsert(i: nat, pick: nat -> nat, ghost wasIn: bool) returns (lost: bool)
      requires Fit() && nb > 0 && i < cnt && i < |active| && FromList(Cfg(), keys, indices, active, cnt)
      requires wasIn ==> Valid() && active[i] !in Contents()
      modifies this`keys, this`indices, this`at, this`active, this`cnt
      ensures Fit() && active == old(active) && cnt == old(cnt)
      ensures Grid(Cfg(), keys) && Grid(Cfg(), indices) && FromList(Cfg(), keys, indices, active, cnt)
      ensures wasIn ==> Valid() && Gained(old(Contents()), Contents(), active[i], i, lost)
    {
      hide Sound, Entries, Full, Packed, Gained, Chase, FromList, AllFull;
      Shape();
      if wasIn {
        Domain();
      }
      ChaseFromList(Cfg(), keys, indices, Bucket(Cfg(), active[i], 0), active[i], i, pick, 0, maxChains, active, cnt);
      var r, v := Insert(active[i], i, false, pick);
      lost := r.Failed?;
    }

    method Refill(ghost isListed: bool, ghost was: map<int, int>, pick: (nat, nat) -> nat) returns (failed: nat,
        overrun: bool)
      requires Valid() && nb > 0 && Contents() == map[] && FromList(Cfg(), keys, indices, active, cnt)
      requires isListed ==> Roster(was, active, cnt)
      modifies this`keys, this`indices, this`at, this`active, this`cnt
      ensures Fit() && cnt == old(cnt) && active == old(active) && (overrun <==> cnt > |active|)
      ensures Grid(Cfg(), keys) && Grid(Cfg(), indices) && FromList(Cfg(), keys, indices, active, cnt)
      ensures isListed ==>
                && Valid() && !overrun && |Contents()| + failed == cnt
                && (forall k :: k in Contents() ==> k in was && Contents()[k] == was[k])
                && (failed == 0 ==> Contents() == was)
    {
      hide Sound, Entries, Roster, Part, Gained, FromList, Formed, Packed, Grid, Fit, Valid, Contents;
      Domain();
      Shape();
      failed := 0;
      var i := 0;
      PartNone(was, active);
      while i < cnt && i < |active|
        invariant i <= cnt == old(cnt) && i <= |active| && active == old(active) && Fit()
        invariant Grid(Cfg(), keys) && Grid(Cfg(), indices) && FromList(Cfg(), keys, indices, active, cnt)
        invariant isListed ==> Valid() && Part(Contents(), was, active, i, failed)
      {
        ghost var m := if isListed then Contents() else map[];
        if isListed {
          PartNext(m, was, active, cnt, i, failed);
        }
        var lost := Reinsert(i, l => pick(i, l), isListed);
        if isListed {
          PartGrows(m, Contents(), was, active, cnt, i, failed, lost);
        }
        if lost {
          failed := failed + 1;
        }
        i := i + 1;
      }
      overrun := i < cnt;
      if isListed {
        RosterFits(was, active, cnt);
        PartWhole(Contents(), was, active, i, failed);
      }
    }
  }

  // Calls that go wrong.

  /** A round at a bucket of one slot, free or taken by another key. */
  lemma FreeSlot(c: Config, k: seq<seq<int>>, i: seq<seq<int>>, b: nat, hand: int, idx: int, pick: nat -> nat,
      chains: nat, max: nat)
    requires c.nb > 0 && c.B == 1 && Grid(c, k) && Grid(c, i) && b < c.nb && k[b] == [EMPTY] && hand != EMPTY
    ensures Chase(c, k, i, b, hand, idx, pick, chains, max) == Chased(k[b := [hand]], i[b := [idx]], Settles)
  {
    assert Fill([EMPTY]) == 0 && k[b][0 := hand] == [hand] && i[b][0 := idx] == [idx];
  }

  lemma TakenSlot(c: Config, k: seq<seq<int>>, i: seq<seq<int>>, b: nat, hand: int, idx: int, pick: nat -> nat,
      chains: nat, max: nat)
    requires c.nb > 0 && c.B == 1 && Grid(c, k) && Grid(c, i) && b < c.nb && k[b][0] !in {EMPTY, hand}
    ensures Grid(c, k[b := [hand]]) && Grid(c, i[b := [idx]])
    ensures Chase(c, k, i, b, hand, idx, pick, chains, max) ==
            if chains + 1 >= max then Chased(k[b := [hand]], i[b := [idx]], Loses(k[b][0], i[b][0]))
            else Chase(c, k[b := [hand]], i[b := [idx]], NextBucket(c, k[b][0], b), k[b][0], i[b][0], pick,
                chains + 1, max)
  {
    hide NextBucket;
    assert k[b] == [k[b][0]] && Fill(k[b]) == 1 && k[b][0 := hand] == [hand] && i[b][0 := idx] == [idx];
    assert pick(chains) % 1 == 0;
  }

  lemma Single(nb: nat, x: int)
    ensures Blank(nb, 1, x) == seq(nb, _ => [x])
    ensures nb == 2 ==> Blank(nb, 1, x) == [[x], [x]]
    ensures nb == 4 ==> Blank(nb, 1, x) == [[x], [x], [x], [x]]
  {
    assert seq(1, _ => x) == [x];
    assert Blank(nb, 1, x) == seq(nb, _ => [x]);
  }

  lemma HandThere(c: Config, k: seq<seq<int>>, i: seq<seq<int>>, b: nat, hand: int, idx: int, pick: nat -> nat,
      chains: nat, max: nat)
    requires c.nb > 0 && c.B > 0 && Grid(c, k) && Grid(c, i) && b < c.nb && hand in k[b]
    ensures Chase(c, k, i, b, hand, idx, pick, chains, max) == Chased(k, i, Refused)
  {
  }

  /** The key 4 has bucket 1, all others have bucket 0 only. */
  function Crowd(iter: nat, key: int): nat
  {
    if key == 4 then 1 else 0
  }

  /** Bucket 0 is taken by a key of its own, bucket 1 is free. */
  ghost predicate HalfFull(k: seq<seq<int>>, i: seq<seq<int>>, key: int)
  {
    Grid(Config(2, 1, Crowd), k) && Grid(Config(2, 1, Crowd), i) && k[0] == [key] && k[1] == [EMPTY]
        && key !in {EMPTY, 4}
  }

  /** Two keys of one slot take turns in it until the chain is as long as it may be. */
  lemma {:induction false} TakeTurns(k: seq<seq<int>>, i: seq<seq<int>>, key: int, hand: int, idx: int,
      pick: nat -> nat, chains: nat, max: nat) returns (stays: int)
    requires HalfFull(k, i, key) && hand !in {EMPTY, 4, key}
    ensures stays in {key, hand}
    ensures Grid(Config(2, 1, Crowd), k) && Grid(Config(2, 1, Crowd), i)
    ensures var r := Chase(Config(2, 1, Crowd), k, i, 0, hand, idx, pick, chains, max);
            r.v.Loses? && HalfFull(r.keys, r.indices, stays)
    decreases if max > chains then max - chains else 0
  {
    hide Chase;
    TakenSlot(Config(2, 1, Crowd), k, i, 0, hand, idx, pick, chains, max);
    stays := hand;
    if chains + 1 < max {
      stays := TakeTurns(k[0 := [hand]], i[0 := [idx]], hand, key, i[0][0], pick, chains + 1, max);
    }
  }

  lemma HalfFilled(pick: nat -> nat, k: seq<seq<int>>, i: seq<seq<int>>)
    requires k == [[EMPTY], [EMPTY]] && Grid(Config(2, 1, Crowd), i)
    ensures var r := Chase(Config(2, 1, Crowd), k, i, 0, 1, 0, pick, 0, 7);
            HalfFull(r.keys, r.indices, 1) && r.v.Settles?
  {
    hide Chase;
    FreeSlot(Config(2, 1, Crowd), k, i, 0, 1, 0, pick, 0, 7);
  }

  lemma OtherHalf(pick: nat -> nat, k: seq<seq<int>>, i: seq<seq<int>>, key: int)
    requires HalfFull(k, i, key)
    ensures Grid(Config(2, 1, Crowd), k) && Grid(Config(2, 1, Crowd), i)
    ensures 4 !in k[1] && Chase(Config(2, 1, Crowd), k, i, 1, 4, 2, pick, 0, 7).v.Settles?
  {
    hide Chase;
    FreeSlot(Config(2, 1, Crowd), k, i, 1, 4, 2, pick, 0, 7);
  }

  lemma NotThere(k: seq<seq<int>>, i: seq<seq<int>>, key: int, hand: int)
    requires HalfFull(k, i, key) && hand != key
    ensures |k| == 2 && hand !in k[0]
  {
  }

  /** A table of two buckets with one slot each: an insertion fails and uses up a number, and the
      last key finds a free slot, but is to be listed under number 2 in a list of length 2. */
  method NumbersRunOut(pick: nat -> nat) returns (r: seq<Outcome>, size: nat)
    ensures r == [Placed(0), Failed, Overrun(2)] && size == 2
  {
    hide Chase, Fill, Roster, Formed, Sound, Entries, HalfFull, Blank, Packed, Grid, Bcht.Fit, Bcht.Contents;
    var t := new Bcht(1, Crowd, 1, 7);
    t.Shape();
    assert t.Cfg() == Config(2, 1, Crowd);
    Single(2, EMPTY);
    HalfFilled(pick, t.keys, t.indices);
    var r1 := t.Add(1, pick);
    ghost var a := TakeTurns(t.keys, t.indices, 1, 2, 1, pick, 0, 7);
    NotThere(t.keys, t.indices, 1, 2);
    var r2 := t.Add(2, pick);
    OtherHalf(pick, t.keys, t.indices, a);
    var r3 := t.Add(4, pick);
    return [r1, r2, r3], |t.active|;
  }

  /** The key 1 has the buckets 0 and 1, the key 2 has 0 and 2. */
  function Fork(iter: nat, key: int): nat
  {
    if iter == 0 || key < 0 then 0 else key
  }

  lemma ForkFirst(pick: nat -> nat, i: seq<seq<int>>)
    requires Grid(Config(4, 1, Fork), i)
    ensures var (c, k) := (Config(4, 1, Fork), [[EMPTY], [EMPTY], [EMPTY], [EMPTY]]);
            Chase(c, k, i, 0, 1, 0, pick, 0, 14) == Chased([[1], [EMPTY], [EMPTY], [EMPTY]], i[0 := [0]], Settles)
  {
    hide Chase, Fill;
    FreeSlot(Config(4, 1, Fork), [[EMPTY], [EMPTY], [EMPTY], [EMPTY]], i, 0, 1, 0, pick, 0, 14);
  }

  lemma ForkSecond(pick: nat -> nat, i: seq<seq<int>>)
    requires Grid(Config(4, 1, Fork), i)
    ensures var (c, k) := (Config(4, 1, Fork), [[1], [EMPTY], [EMPTY], [EMPTY]]);
            Chase(c, k, i, 0, 2, 1, pick, 0, 14) ==
                Chased([[2], [1], [EMPTY], [EMPTY]], i[0 := [1]][1 := [i[0][0]]], Settles)
  {
    hide Chase, Fill;
    TakenSlot(Config(4, 1, Fork), [[1], [EMPTY], [EMPTY], [EMPTY]], i, 0, 2, 1, pick, 0, 14);
    assert [[1], [EMPTY], [EMPTY], [EMPTY]][0 := [2]] == [[2], [EMPTY], [EMPTY], [EMPTY]];
    assert [[2], [EMPTY], [EMPTY], [EMPTY]][1 := [1]] == [[2], [1], [EMPTY], [EMPTY]];
    FreeSlot(Config(4, 1, Fork), [[2], [EMPTY], [EMPTY], [EMPTY]], i[0 := [1]], 1, 1, i[0][0], pick, 1, 14);
  }

  lemma ForkThird(pick: nat -> nat, i: seq<seq<int>>)
    requires Grid(Config(4, 1, Fork), i)
    ensures var (c, k) := (Config(4, 1, Fork), [[2], [1], [EMPTY], [EMPTY]]);
            Chase(c, k, i, 0, 1, 2, pick, 0, 14) ==
                Chased([[1], [1], [2], [EMPTY]], i[0 := [2]][2 := [i[0][0]]], Settles)
  {
    hide Chase, Fill;
    TakenSlot(Config(4, 1, Fork), [[2], [1], [EMPTY], [EMPTY]], i, 0, 1, 2, pick, 0, 14);
    assert [[2], [1], [EMPTY], [EMPTY]][0 := [1]] == [[1], [1], [EMPTY], [EMPTY]];
    assert [[1], [1], [EMPTY], [EMPTY]][2 := [2]] == [[1], [1], [2], [EMPTY]];
    FreeSlot(Config(4, 1, Fork), [[1], [1], [EMPTY], [EMPTY]], i[0 := [2]], 2, 2, i[0][0], pick, 1, 14);
  }

  /** The key 1 makes way for the key 2, is inserted once more, and then stands in two slots: `insert`
      looks for it in its first bucket only. */
  method StandsTwice(pick: nat -> nat) returns (r: seq<Outcome>, keys: seq<seq<int>>)
    ensures r == [Placed(0), Placed(1), Placed(2)] && keys == [[1], [1], [2], [EMPTY]]
  {
    hide Chase, Fill, Roster, Formed, Sound, Entries, Bcht.Fit, Bcht.Contents;
    var t := new Bcht(1, Fork, 2, 14);
    t.Shape();
    assert t.Cfg() == Config(4, 1, Fork);
    Single(4, EMPTY);
    ForkFirst(pick, t.indices);
    var r1 := t.Add(1, pick);
    ForkSecond(pick, t.indices);
    var r2 := t.Add(2, pick);
    ForkThird(pick, t.indices);
    var r3 := t.Add(1, pick);
    return [r1, r2, r3], t.keys;
  }

  /** The key 1 has the buckets 0 and 1, all others have bucket 0 only. */
  function Stem(iter: nat, key: int): nat
  {
    if key == 1 && iter > 0 then 1 else 0
  }

  lemma StemChains(pick: nat -> nat, i: seq<seq<int>>)
    requires Grid(Config(2, 1, Stem), i)
    ensures var (c, k) := (Config(2, 1, Stem), [[EMPTY], [EMPTY]]);
            Chase(c, k, i, 0, 1, 0, pick, 0, 7) == Chased([[1], [EMPTY]], i[0 := [0]], Settles)
    ensures var (c, k) := (Config(2, 1, Stem), [[1], [EMPTY]]);
            Chase(c, k, i, 0, 2, 1, pick, 0, 7) == Chased([[2], [1]], i[0 := [1]][1 := [i[0][0]]], Settles)
  {
    hide Chase, Fill;
    var c := Config(2, 1, Stem);
    FreeSlot(c, [[EMPTY], [EMPTY]], i, 0, 1, 0, pick, 0, 7);
    TakenSlot(c, [[1], [EMPTY]], i, 0, 2, 1, pick, 0, 7);
    assert [[1], [EMPTY]][0 := [2]] == [[2], [EMPTY]] && [[2], [EMPTY]][1 := [1]] == [[2], [1]];
    FreeSlot(c, [[2], [EMPTY]], i[0 := [1]], 1, 1, i[0][0], pick, 1, 7);
  }

  /** With any number: the key 1 is written, goes on when the key 2 comes back, and finds itself. */
  lemma StemReturns(pick: nat -> nat, i: seq<seq<int>>, idx: int)
    requires Grid(Config(2, 1, Stem), i)
    ensures var (c, k) := (Config(2, 1, Stem), [[2], [1]]);
            Chase(c, k, i, 0, 1, idx, pick, 0, 7) == Chased(k, i, Refused)
  {
    hide Chase, Fill;
    var c := Config(2, 1, Stem);
    TakenSlot(c, [[2], [1]], i, 0, 1, idx, pick, 0, 7);
    assert [[2], [1]][0 := [1]] == [[1], [1]] && [[1], [1]][0 := [2]] == [[2], [1]];
    assert i[0] == [i[0][0]];
    TakenSlot(c, [[1], [1]], i[0 := [idx]], 0, 2, i[0][0], pick, 1, 7);
    assert i[0 := [idx]][0 := [i[0][0]]] == i;
    HandThere(c, [[2], [1]], i, 1, 1, idx, pick, 2, 7);
  }

  /** The key 1 makes way for the key 2 and is inserted once more: the chain comes back to it, all
      slots are as before, and yet a number has been drawn that no key has. */
  method RoundTrip(pick: nat -> nat) returns (r: seq<Outcome>, keys: seq<seq<int>>, drawn: nat)
    ensures r == [Placed(0), Placed(1), Present] && keys == [[2], [1]] && drawn == 3
  {
    hide Chase, Fill, Roster, Formed, Sound, Entries, Bcht.Fit, Bcht.Contents;
    var t := new Bcht(1, Stem, 1, 7);
    t.Shape();
    assert t.Cfg() == Config(2, 1, Stem);
    Single(2, EMPTY);
    StemChains(pick, t.indices);
    var r1 := t.Add(1, pick);
    StemChains(pick, t.indices);
    var r2 := t.Add(2, pick);
    StemReturns(pick, t.indices, 2);
    var r3 := t.Add(1, pick);
    return [r1, r2, r3], t.keys, t.cnt;
  }
}
