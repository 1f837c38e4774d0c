/** What the bucketed hash tables share: rows of slots, filled from the front. */
module Buckets {

  /** The reserved key of an empty slot: every byte 0x3f. */
  const EMPTY := 0x3f3f3f3f

  /** `value_type{-1}`: no insertion index given. */
  const NO_INDEX := -1

  /** Number of keys in a bucket: they fill it from the front. */
  function Fill(row: seq<int>): (n: nat)
    ensures n <= |row|
    ensures forall l :: 0 <= l < n ==> row[l] != EMPTY
    ensures n < |row| ==> row[n] == EMPTY
  {
    if row == [] || row[0] == EMPTY then 0 else 1 + Fill(row[1..])
  }

  lemma {:induction false} FillIs(row: seq<int>, n: nat)
    requires n < |row| && row[n] == EMPTY && forall l :: 0 <= l < n ==> row[l] != EMPTY
    ensures Fill(row) == n
  {
    if n > 0 {
      FillIs(row[1..], n - 1);
    }
  }

  ghost predicate Stored(keys: seq<seq<int>>, key: int)
  {
    exists b :: 0 <= b < |keys| && key in keys[b]
  }

  function Put<T>(g: seq<seq<T>>, b: nat, l: nat, x: T): seq<seq<T>>
    requires b < |g| && l < |g[b]|
  {
    g[b := g[b][l := x]]
  }

  /** `B` slots a bucket, `nb` buckets, the candidate buckets of a key by an arbitrary hash. */
  datatype Config = Config(nb: nat, B: nat, hash: (nat, int) -> nat)

  function Bucket(c: Config, key: int, iter: nat): (b: nat)
    requires c.nb > 0
    ensures b < c.nb
  {
    c.hash(iter, key) % c.nb
  }

  ghost predicate Grid<T>(c: Config, g: seq<seq<T>>)
  {
    |g| == c.nb && forall b :: 0 <= b < c.nb ==> |g[b]| == c.B
  }

  predicate Slot(c: Config, b: int, l: int)
  {
    0 <= b < c.nb && 0 <= l < c.B
  }

  lemma PutGrid<T>(c: Config, g: seq<seq<T>>, b: nat, l: nat, x: T)
    requires Grid(c, g) && Slot(c, b, l)
    ensures Grid(c, Put(g, b, l, x)) && Put(g, b, l, x)[b][l] == x
    ensures forall d, m :: Slot(c, d, m) && (d != b || m != l) ==> Put(g, b, l, x)[d][m] == g[d][m]
  {
  }

  function Blank(nb: nat, B: nat, x: int): seq<seq<int>>
  {
    seq(nb, _ => seq(B, _ => x))
  }

  // Whole numbers of buckets.

  lemma Exact(q: nat, r: nat, B: nat)
    requires r < B
    ensures (q * B + r) % B == r && (q * B + r) / B == q
  {
    var n := q * B + r;
    var (d, m) := (n / B, n % B);
    assert n == d * B + m;
    assert (q - d) * B == q * B - d * B;
    assert q - d >= 1 ==> (q - d) * B >= B;
    assert q - d <= -1 ==> (q - d) * B <= 0 - B;
  }

  lemma Multiple(n: nat, B: nat)
    requires B > 0
    ensures var m := n + (B - n % B); m == (n / B + 1) * B && m % B == 0 && m / B == n / B + 1
  {
    assert n == (n / B) * B + n % B;
    assert (n / B + 1) * B == (n / B) * B + B;
    assert (n / B + 1) * B + 0 == (n / B + 1) * B;
    Exact(n / B + 1, 0, B);
  }

  lemma Whole(n: nat, B: nat)
    requires B > 0 && n % B == 0
    ensures (n / B) * B == n && (n / B == 0 <==> n == 0)
  {
  }
}
