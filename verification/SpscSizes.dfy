/** The size computations of the chunked ring, on 64-bit words. */
module SpscSizes {
  import opened WordBits
  import opened MortonCodes

  const WORD: nat := 0x1_0000_0000_0000_0000
  const MIN_CHUNK: nat := 64
  const MAX_CHUNK: nat := 1024

  ghost predicate IsPow2(p: nat)
  {
    exists k: nat :: p == Pow2(k)
  }

  /** The smallest power of two that is not below `x`. */
  ghost predicate Rounded(x: nat, p: nat)
  {
    IsPow2(p) && p >= x && forall k: nat :: Pow2(k) >= x ==> Pow2(k) >= p
  }

  lemma RoundedIs(x: nat, p: nat)
    requires IsPow2(p) && p >= x && (p == 1 || p < 2 * x)
    ensures Rounded(x, p)
  {
    var n: nat :| p == Pow2(n);
    forall k: nat | Pow2(k) >= x
      ensures Pow2(k) >= p
    {
      if k < n {
        Pow2Grows(k + 1, n);
      } else {
        Pow2Grows(n, k);
      }
    }
  }

  lemma Squared(k: nat, x: nat)
    requires Pow2(k) == x
    ensures Pow2(2 * k) == x * x
  {
    Pow2Adds(k, k);
  }

  lemma WordIs()
    ensures WORD == Pow2(64)
  {
    assert Pow2(2) == 4;
    hide Pow2;
    Squared(2, 4);
    Squared(4, 16);
    Squared(8, 0x100);
    Squared(16, 0x1_0000);
    Squared(32, 0x1_0000_0000);
  }

  lemma {:induction false} BitLengthMeans(x: nat)
    requires x > 0
    ensures BitLength(x) > 0 && Pow2(BitLength(x) - 1) <= x < Pow2(BitLength(x))
  {
    if x > 1 {
      BitLengthMeans(x / 2);
    }
  }

  /** The `m` highest of the `t` bits are ones. */
  predicate TopOnes(v: nat, t: nat, m: nat)
  {
    m <= t && Pow2(t) - Pow2(t - m) <= v < Pow2(t)
  }

  function Least(a: nat, b: nat): nat
  {
    if a <= b then a else b
  }

  /** Smearing by `s` doubles the run of ones at the top, until all `t` bits are ones. */
  lemma Smear(v: nat, t: nat, s: nat)
    requires s >= 1 && TopOnes(v, t, Least(s, t))
    ensures TopOnes(Or(v, Shr(v, s)), t, Least(2 * s, t))
  {
    var y := Shr(v, s);
    OrAbove(v, y);
    assert y <= v by {
      Shrinks(v, Pow2(s));
    }
    OrBelow(v, y, t);
    if s < t {
      Shifted(v, t, s);
      TopIs(v, t, s);
      SmearMore(v, t, s, y);
    }
  }

  lemma Shrinks(v: nat, p: nat)
    requires p >= 1
    ensures v / p <= v
  {
  }

  lemma TopIs(v: nat, t: nat, m: nat)
    requires m < t && TopOnes(v, t, m)
    ensures Pow2(t) == Pow2(m) * Pow2(t - m) && (Pow2(m) - 1) * Pow2(t - m) == Pow2(t) - Pow2(t - m)
  {
    Pow2Adds(m, t - m);
  }

  lemma SmearMore(v: nat, t: nat, m: nat, y: nat)
    requires 1 <= m < t && TopOnes(v, t, m) && y < Pow2(t - m)
    requires y >= Pow2(t - m) - if 2 * m <= t then Pow2(t - 2 * m) else 1
    requires (Pow2(m) - 1) * Pow2(t - m) == Pow2(t) - Pow2(t - m)
    ensures Or(v, y) >= Pow2(t) - if 2 * m <= t then Pow2(t - 2 * m) else 1
  {
    hide Or, Pow2;
    var (hi, k) := (Pow2(m) - 1, t - m);
    var r: nat := v - hi * Pow2(k);
    OrHigh(hi, r, y, k);
    assert hi * Pow2(k) + r == v;
  }

  lemma Distributes(p: nat, a: nat, b: nat)
    ensures p * (a - b) == p * a - p * b
  {
  }

  lemma Shifted(v: nat, t: nat, m: nat)
    requires TopOnes(v, t, m) && m >= 1
    ensures Shr(v, m) < Pow2(t - m)
    ensures Shr(v, m) >= Pow2(t - m) - if 2 * m <= t then Pow2(t - 2 * m) else 1
  {
    hide Pow2;
    var (k, p) := (t - m, Pow2(m));
    Pow2Adds(m, k);
    DivBelow(v, p, Pow2(k));
    if 2 * m <= t {
      Pow2Adds(m, k - m);
      Distributes(p, Pow2(k), Pow2(k - m));
      DivAbove(v, p, Pow2(k) - Pow2(k - m));
    } else {
      Pow2Grows(k, m);
      Distributes(p, Pow2(k), 1);
      DivAbove(v, p, Pow2(k) - 1);
    }
  }

  lemma DivBelow(v: nat, p: nat, q: nat)
    requires p >= 1 && v < p * q
    ensures v / p < q
  {
    var d := v / p;
    assert v == p * d + v % p;
    assert d >= q ==> p * d >= p * q;
  }

  lemma DivAbove(v: nat, p: nat, q: nat)
    requires p >= 1 && v >= p * q
    ensures v / p >= q
  {
    var d := v / p;
    assert v == p * d + v % p;
    assert d <= q - 1 ==> p * d <= p * (q - 1);
    assert p * (q - 1) == p * q - p;
  }

  /** `next_power_of_two`: the smallest power of two not below the value; on a value above 2^63
      the final increment wraps to zero. */
  method NextPowerOfTwo(value: nat) returns (p: nat)
    requires value < WORD
    ensures value <= Pow2(63) ==>
            Rounded(value, p) && IsPow2(p) && value <= p <= Pow2(63)
    ensures value > Pow2(63) ==> p == 0
  {
    WordIs();
    if value <= 1 {
      assert Pow2(0) == 1;
      Pow2Grows(0, 63);
      RoundedIs(value, 1);
      return 1;
    }
    var v := value - 1;
    ghost var t := BitLength(v);
    BitLengthMeans(v);
    Within(v, t, 64);
    assert Pow2(t) == 2 * Pow2(t - 1) && TopOnes(v, t, Least(1, t));
    hide Or, Shr, Pow2, TopOnes, BitLength;
    Smear(v, t, 1);
    v := Or(v, Shr(v, 1));
    Smear(v, t, 2);
    v := Or(v, Shr(v, 2));
    Smear(v, t, 4);
    v := Or(v, Shr(v, 4));
    Smear(v, t, 8);
    v := Or(v, Shr(v, 8));
    Smear(v, t, 16);
    v := Or(v, Shr(v, 16));
    Smear(v, t, 32);
    v := Or(v, Shr(v, 32));
    AllOnes(v, t, value);
    p := (v + 1) % WORD;
    if value <= Pow2(63) {
      RoundedIs(value, p);
    }
  }

  lemma AllOnes(v: nat, t: nat, value: nat)
    requires 2 <= value < WORD && 1 <= t <= 64 && TopOnes(v, t, t) && Pow2(t - 1) <= value - 1 < Pow2(t)
    ensures v + 1 == Pow2(t) && IsPow2(v + 1)
    ensures value <= Pow2(63) ==> t <= 63 && (v + 1) % WORD == v + 1 && value <= v + 1 < 2 * value && v + 1 <= Pow2(63)
    ensures value > Pow2(63) ==> (v + 1) % WORD == 0
  {
    WordIs();
    assert Pow2(0) == 1;
    assert Pow2(t) == 2 * Pow2(t - 1);
    if value <= Pow2(63) {
      Within(value - 1, t, 63);
      Pow2Grows(t, 63);
    } else {
      Within2(value, t);
    }
  }

  lemma Within2(value: nat, t: nat)
    requires value > Pow2(63) && value - 1 < Pow2(t) && t <= 64
    ensures t == 64
  {
    if t < 64 {
      Pow2Grows(t, 63);
    }
  }

  lemma Within(v: nat, t: nat, b: nat)
    requires v < Pow2(b) && t > 0 && Pow2(t - 1) <= v
    ensures t <= b
  {
    if t > b {
      Pow2Grows(b, t - 1);
    }
  }

  /** `log2_power_of_two`. */
  method Log2PowerOfTwo(value: nat) returns (shift: nat)
    ensures value >= 1 ==> Pow2(shift) <= value < 2 * Pow2(shift)
    ensures IsPow2(value) ==> Pow2(shift) == value
  {
    var v := value;
    shift := 0;
    while v > 1
      invariant value >= 1 ==> v >= 1 && v * Pow2(shift) <= value < (v + 1) * Pow2(shift)
    {
      Halve(v, shift, value);
      v := v / 2;
      shift := shift + 1;
    }
    if IsPow2(value) {
      var k: nat :| value == Pow2(k);
      Between(shift, k);
    }
  }

  lemma Halve(v: nat, s: nat, value: nat)
    requires v > 1 && v * Pow2(s) <= value < (v + 1) * Pow2(s)
    ensures (v / 2) * Pow2(s + 1) <= value < (v / 2 + 1) * Pow2(s + 1)
  {
    var (h, p) := (v / 2, Pow2(s));
    assert h * Pow2(s + 1) == (2 * h) * p && (h + 1) * Pow2(s + 1) == (2 * h + 2) * p;
    assert (2 * h) * p <= v * p && (v + 1) * p <= (2 * h + 2) * p;
  }

  lemma Strictly()
    ensures forall x: nat, y: nat :: x < y ==> Pow2(y) >= 2 * Pow2(x)
  {
    forall x: nat, y: nat | x < y
      ensures Pow2(y) >= 2 * Pow2(x)
    {
      Pow2Grows(x + 1, y);
    }
  }

  lemma Between(a: nat, k: nat)
    requires Pow2(a) <= Pow2(k) < 2 * Pow2(a)
    ensures a == k
  {
    Strictly();
    hide Pow2;
  }

  lemma Divides(k: nat, n: nat)
    requires k <= n
    ensures Pow2(n) / Pow2(k) == Pow2(n - k) && Pow2(n) % Pow2(k) == 0 && Pow2(n) == Pow2(n - k) * Pow2(k)
  {
    Pow2Adds(n - k, k);
    ModIs(Pow2(n), Pow2(k), Pow2(n - k), 0);
  }

  lemma Smaller(k: nat, n: nat)
    requires Pow2(k) <= Pow2(n)
    ensures k <= n
  {
    if k > n {
      Pow2Grows(n + 1, k);
    }
  }

  /** Two to the `k` is the square root of the capacity, rounded up to a power of two. */
  ghost predicate RootOf(capacity: nat, k: nat)
  {
    capacity <= Pow2(2 * k) && (k > 0 ==> Pow2(2 * k - 2) < capacity)
  }

  /** The chunk size chosen without a request: that root, brought between the two limits, but never
      more than the capacity. */
  ghost predicate Balanced(capacity: nat, c: nat)
  {
    exists k: nat :: RootOf(capacity, k) && c == Least(capacity, Clamped(Pow2(k)))
  }

  function Clamped(x: nat): nat
  {
    if x < MIN_CHUNK then MIN_CHUNK else if x > MAX_CHUNK then MAX_CHUNK else x
  }

  /** `balanced_chunk_capacity`, for a power of two: a request rounded up, but never more than the
      capacity; without a request the balanced size. */
  method BalancedChunkCapacity(capacity: nat, requested: nat) returns (c: nat)
    requires capacity < WORD && requested < WORD
    ensures IsPow2(capacity) && requested <= Pow2(63) ==> IsPow2(c) && 1 <= c <= capacity
    ensures IsPow2(capacity) && requested == 0 ==> Balanced(capacity, c)
    ensures capacity > 0 && 0 < requested <= Pow2(63) ==>
            exists r: nat :: Rounded(requested, r) && c == Least(capacity, r)
    ensures capacity > 0 && requested > Pow2(63) ==> c == 0
    ensures capacity == 0 ==> c == 1
  {
    hide Pow2, Rounded, Balanced, IsPow2;
    WordIs();
    Limits();
    if capacity == 0 {
      NoPow2();
      return 1;
    }
    if requested != 0 {
      var r := NextPowerOfTwo(requested);
      assert requested <= Pow2(63) ==> r >= 1 && Rounded(requested, r);
      return if r > capacity then capacity else r;
    }
    c := 1;
    ghost var k := 0;
    while c < capacity / c
      invariant 1 <= c <= capacity && c == Pow2(k) && (k > 0 ==> Pow2(2 * k - 2) < capacity)
      decreases capacity - c
    {
      Square(c, capacity);
      Squared(k, c);
      Twice(k);
      c, k := c * 2, k + 1;
    }
    if IsPow2(capacity) {
      Root(capacity, k);
    }
    if c < MIN_CHUNK {
      c := if capacity < MIN_CHUNK then capacity else MIN_CHUNK;
    }
    if c > MAX_CHUNK {
      c := MAX_CHUNK;
    }
    if c > capacity {
      c := capacity;
    }
    var d := c;
    c := NextPowerOfTwo(d);
    if IsPow2(capacity) {
      Chosen(capacity, k, d);
      Fixed(d, c);
    }
  }

  /** The loop stops at the root. */
  lemma Root(capacity: nat, k: nat)
    requires IsPow2(capacity) && Pow2(k) <= capacity && Pow2(k) >= capacity / Pow2(k)
    ensures capacity <= Pow2(2 * k)
  {
    hide Pow2;
    var n: nat :| capacity == Pow2(n);
    Smaller(k, n);
    Divides(k, n);
    Smaller(n - k, k);
    Pow2Grows(n, 2 * k);
  }

  lemma Limits()
    ensures Pow2(0) == 1 && Pow2(6) == MIN_CHUNK && Pow2(10) == MAX_CHUNK
  {
    Pow2Adds(6, 4);
  }

  lemma Twice(k: nat)
    ensures Pow2(k + 1) == 2 * Pow2(k)
  {
  }

  lemma NoPow2()
    ensures !IsPow2(0)
  {
  }

  lemma Times(c: nat, a: nat, b: nat)
    requires a <= b
    ensures c * a <= c * b
  {
  }

  lemma Square(c: nat, capacity: nat)
    requires c >= 1 && c < capacity / c
    ensures 2 * c <= capacity && c * c < capacity
  {
    var q := capacity / c;
    assert c * q <= capacity;
    Times(c, 2, q);
    Times(c, c + 1, q);
    assert c * (c + 1) == c * c + c;
  }

  /** A power of two is its own next power of two. */
  lemma Fixed(d: nat, c: nat)
    requires IsPow2(d) && d < WORD && (d <= Pow2(63) ==> Rounded(d, c))
    ensures c == d
  {
    WordIs();
    var k: nat :| d == Pow2(k);
    if k >= 64 {
      Pow2Grows(64, k);
    }
    Pow2Grows(k, 63);
    assert Pow2(k) >= c;
  }

  lemma Chosen(capacity: nat, k: nat, c: nat)
    requires IsPow2(capacity) && RootOf(capacity, k) && c == Least(capacity, Clamped(Pow2(k)))
    ensures Balanced(capacity, c) && IsPow2(c) && 1 <= c <= capacity
  {
    hide Pow2, RootOf;
    Limits();
    var n: nat :| capacity == Pow2(n);
    Pow2Grows(0, n);
    Pow2Grows(0, k);
  }

  // Where a position lies in the chunks.

  datatype Layout = Layout(capacity: nat, mask: nat, chunk: nat, chunkMask: nat, shift: nat, count: nat)

  /** `cell_at_`: chunk and place in the chunk. */
  function CellAt(q: Layout, position: nat): (nat, nat)
  {
    var index := And(position, q.mask);
    (Shr(index, q.shift), And(index, q.chunkMask))
  }

  ghost predicate LaidOut(q: Layout)
  {
    && q.capacity >= 1 && q.chunk >= 1
    && exists n: nat, k: nat :: k <= n <= 63 && q.capacity == Pow2(n) && q.chunk == Pow2(k) && Scaled(q, n, k)
  }

  ghost predicate Scaled(q: Layout, n: nat, k: nat)
    requires k <= n
  {
    q.mask == Pow2(n) - 1 && q.chunkMask == Pow2(k) - 1 && q.shift == k && q.count == Pow2(n - k)
  }

  /** Minus one on 64-bit words. */
  function Below(x: nat): nat
    requires x < WORD
  {
    (x + WORD - 1) % WORD
  }

  /** What the constructor comes to: a layout, or a division by a chunk size of 0. */
  datatype Made = Made(q: Layout) | DividesByZero

  /** The constructor, for all arguments: the layout is proper exactly if capacity and chunk size asked
      for are at most 2^63. A larger capacity becomes 0, and there are no chunks; a larger chunk
      size becomes 0, by which the capacity is then divided. */
  method Construct(capacity: nat, chunkCapacity: nat, requestedDefault: nat) returns (m: Made)
    requires capacity < WORD && chunkCapacity < WORD && requestedDefault < WORD
    ensures m.Made? && LaidOut(m.q) <==> capacity <= Pow2(63) && chunkCapacity <= Pow2(63)
    ensures m.DividesByZero? <==> capacity <= Pow2(63) && chunkCapacity > Pow2(63)
    ensures m.Made? && capacity > Pow2(63) ==> m.q.capacity == 0 && m.q.count == 0
    ensures m.Made? && capacity <= Pow2(63) ==> Rounded(Wanted(capacity, requestedDefault), m.q.capacity)
    ensures m.Made? && capacity <= Pow2(63) && chunkCapacity == 0 ==> Balanced(m.q.capacity, m.q.chunk)
    ensures m.Made? && capacity <= Pow2(63) && chunkCapacity > 0 ==>
              exists r: nat :: Rounded(chunkCapacity, r) && m.q.chunk == Least(m.q.capacity, r)
  {
    hide Pow2, Rounded, Balanced, LaidOut;
    WordIs();
    Pow2Grows(0, 63);
    var defaultCapacity := NextPowerOfTwo(requestedDefault);
    CapIs(defaultCapacity);
    var cap := NextPowerOfTwo(if capacity != 0 then capacity else defaultCapacity);
    CapIs(cap);
    if capacity == 0 {
      DefaultIs(requestedDefault, defaultCapacity, cap);
    }
    var chunk := BalancedChunkCapacity(cap, chunkCapacity);
    var shift := Log2PowerOfTwo(chunk);
    if chunk == 0 {
      return DividesByZero;
    }
    var q := Layout(cap, Below(cap), chunk, Below(chunk), shift, cap / chunk);
    if cap > 0 {
      Proper(q);
    } else {
      NotLaidOut(q);
    }
    return Made(q);
  }

  /** The capacity asked for: the default if none is given, of which one past 2^63 has wrapped to 0. */
  function Wanted(capacity: nat, requestedDefault: nat): nat
  {
    if capacity != 0 then capacity else if requestedDefault <= 0x8000_0000_0000_0000 then requestedDefault else 0
  }

  /** Rounding up twice is rounding up once. */
  lemma DefaultIs(requested: nat, rounded: nat, cap: nat)
    requires requested < WORD && rounded < WORD
    requires if requested <= Pow2(63) then Rounded(requested, rounded) && rounded <= Pow2(63) else rounded == 0
    requires rounded <= Pow2(63) && Rounded(rounded, cap)
    ensures Rounded(Wanted(0, requested), cap)
  {
    WordIs();
    assert Pow2(64) == 2 * Pow2(63);
  }

  lemma NotLaidOut(q: Layout)
    requires q.capacity == 0
    ensures !LaidOut(q)
  {
  }

  lemma CapIs(cap: nat)
    requires cap == 0 || (IsPow2(cap) && cap <= Pow2(63))
    ensures cap <= Pow2(63) < WORD && (cap > 0 <==> IsPow2(cap))
  {
    WordIs();
    assert Pow2(64) == 2 * Pow2(63);
    NoPow2();
  }

  lemma Proper(q: Layout)
    requires IsPow2(q.capacity) && q.capacity <= Pow2(63) && IsPow2(q.chunk) && 1 <= q.chunk <= q.capacity
    requires Pow2(q.shift) == q.chunk && q.count == q.capacity / q.chunk
    requires q.capacity < WORD && q.mask == Below(q.capacity) && q.chunkMask == Below(q.chunk)
    ensures LaidOut(q)
  {
    hide Pow2, Below;
    var n: nat :| q.capacity == Pow2(n);
    Smaller(n, 63);
    Smaller(q.shift, n);
    Divides(q.shift, n);
    BelowIs(q.capacity);
    BelowIs(q.chunk);
    assert Scaled(q, n, q.shift);
  }

  lemma BelowIs(x: nat)
    requires 1 <= x < WORD
    ensures Below(x) == x - 1
  {
  }

  /** The exponents of capacity and chunk size. */
  lemma Exponents(q: Layout) returns (n: nat, k: nat)
    requires LaidOut(q)
    ensures k <= n <= 63 && q.capacity == Pow2(n) && q.chunk == Pow2(k) && Scaled(q, n, k)
  {
    n, k :| k <= n <= 63 && q.capacity == Pow2(n) && q.chunk == Pow2(k) && Scaled(q, n, k);
  }

  /** Masks and shifts as remainders and quotients. */
  lemma MaskedIs(x: nat, k: nat)
    ensures And(x, Pow2(k) - 1) == x % Pow2(k) && Shr(x, k) == x / Pow2(k) && x % Pow2(k) < Pow2(k)
  {
    AndMask(x, k);
  }

  /** In arithmetic: the remainder by the capacity, split by the chunk size. */
  lemma CellAtIs(q: Layout, position: nat)
    requires LaidOut(q)
    ensures var index := position % q.capacity;
            && CellAt(q, position) == (index / q.chunk, index % q.chunk)
            && index / q.chunk < q.count && index % q.chunk < q.chunk
            && q.count * q.chunk == q.capacity
  {
    hide Pow2, And, Shr, LaidOut;
    var n, k := Exponents(q);
    MaskedIs(position, n);
    var index := position % q.capacity;
    MaskedIs(index, k);
    Divides(k, n);
    DivBelow(index, Pow2(k), Pow2(n - k));
  }

  /** Different positions of one lap have different cells, every cell has its position. */
  lemma CellAtBijection(q: Layout, a: nat, b: nat)
    requires LaidOut(q) && a < q.capacity && b < q.capacity
    ensures CellAt(q, a) == CellAt(q, b) ==> a == b
  {
    hide CellAt;
    CellAtIs(q, a);
    CellAtIs(q, b);
    ModIs(a, q.capacity, 0, a);
    ModIs(b, q.capacity, 0, b);
    Recombined(a, q.chunk);
    Recombined(b, q.chunk);
    hide LaidOut;
  }

  lemma Recombined(a: nat, c: nat)
    requires c >= 1
    ensures a == (a / c) * c + a % c
  {
  }

  lemma CellAtOnto(q: Layout, i: nat, j: nat)
    requires LaidOut(q) && i < q.count && j < q.chunk
    ensures i * q.chunk + j < q.capacity && CellAt(q, i * q.chunk + j) == (i, j)
  {
    hide CellAt;
    CellAtIs(q, i * q.chunk + j);
    Fits(i, q.count, q.chunk, j);
    ModIs(i * q.chunk + j, q.capacity, 0, i * q.chunk + j);
    ModIs(i * q.chunk + j, q.chunk, i, j);
    hide LaidOut;
  }

  lemma Fits(i: nat, n: nat, c: nat, j: nat)
    requires i < n && j < c
    ensures i * c + j < n * c
  {
    assert (i + 1) * c <= n * c;
    assert (i + 1) * c == i * c + c;
  }

  /** Counters may wrap: the cell of a position depends on its 64-bit word only. */
  lemma CellAtWraps(q: Layout, position: nat)
    requires LaidOut(q)
    ensures CellAt(q, position % WORD) == CellAt(q, position)
  {
    WordIs();
    var n: nat, k: nat :| k <= n <= 63 && q.capacity == Pow2(n) && q.chunk == Pow2(k) && Scaled(q, n, k);
    Divides(n, 64);
    ModMod(position, q.capacity, Pow2(64 - n));
    CellAtIs(q, position);
    CellAtIs(q, position % WORD);
  }

  lemma ModMod(x: nat, m: nat, f: nat)
    requires m >= 1 && f >= 1
    ensures f * m >= 1 && (x % (f * m)) % m == x % m
  {
    assert f * m >= m;
    var (w, y) := (f * m, x % (f * m));
    var (d, r) := (x / w, y % m);
    assert x == w * d + y && y == m * (y / m) + r;
    assert w * d == (d * f) * m;
    assert (d * f + y / m) * m == (d * f) * m + (y / m) * m;
    ModIs(x, m, d * f + y / m, r);
  }
}
