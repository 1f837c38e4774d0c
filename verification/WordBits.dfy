/** Bitwise operations on natural numbers and powers of two. */
module WordBits {

  function Pow2(k: nat): (p: nat)
    ensures p >= 1
  {
    if k == 0 then 1 else 2 * Pow2(k - 1)
  }

  /** Exponent of the smallest power of two not below `n`, `next_2pow`. */
  function CeilLog2(n: nat): (e: nat)
    ensures Pow2(e) >= n
    ensures e > 0 ==> Pow2(e - 1) < n
    decreases n
  {
    if n <= 1 then 0 else 1 + CeilLog2((n + 1) / 2)
  }

  function Shr(x: nat, k: nat): nat
  {
    var p := Pow2(k);
    DivNat(x, p);
    x / p
  }

  lemma DivNat(x: nat, p: nat)
    requires p >= 1
    ensures 0 <= x / p
  {
  }

  function Or(x: nat, y: nat): nat
  {
    if x == 0 then y else 2 * Or(x / 2, y / 2) + if x % 2 == 1 || y % 2 == 1 then 1 else 0
  }

  function And(x: nat, y: nat): nat
  {
    if x == 0 then 0 else 2 * And(x / 2, y / 2) + if x % 2 == 1 && y % 2 == 1 then 1 else 0
  }

  lemma {:induction false} Pow2Grows(a: nat, b: nat)
    requires a <= b
    ensures Pow2(a) <= Pow2(b)
  {
    if a < b {
      Pow2Grows(a, b - 1);
    }
  }

  lemma {:induction false} Pow2Adds(a: nat, b: nat)
    ensures Pow2(a + b) == Pow2(a) * Pow2(b)
  {
    if a > 0 {
      Pow2Adds(a - 1, b);
      assert Pow2(a) * Pow2(b) == 2 * (Pow2(a - 1) * Pow2(b));
    }
  }

  /** Masking with a power of two less one is the remainder. */
  lemma {:induction false} AndMask(x: nat, k: nat)
    ensures And(x, Pow2(k) - 1) == x % Pow2(k)
  {
    if k > 0 && x > 0 {
      AndMask(x / 2, k - 1);
      var p := Pow2(k - 1);
      assert (2 * p - 1) / 2 == p - 1 && (2 * p - 1) % 2 == 1;
      HalfMod(x, p);
    } else if x > 0 {
      AndZero(x);
    }
  }

  lemma {:induction false} AndZero(x: nat)
    ensures And(x, 0) == 0
  {
    if x > 0 {
      AndZero(x / 2);
    }
  }

  lemma HalfMod(x: nat, p: nat)
    requires p >= 1
    ensures x % (2 * p) == 2 * ((x / 2) % p) + x % 2
  {
    var (q, r) := ((x / 2) / p, (x / 2) % p);
    assert x / 2 == q * p + r;
    assert x == q * (2 * p) + (2 * r + x % 2);
    ModIs(x, 2 * p, q, 2 * r + x % 2);
  }

  /** Division with remainder is unique. */
  lemma ModIs(x: int, m: int, q: int, r: int)
    requires m >= 1 && 0 <= r < m && x == q * m + r
    ensures x % m == r && x / m == q
  {
    var (d, s) := (x / m, x % m);
    assert x == d * m + s;
    assert (d - q) * m == d * m - q * m;
    assert d - q >= 1 ==> (d - q) * m >= m;
    assert d - q <= -1 ==> (d - q) * m <= 0 - m;
  }

  lemma {:induction false} OrAbove(x: nat, y: nat)
    ensures Or(x, y) >= y && Or(x, y) >= x
  {
    if x > 0 {
      OrAbove(x / 2, y / 2);
    }
  }

  lemma {:induction false} OrBelow(x: nat, y: nat, k: nat)
    requires x < Pow2(k) && y < Pow2(k)
    ensures Or(x, y) < Pow2(k)
  {
    if x > 0 && k > 0 {
      OrBelow(x / 2, y / 2, k - 1);
    }
  }

  /** The bits above position `k` of one side pass through. */
  lemma {:induction false} OrHigh(hi: nat, r: nat, y: nat, k: nat)
    requires r < Pow2(k) && y < Pow2(k)
    ensures Or(hi * Pow2(k) + r, y) >= hi * Pow2(k) + y
  {
    var x := hi * Pow2(k) + r;
    if x == 0 {
    } else if k == 0 {
      OrAbove(x, y);
    } else {
      var p := Pow2(k - 1);
      assert hi * Pow2(k) == 2 * (hi * p);
      assert x / 2 == hi * p + r / 2 && x % 2 == r % 2;
      OrHigh(hi, r / 2, y / 2, k - 1);
    }
  }
}
