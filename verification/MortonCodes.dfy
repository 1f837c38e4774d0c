/** Morton codes as 32-bit words, and the length of the prefix two codes share.
    The tree builders look at codes only through `Common`. */
module MortonCodes {

  const BITS: nat := 32

  /** A `u32` Morton code. */
  type Code = c: int | 0 <= c < 0x1_0000_0000

  /** Bitwise exclusive or, on binary digits. */
  function Xor(a: nat, b: nat): nat
  {
    if a == 0 && b == 0 then 0
    else 2 * Xor(a / 2, b / 2) + (if a % 2 == b % 2 then 0 else 1)
  }

  function BitLength(x: nat): nat
  {
    if x == 0 then 0 else 1 + BitLength(x / 2)
  }

  /** Number of leading zero bits of a 32-bit word; 32 for the zero word. */
  function CountLz(x: nat): int
  {
    BITS - BitLength(x)
  }

  /** Length of the common prefix of two codes, as the builders compute it. */
  function Common(a: Code, b: Code): int
  {
    CountLz(Xor(a, b))
  }

  /** `x` without its `n` lowest bits. */
  function HighBits(x: nat, n: nat): nat
    decreases n
  {
    if n == 0 then x else HighBits(x / 2, n - 1)
  }

  lemma {:induction false} BitLengthTop(x: nat, n: nat)
    ensures BitLength(x) <= n <==> HighBits(x, n) == 0
    decreases n
  {
    if n > 0 {
      BitLengthTop(x / 2, n - 1);
    }
  }

  lemma {:induction false} TopXor(a: nat, b: nat, n: nat)
    ensures HighBits(Xor(a, b), n) == 0 <==> HighBits(a, n) == HighBits(b, n)
    decreases n, a + b
  {
    if n > 0 {
      TopXor(a / 2, b / 2, n - 1);
      assert Xor(a, b) / 2 == Xor(a / 2, b / 2);
    } else if a > 0 || b > 0 {
      TopXor(a / 2, b / 2, 0);
    }
  }

  lemma {:induction false} TopMonotone(a: nat, b: nat, n: nat)
    requires a <= b
    ensures HighBits(a, n) <= HighBits(b, n)
    decreases n
  {
    if n > 0 {
      TopMonotone(a / 2, b / 2, n - 1);
    }
  }

  lemma {:induction false} TopSplit(x: nat, n: nat)
    ensures HighBits(x, n + 1) == HighBits(x, n) / 2
    decreases n
  {
    if n > 0 {
      TopSplit(x / 2, n - 1);
    }
  }

  lemma {:induction false} TopOfCode(x: nat, n: nat, bound: nat)
    requires x < bound * 2 && Scale(n) == bound * 2
    ensures HighBits(x, n) == 0
    decreases n
  {
    if n > 0 {
      if n == 1 {
        assert bound == 1;
      } else {
        TopOfCode(x / 2, n - 1, bound / 2);
      }
    }
  }

  function Scale(n: nat): nat
  {
    if n == 0 then 1 else 2 * Scale(n - 1)
  }

  /** A common prefix of at least 32 - n bits means agreement above the n low bits. */
  lemma CommonTop(a: Code, b: Code, n: nat)
    ensures Common(a, b) >= BITS - n <==> HighBits(a, n) == HighBits(b, n)
  {
    BitLengthTop(Xor(a, b), n);
    TopXor(a, b, n);
  }

  lemma CommonRange(a: Code, b: Code)
    ensures 0 <= Common(a, b) <= BITS
    ensures Common(a, b) == BITS <==> a == b
  {
    assert Scale(8) == 0x100 && Scale(16) == 0x1_0000 && Scale(24) == 0x100_0000;
    assert Scale(32) == 0x1_0000_0000;
    TopOfCode(a, 32, 0x8000_0000);
    TopOfCode(b, 32, 0x8000_0000);
    CommonTop(a, b, 32);
    CommonTop(a, b, 0);
  }

  lemma {:induction false} XorSwap(a: nat, b: nat)
    ensures Xor(a, b) == Xor(b, a)
  {
    if a > 0 || b > 0 {
      XorSwap(a / 2, b / 2);
    }
  }

  lemma CommonSwap(a: Code, b: Code)
    ensures Common(a, b) == Common(b, a)
  {
    XorSwap(a, b);
  }

  /** In ascending order the prefix of the outer pair is the shorter of the two inner
      ones, and the two inner ones never branch at the same bit. */
  lemma CommonOrdered(a: Code, b: Code, c: Code)
    requires a <= b <= c
    ensures Common(a, c) == if Common(a, b) <= Common(b, c) then Common(a, b) else Common(b, c)
    ensures Common(a, b) == Common(b, c) ==> a == b == c
  {
    CommonRange(a, b);
    CommonRange(b, c);
    CommonRange(a, c);
    var m := if Common(a, b) <= Common(b, c) then Common(a, b) else Common(b, c);
    var n: nat := BITS - m;
    TopMonotone(a, b, n);
    TopMonotone(b, c, n);
    CommonTop(a, b, n);
    CommonTop(b, c, n);
    CommonTop(a, c, n);
    if m < BITS {
      var k: nat := n - 1;
      TopMonotone(a, b, k);
      TopMonotone(b, c, k);
      CommonTop(a, b, k);
      CommonTop(b, c, k);
      CommonTop(a, c, k);
      TopSplit(a, k);
      TopSplit(b, k);
      TopSplit(c, k);
    }
  }
}
