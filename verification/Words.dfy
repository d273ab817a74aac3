/** Machine words of the millicode library: 16-bit digits, 32-bit ints and 64-bit
    long longs, with the wrap-around and the half-word macros of longlong.h. */
module Words {
  import opened Basics

  const B: int := 0x1_0000
  const LONG: int := 0x1_0000_0000_0000_0000

  type Digit = x: int | 0 <= x < B
  type UInt = x: int | 0 <= x < WORD
  type ULong = x: int | 0 <= x < LONG
  type SLong = x: int | -(LONG / 2) <= x < LONG / 2

  /** Unsigned arithmetic wraps; Dafny's `%` never returns a negative number. */
  function Wrap(x: int): UInt { x % WORD }
  function WrapLong(x: int): ULong { x % LONG }

  /** Unsigned 32-bit product. */
  function Times(x: int, y: int): UInt { Wrap(x * y) }

  /** Unsigned negation. */
  function NegLong(x: ULong): ULong { WrapLong(LONG - x) }

  /** Two's complement reading of a 64-bit pattern. */
  function AsSigned(x: ULong): SLong {
    if x < LONG / 2 then x else x - LONG
  }

  function HHalf(x: UInt): Digit { x / B }
  function LHalf(x: UInt): Digit { x % B }
  function LHup(x: UInt): UInt { Wrap(x * B) }

  function High(x: ULong): UInt { x / WORD }
  function Low(x: ULong): UInt { x % WORD }
  function Join(h: UInt, l: UInt): ULong { h * WORD + l }

  function Pow2(n: nat): (p: int)
    ensures p > 0
  {
    if n == 0 then 1 else 2 * Pow2(n - 1)
  }

  lemma {:induction false} Pow2Add(m: nat, n: nat)
    ensures Pow2(m + n) == Pow2(m) * Pow2(n)
  {
    if m != 0 {
      Pow2Add(m - 1, n);
      assert Pow2(m + n) == 2 * Pow2(m - 1 + n);
      assert 2 * (Pow2(m - 1) * Pow2(n)) == (2 * Pow2(m - 1)) * Pow2(n);
    }
  }

  /** Bitwise or, bit by bit. */
  function BitOr(x: nat, y: nat): (r: nat)
    decreases x + y
  {
    if x == 0 then y
    else if y == 0 then x
    else 2 * BitOr(x / 2, y / 2) + (if x % 2 == 1 || y % 2 == 1 then 1 else 0)
  }

  /** Or-ing into vacant low bits is addition: what COMBINE and `shl` rely on. */
  lemma {:induction false} BitOrVacant(a: nat, k: nat, y: nat)
    requires y < Pow2(k)
    ensures BitOr(a * Pow2(k), y) == a * Pow2(k) + y
    decreases k
  {
    if k > 0 && a > 0 && y > 0 {
      var x := a * Pow2(k);
      assert x == 2 * (a * Pow2(k - 1));
      BitOrVacant(a, k - 1, y / 2);
    }
  }

  lemma {:induction false} BitOrCommutes(x: nat, y: nat)
    ensures BitOr(x, y) == BitOr(y, x)
    decreases x
  {
    if x > 0 && y > 0 {
      BitOrCommutes(x / 2, y / 2);
    }
  }

  /** COMBINE of qdivrem.c: shift the first digit up and or the second in. */
  function Combine(a: UInt, b: Digit): (r: UInt)
    ensures a < B ==> r == a * B + b
  {
    CombineIsSum(Wrap(a * B) / B, b);
    var r := BitOr(Wrap(a * B), b);
    r
  }

  lemma CombineIsSum(h: nat, b: Digit)
    requires h < B
    ensures BitOr(h * B, b) == h * B + b < WORD
  {
    assert Pow2(16) == B by {
      Pow2Add(8, 8);
      Pow2Add(4, 4);
      assert Pow2(4) == 16;
    }
    BitOrVacant(h, 16, b);
  }
}
