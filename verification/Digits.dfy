/** Multi-digit numbers in base B, most significant digit first, as the division
    code keeps them in its digit arrays. */
module Digits {
  import opened Basics
  import opened Words

  function PowB(n: nat): (p: int)
    ensures p > 0
  {
    if n == 0 then 1 else B * PowB(n - 1)
  }

  function Val(s: seq<Digit>): (r: nat)
  {
    if |s| == 0 then 0 else Val(s[..|s| - 1]) * B + s[|s| - 1]
  }

  lemma {:induction false} PowBAdd(m: nat, n: nat)
    ensures PowB(m + n) == PowB(m) * PowB(n)
  {
    if m != 0 {
      PowBAdd(m - 1, n);
      assert B * (PowB(m - 1) * PowB(n)) == (B * PowB(m - 1)) * PowB(n);
    }
  }

  lemma {:induction false} ValAppend(a: seq<Digit>, b: seq<Digit>)
    ensures Val(a + b) == Val(a) * PowB(|b|) + Val(b)
    decreases |b|
  {
    if |b| == 0 {
      assert a + b == a;
    } else {
      var c := b[..|b| - 1];
      ValAppend(a, c);
      assert (a + b)[..|a + b| - 1] == a + c;
      assert (Val(a) * PowB(|c|)) * B == Val(a) * (B * PowB(|c|));
    }
  }

  lemma {:induction false} ValBound(s: seq<Digit>)
    ensures Val(s) < PowB(|s|)
  {
    if |s| > 0 {
      ValBound(s[..|s| - 1]);
    }
  }

  lemma {:induction false} ValSplit(s: seq<Digit>, k: nat)
    requires k <= |s|
    ensures Val(s) == Val(s[..k]) * PowB(|s| - k) + Val(s[k..])
  {
    ValAppend(s[..k], s[k..]);
    assert s[..k] + s[k..] == s;
  }

  lemma {:induction false} ValCons(s: seq<Digit>)
    requires |s| > 0
    ensures Val(s) == s[0] * PowB(|s| - 1) + Val(s[1..])
  {
    ValSplit(s, 1);
    assert s[..1] == [s[0]];
    assert Val([s[0]]) == s[0];
  }

  /** Values below B^(n-1) have a zero leading digit. */
  lemma {:induction false} SmallHasZeroTop(s: seq<Digit>)
    requires |s| > 0 && Val(s) < PowB(|s| - 1)
    ensures s[0] == 0 && Val(s) == Val(s[1..])
  {
    ValCons(s);
    if s[0] >= 1 {
      MulLe(1, s[0], PowB(|s| - 1));
      assert false;
    }
  }

  lemma {:induction false} FourDigits(s: seq<Digit>)
    requires |s| == 4
    ensures Val(s) == ((s[0] * B + s[1]) * B + s[2]) * B + s[3]
  {
    assert s[..3][..2][..1] == [s[0]] && s[..3][..2] == [s[0], s[1]] && s[..3] == [s[0], s[1], s[2]];
    assert Val([s[0]]) == s[0];
    assert Val([s[0], s[1]]) == s[0] * B + s[1];
    assert Val([s[0], s[1], s[2]]) == (s[0] * B + s[1]) * B + s[2];
  }

  // ---------------------------------------------------------------------------
  // Shifts by `d` bits, 0 < d < 16, stated digit by digit
  // ---------------------------------------------------------------------------

  lemma {:induction false} HalfPowers(d: nat)
    requires 0 < d < 16
    ensures Pow2(d) * Pow2(16 - d) == B
    ensures 2 <= Pow2(d) < B && 2 <= Pow2(16 - d) < B
  {
    Pow2Add(d, 16 - d);
    Pow2Add(8, 8);
    Pow2Add(4, 4);
    assert Pow2(4) == 16;
    Pow2Add(1, d - 1);
    Pow2Add(1, 15 - d);
    assert Pow2(1) == 2;
    MulLe(2, Pow2(16 - d), Pow2(d));
    MulLe(2, Pow2(d), Pow2(16 - d));
  }

  /** With p*q == B, shifting a digit up by p spills its top part x/q. */
  lemma ShiftDigit(x: Digit, p: int, q: int)
    requires p > 0 && q > 0 && p * q == B
    ensures x * p == (x / q) * B + (x * p) % B
    ensures (x * p) % B == (x % q) * p
    ensures 0 <= (x % q) * p <= B - p
  {
    var c, r := x / q, x % q;
    assert x == q * c + r;
    assert x * p == c * B + r * p by {
      assert (q * c) * p == c * (p * q);
    }
    MulLe(r, q - 1, p);
    assert (q - 1) * p == B - p;
    ModUnique(x * p, B, c, r * p);
  }

  lemma CarryUp(a: int, x: int, p: int, c: int, r: int)
    requires x * p == c * B + r
    ensures (a * p + c) * B + r == (a * B + x) * p
  {
    assert (a * p) * B == (a * B) * p;
  }

  lemma CarryDown(a: int, r: int, c: int, e: int, p: int, q: int)
    requires p * q == B
    ensures (a * p + r) * B + (c * p + e) == (a * B + (r * q + c)) * p + e
  {
    assert (r * q) * p == r * B;
    assert (a * p) * B == (a * B) * p;
  }

  ghost predicate ShiftedUp(s: seq<Digit>, t: seq<Digit>, p: int, q: int)
    requires q > 0
  {
    && |s| == |t| > 0
    && (forall k :: 0 <= k < |s| - 1 ==> t[k] == (s[k] * p) % B + s[k + 1] / q)
    && t[|s| - 1] == (s[|s| - 1] * p) % B
  }

  /** `shl` multiplies by 2^d when nothing falls out at the left. */
  lemma {:induction false} ShiftedUpValue(s: seq<Digit>, t: seq<Digit>, p: int, q: int)
    requires p > 0 && q > 0 && p * q == B && ShiftedUp(s, t, p, q)
    requires s[0] / q == 0
    ensures Val(t) == Val(s) * p
  {
    var n := |s| - 1;
    ShiftedUpPrefix(s, t, p, q, n);
    ShiftDigit(s[n], p, q);
    assert s[..n + 1] == s && t[..n + 1] == t;
    CarryUp(Val(s[..n]), s[n], p, s[n] / q, (s[n] * p) % B);
  }

  lemma {:induction false} ShiftedUpPrefix(s: seq<Digit>, t: seq<Digit>, p: int, q: int, k: nat)
    requires p > 0 && q > 0 && p * q == B && ShiftedUp(s, t, p, q)
    requires s[0] / q == 0 && k < |s|
    ensures Val(t[..k]) == Val(s[..k]) * p + s[k] / q
  {
    if k > 0 {
      ShiftedUpPrefix(s, t, p, q, k - 1);
      ShiftDigit(s[k - 1], p, q);
      assert t[..k][..k - 1] == t[..k - 1] && s[..k][..k - 1] == s[..k - 1];
      CarryUp(Val(s[..k - 1]), s[k - 1], p, s[k - 1] / q, (s[k - 1] * p) % B);
    }
  }

  /** `t` is `s` without its leading digit, shifted down. */
  ghost predicate ShiftedDown(s: seq<Digit>, t: seq<Digit>, p: int, q: int)
    requires p > 0
  {
    && |s| == |t| + 1
    && forall k :: 0 <= k < |t| ==> t[k] == s[k + 1] / p + (s[k] * q) % B
  }

  /** The un-normalising shift divides by 2^d. */
  lemma {:induction false} ShiftedDownValue(s: seq<Digit>, t: seq<Digit>, p: int, q: int)
    requires p > 0 && q > 0 && p * q == B && ShiftedDown(s, t, p, q) && s[0] < p
    ensures Val(t) == Val(s) / p
    decreases |t|
  {
    if |t| == 0 {
      assert Val(s) == s[0] by { assert s == [s[0]]; }
      ModUnique(s[0], p, 0, s[0]);
    } else {
      var n := |t|;
      var s', t' := s[..n], t[..n - 1];
      ShiftedDownValue(s', t', p, q);
      LowDigitMod(s', p, q);
      DownStep(Val(s'), s[n], s[n - 1], p, q);
    }
  }

  lemma DownStep(v: nat, x: Digit, y: Digit, p: int, q: int)
    requires p > 0 && q > 0 && p * q == B && v % p == y % p
    ensures (v * B + x) / p == (v / p) * B + (x / p + (y * q) % B)
  {
    ShiftDigit(y, q, p);
    CarryDown(v / p, v % p, x / p, x % p, p, q);
    assert v == v / p * p + v % p && x == x / p * p + x % p;
    ModUnique(v * B + x, p, (v / p) * B + ((v % p) * q + x / p), x % p);
  }

  lemma {:induction false} LowDigitMod(s: seq<Digit>, p: int, q: int)
    requires |s| > 0 && p > 0 && q > 0 && p * q == B
    ensures Val(s) % p == s[|s| - 1] % p
  {
    var a, x := Val(s[..|s| - 1]), s[|s| - 1];
    assert a * B == (a * q) * p;
    ModUnique(a * B + x, p, a * q + x / p, x % p) by {
      assert (a * q + x / p) * p == (a * q) * p + (x / p) * p;
    }
  }
}
