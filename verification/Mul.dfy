/** __muldi3 and __lmulq: the three-product scheme of Knuth vol. 2, section 4.3.3,
    on wrapping 32-bit words with hand-propagated carries. */
module Mul {
  import opened Basics
  import opened Words

  /** u*v == (b^2+b)*u1*v1 + b*(u1-u0)*(v0-v1) + (b+1)*u0*v0 for u = u1*b+u0, v = v1*b+v0. */
  lemma ThreeProducts(b: int, u1: int, u0: int, v1: int, v0: int)
    ensures (u1 * b + u0) * (v1 * b + v0)
            == (b * b) * (u1 * v1) + b * (u1 * v1) + b * ((u1 - u0) * (v0 - v1)) + b * (u0 * v0) + u0 * v0
  {
    assert (u1 - u0) * (v0 - v1) == u1 * v0 - u1 * v1 - u0 * v0 + u0 * v1;
    assert (u1 * b + u0) * (v1 * b + v0)
        == (u1 * b) * (v1 * b) + (u1 * b) * v0 + u0 * (v1 * b) + u0 * v0;
    assert (u1 * b) * (v1 * b) == (b * b) * (u1 * v1);
    assert (u1 * b) * v0 == b * (u1 * v0);
    assert u0 * (v1 * b) == b * (u0 * v1);
    assert b * (u1 * v0 - u1 * v1 - u0 * v0 + u0 * v1)
        == b * (u1 * v0) - b * (u1 * v1) - b * (u0 * v0) + b * (u0 * v1);
  }

  lemma DigitProduct(x: Digit, y: Digit)
    ensures Times(x, y) == x * y
  {
    MulLe(x, B - 1, y);
    MulLe(0, x, y);
  }

  lemma Halves(u: UInt)
    ensures u == HHalf(u) * B + LHalf(u)
  {
  }

  lemma LongHalves(u: ULong)
    ensures u == High(u) * WORD + Low(u)
  {
  }

  /** A shift left by half a word spills HHALF(l) into the high word. */
  lemma ShiftHalf(l: UInt)
    ensures HHalf(l) * WORD + LHup(l) == l * B
  {
    var h: int, lo: int := l / B, l % B;
    assert l * B == h * WORD + lo * B;
    assert Wrap(l * B) == lo * B;
  }

  /** Two words hold `x` modulo 2^64. */
  ghost predicate Holds(h: UInt, l: UInt, x: int)
  {
    exists k: int {:trigger Carry(k)} :: Carry(k) && h * WORD + l == x + k * LONG
  }

  /** Names the multiple of 2^64 that was dropped. */
  ghost predicate Carry(k: int) { true }

  lemma HoldsIntro(h: UInt, l: UInt, x: int, k: int)
    requires h * WORD + l == x + k * LONG
    ensures Holds(h, l, x)
  {
    assert Carry(k);
  }

  /** Adding a two-word number with the carry detected by comparison. */
  method AddWords(h: UInt, l: UInt, dh: UInt, dl: UInt, ghost x: int) returns (h': UInt, l': UInt)
    requires Holds(h, l, x)
    ensures Holds(h', l', x + dh * WORD + dl)
  {
    ghost var k :| Carry(k) && h * WORD + l == x + k * LONG;
    var was := l;
    l' := Wrap(l + dl);
    var c := if l' < was then 1 else 0;
    assert l' == l + dl - c * WORD;
    h' := Wrap(h + Wrap(dh + c));
    ghost var j := (h + dh + c) / WORD;
    assert h' == h + dh + c - j * WORD by { WrapSum(h, dh + c); }
    HoldsIntro(h', l', x + dh * WORD + dl, k - j);
  }

  /** Subtracting one, with the borrow detected by comparison. */
  method SubWords(h: UInt, l: UInt, dh: UInt, dl: UInt, ghost x: int) returns (h': UInt, l': UInt)
    requires Holds(h, l, x)
    ensures Holds(h', l', x - dh * WORD - dl)
  {
    ghost var k :| Carry(k) && h * WORD + l == x + k * LONG;
    var was := l;
    l' := Wrap(l - dl);
    var c := if l' > was then 1 else 0;
    assert l' == l - dl + c * WORD;
    h' := Wrap(h - Wrap(dh + c));
    ghost var j := (h - dh - c) / WORD;
    assert h' == h - dh - c - j * WORD by { WrapDifference(h, dh + c); }
    HoldsIntro(h', l', x - dh * WORD - dl, k - j);
  }

  lemma WrapSum(a: int, b: int)
    ensures Wrap(a + Wrap(b)) == a + b - (a + b) / WORD * WORD
  {
  }

  lemma WrapDifference(a: int, b: int)
    ensures Wrap(a - Wrap(b)) == a - b - (a - b) / WORD * WORD
  {
  }

  /** The absolute differences of the middle product and the sign of their product. */
  method MiddleTerm(u1: UInt, u0: UInt, v1: UInt, v0: UInt) returns (udiff: UInt, vdiff: UInt, neg: bool)
    ensures Signed(udiff as int * vdiff as int, neg) == (u1 as int - u0) * (v0 as int - v1)
    ensures udiff <= u1 || udiff <= u0
    ensures vdiff <= v1 || vdiff <= v0
  {
    if u1 >= u0 {
      udiff, neg := u1 - u0, false;
    } else {
      udiff, neg := u0 - u1, true;
    }
    if v0 >= v1 {
      vdiff := v0 - v1;
    } else {
      vdiff, neg := v1 - v0, !neg;
    }
  }

  /** (high << 2N) + (high << N) +- (mid << N) + (low << N) + low, word by word. */
  method SumProducts(high: UInt, mid: UInt, neg: bool, low: UInt) returns (prodh: UInt, prodl: UInt)
    ensures Holds(prodh, prodl, high * WORD + high * B + Signed(mid, neg) * B + low * B + low)
  {
    ShiftHalf(high);
    ShiftHalf(mid);
    ShiftHalf(low);
    prodh, prodl := Wrap(high + HHalf(high)), LHup(high);
    ghost var x: int := high * WORD + high * B;
    HoldsIntro(prodh, prodl, x, -((high + HHalf(high)) / WORD));
    if neg {
      prodh, prodl := SubWords(prodh, prodl, HHalf(mid), LHup(mid), x);
    } else {
      prodh, prodl := AddWords(prodh, prodl, HHalf(mid), LHup(mid), x);
    }
    prodh, prodl := AddWords(prodh, prodl, HHalf(low), LHup(low), x + Signed(mid, neg) * B);
    prodh, prodl := AddWords(prodh, prodl, 0, low, x + Signed(mid, neg) * B + low * B);
  }

  ghost function Signed(m: int, neg: bool): int { if neg then -m else m }

  /** __lmulq: the exact 64-bit product of two 32-bit words. */
  method LMulQ(u: UInt, v: UInt) returns (r: ULong)
    ensures r == u * v
  {
    hide Times, HHalf, LHalf, Holds;
    var u1, u0, v1, v0 := HHalf(u), LHalf(u), HHalf(v), LHalf(v);
    Halves(u);
    Halves(v);
    DigitProduct(u0, v0);
    var low := Times(u0, v0);
    if u1 == 0 && v1 == 0 {
      return low;
    }
    var udiff, vdiff, neg := MiddleTerm(u1, u0, v1, v0);
    DigitProduct(udiff, vdiff);
    DigitProduct(u1, v1);
    var mid, high := Times(udiff, vdiff), Times(u1, v1);
    var prodh, prodl := SumProducts(high, mid, neg, low);
    HalfProducts(u, v, u1, u0, v1, v0, high, mid, neg, low);
    ExactProduct(prodh, prodl, u, v);
    r := Join(prodh, prodl);
  }

  lemma HalfProducts(u: int, v: int, u1: int, u0: int, v1: int, v0: int, high: int, mid: int, neg: bool, low: int)
    requires u == u1 * B + u0 && v == v1 * B + v0
    requires high == u1 * v1 && Signed(mid, neg) == (u1 - u0) * (v0 - v1) && low == u0 * v0
    ensures u * v == high * WORD + high * B + Signed(mid, neg) * B + low * B + low
  {
    ThreeProducts(B, u1, u0, v1, v0);
  }

  lemma ExactProduct(h: UInt, l: UInt, u: UInt, v: UInt)
    requires Holds(h, l, u * v)
    ensures Join(h, l) == u * v
  {
    var k :| Carry(k) && h * WORD + l == u * v + k * LONG;
    assert 0 <= u * v <= (WORD - 1) * (WORD - 1) by {
      assert u * v <= (WORD - 1) * v;
    }
  }

  /** __muldi3: the low 64 bits of the product, for every pair of signed operands. */
  method MulDi3(a: SLong, b: SLong) returns (r: SLong)
    ensures WrapLong(r) == WrapLong(a * b)
  {
    var u, negall := WrapLong(a), false;
    if a < 0 {
      u, negall := NegLong(u), true;
    }
    var v := WrapLong(b);
    if b < 0 {
      v, negall := NegLong(v), !negall;
    }
    ghost var x := u as int * v as int;
    assert a * b == if negall then -x else x by { SignedProduct(a, b, u, v); }
    var prod := MulWords(u, v);
    if negall {
      prod := NegLong(prod);
    }
    r := AsSigned(prod);
    SameLowBits(prod, x, negall);
  }

  lemma SignedProduct(a: int, b: int, u: int, v: int)
    requires u == (if a < 0 then -a else a) && v == (if b < 0 then -b else b)
    ensures a * b == if (a < 0) == (b < 0) then u * v else -(u * v)
  {
  }

  lemma SameLowBits(prod: ULong, x: int, neg: bool)
    requires prod == if neg then NegLong(WrapLong(x)) else WrapLong(x)
    ensures WrapLong(AsSigned(prod)) == WrapLong(if neg then -x else x)
  {
  }

  /** The product of two non-negative operands, modulo 2^64. */
  method MulWords(u: ULong, v: ULong) returns (prod: ULong)
    ensures prod == WrapLong(u as int * v as int)
  {
    hide Times, High, Low, Wrap;
    var u1, u0, v1, v0 := High(u), Low(u), High(v), Low(v);
    LongHalves(u);
    LongHalves(v);
    if u1 == 0 && v1 == 0 {
      prod := LMulQ(u0, v0);
      assert u as int * v as int == prod;
    } else {
      var low := LMulQ(u0, v0);
      var udiff, vdiff, negmid := MiddleTerm(u1, u0, v1, v0);
      var mid := Times(udiff, vdiff);
      var high := Times(u1, v1);
      TimesWraps(udiff, vdiff);
      TimesWraps(u1, v1);
      var h := Wrap(high + (if negmid then Wrap(WORD - mid) else mid) + Low(low) + High(low));
      prod := Join(h, Low(low));
      ThreeProducts(WORD, u1, u0, v1, v0);
      LowWordOnly(u1 as int * v1 as int, udiff as int * vdiff as int, negmid, low, h, u as int * v as int);
    }
  }

  lemma TimesWraps(x: int, y: int)
    ensures Times(x, y) == Wrap(x * y)
  {
  }

  lemma LowWordOnly(high: int, mid: int, neg: bool, low: ULong, h: UInt, x: int)
    requires var m := Wrap(mid);
             h == Wrap(Wrap(high) + (if neg then Wrap(WORD - m) else m) + Low(low) + High(low))
    requires x == LONG * high + WORD * high + WORD * Signed(mid, neg) + WORD * low + low
    ensures Join(h, Low(low)) == WrapLong(x)
  {
    var m := if neg then -mid else mid;
    var s := high + m + Low(low) + High(low);
    assert h == Wrap(s) by { WrapFour(high, mid, neg, Low(low), High(low)); }
    assert x == LONG * (high + High(low)) + WORD * s + Low(low) by {
      assert low == High(low) * WORD + Low(low);
    }
    assert WORD * s == WORD * Wrap(s) + LONG * (s / WORD);
    ModLong(x, high + High(low) + s / WORD, WORD * h + Low(low));
  }

  lemma ModLong(x: int, k: int, r: int)
    requires x == LONG * k + r && 0 <= r < LONG
    ensures x % LONG == r
  {
  }

  lemma WrapFour(a: int, b: int, neg: bool, c: UInt, d: UInt)
    ensures Wrap(Wrap(a) + (if neg then Wrap(WORD - Wrap(b)) else Wrap(b)) + c + d)
            == Wrap(a + (if neg then -b else b) + c + d)
  {
    var m := if neg then -b else b;
    var wm := if neg then Wrap(WORD - Wrap(b)) else Wrap(b);
    assert wm == Wrap(m);
    assert a == Wrap(a) + WORD * (a / WORD) && m == Wrap(m) + WORD * (m / WORD);
    var s := Wrap(a) + Wrap(m) + c + d;
    assert a + m + c + d == s + WORD * (a / WORD + m / WORD);
  }
}
