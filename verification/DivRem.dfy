/** __qdivrem: Knuth's Algorithm D (The Art of Computer Programming, vol. 2, section
    4.3.1) on base-2^16 digits held in three five-digit arrays, and the signed
    wrappers __divdi3 and __moddi3. */
module DivRem {
  import opened Basics
  import opened Words
  import opened Digits

  // ---------------------------------------------------------------------------
  // D3: the quotient digit estimate
  // ---------------------------------------------------------------------------

  /** A dividend window `hi*p + lo` over a divisor `w*p + e`, where `hi` and `w`
      are the leading three and two digits and `p` is the weight of the rest. */
  ghost predicate Window(u: nat, hi: nat, v: nat, w: nat, p: int)
  {
    && p > 0
    && hi * p <= u < (hi + 1) * p
    && w * p <= v < (w + 1) * p
  }

  /** The decrement test only fires on estimates that are too big. */
  lemma TooBig(u: nat, hi: nat, v: nat, w: nat, p: int, qhat: nat)
    requires Window(u, hi, v, w, p) && qhat * w > hi && v > 0
    ensures u / v < qhat
  {
    MulLe(hi + 1, qhat * w, p);
    MulLe(w * p, v, qhat);
    assert qhat * (w * p) == (qhat * w) * p;
    assert u < qhat * v;
    QuotientBelow(u, v, qhat);
  }

  /** An estimate that passes the test is at most one too big. */
  lemma AtMostOneMore(u: nat, hi: nat, v: nat, w: nat, p: int, qhat: nat)
    requires Window(u, hi, v, w, p) && qhat * w <= hi && qhat < B && w >= B
    ensures qhat <= u / v + 1
  {
    var e := v - w * p;
    assert e < p by { assert (w + 1) * p == w * p + p; }
    assert qhat * v == (qhat * w) * p + qhat * e by {
      assert qhat * (w * p) == (qhat * w) * p;
      assert qhat * (w * p + e) == qhat * (w * p) + qhat * e;
    }
    MulLe(qhat * w, hi, p);
    MulLe(e, p, qhat);
    MulLe(qhat, w, p);
    assert qhat * e <= v;
    assert (qhat - 1) * v == qhat * v - v;
    assert (qhat - 1) * v <= u;
    QuotientAtLeast(u, v, qhat - 1);
  }

  lemma QuotientBelow(u: nat, v: nat, q: int)
    requires v > 0 && u < q * v
    ensures u / v < q
  {
    assert u == v * (u / v) + u % v;
    if u / v >= q {
      MulLe(q, u / v, v);
      assert false;
    }
  }

  lemma QuotientAtLeast(u: nat, v: nat, q: int)
    requires v > 0 && q * v <= u
    ensures q <= u / v
  {
    assert u == v * (u / v) + u % v;
    assert (u / v + 1) * v == v * (u / v) + v;
    if u / v < q {
      MulLe(u / v + 1, q, v);
      assert false;
    }
  }

  /** The first estimate is never too small. */
  lemma FirstEstimate(u: nat, uj0: Digit, uj1: Digit, uj2: Digit, v: nat, v1: Digit, v2: Digit, p: int)
    requires v1 > 0 && uj0 < v1 && v > 0
    requires Window(u, (uj0 * B + uj1) * B + uj2, v, v1 * B + v2, p)
    ensures u / v <= (uj0 * B + uj1) / v1 < B
  {
    var nn := uj0 * B + uj1;
    assert nn < B * v1 by { MulLe(uj0 + 1, v1, B); }
    QuotientBelow(nn, v1, B);
    EstimateCovers(nn, uj2, v1, v2, nn / v1, nn % v1);
    TooBig(u, nn * B + uj2, v, v1 * B + v2, p, nn / v1 + 1);
  }

  lemma EstimateCovers(nn: nat, uj2: Digit, v1: Digit, v2: Digit, q: nat, r: nat)
    requires nn == q * v1 + r && r < v1
    ensures (q + 1) * (v1 * B + v2) > nn * B + uj2
  {
    assert (q + 1) * (v1 * B + v2) == (q * v1) * B + v1 * B + (q + 1) * v2;
    MulLe(0, v2, q + 1);
  }

  /** D3: estimates the next quotient digit from the leading digits alone. The result
      is the true digit or one more, and the 32-bit products and COMBINEs are exact. */
  method EstimateDigit(uj0: Digit, uj1: Digit, uj2: Digit, v1: Digit, v2: Digit,
                       ghost u: nat, ghost v: nat, ghost p: int) returns (qhat: UInt)
    requires v1 > 0 && uj0 <= v1 && v > 0
    requires Window(u, (uj0 * B + uj1) * B + uj2, v, v1 * B + v2, p)
    requires u / v < B
    ensures qhat < B
    ensures u / v <= qhat <= u / v + 1
  {
    var rhat: UInt;
    var tooBig: bool;
    if uj0 == v1 {
      qhat, rhat, tooBig := B, uj1, true;
    } else {
      qhat, rhat := FirstDigit(uj0, uj1, uj2, v1, v2, u, v, p);
      tooBig := TestDigit(uj0, uj1, uj2, v1, v2, qhat, rhat, u, v, p);
    }
    while tooBig
      invariant qhat <= B && (qhat == B ==> tooBig)
      invariant tooBig ==> rhat < B && u / v < qhat
      invariant qhat * v1 + rhat == uj0 * B + uj1
      invariant !tooBig ==> u / v <= qhat <= u / v + 1
      decreases qhat
    {
      EstimateLowered(qhat, rhat, v1);
      qhat := qhat - 1;
      rhat := rhat + v1;
      tooBig := TestDigit(uj0, uj1, uj2, v1, v2, qhat, rhat, u, v, p);
    }
  }

  /** The initial estimate, from the two leading digits over the first. */
  method FirstDigit(uj0: Digit, uj1: Digit, ghost uj2: Digit, v1: Digit, ghost v2: Digit,
                    ghost u: nat, ghost v: nat, ghost p: int) returns (qhat: UInt, rhat: UInt)
    requires v1 > 0 && uj0 < v1 && v > 0
    requires Window(u, (uj0 * B + uj1) * B + uj2, v, v1 * B + v2, p)
    ensures u / v <= qhat < B && rhat < v1
    ensures qhat * v1 + rhat == uj0 * B + uj1
  {
    FirstEstimate(u, uj0, uj1, uj2, v, v1, v2, p);
    hide Window;
    qhat, rhat := WordDivide(Combine(uj0, uj1), v1);
  }

  /** The machine's own unsigned division. */
  method WordDivide(x: UInt, y: UInt) returns (q: UInt, r: UInt)
    requires y > 0
    ensures q == x / y && r < y && q * y + r == x
  {
    assert 0 <= x / y <= x by {
      QuotientAtLeast(x, y, 0);
      MulLe(1, y, x);
      QuotientBelow(x, y, x + 1);
    }
    q, r := x / y, x % y;
  }

  /** The loop test: leave once rhat has reached B, else compare two digits' worth. */
  method TestDigit(ghost uj0: Digit, ghost uj1: Digit, uj2: Digit, ghost v1: Digit, v2: Digit,
                   qhat: UInt, rhat: UInt, ghost u: nat, ghost v: nat, ghost p: int) returns (tooBig: bool)
    requires v1 > 0 && v > 0 && u / v <= qhat < B
    requires Window(u, (uj0 * B + uj1) * B + uj2, v, v1 * B + v2, p)
    requires qhat * v1 + rhat == uj0 * B + uj1
    ensures tooBig ==> rhat < B && u / v < qhat
    ensures !tooBig ==> qhat <= u / v + 1
  {
    if rhat >= B {
      tooBig := false;
    } else {
      tooBig := Wrap(v2 * qhat) > Combine(rhat, uj2);
    }
    EstimateTested(u, uj0, uj1, uj2, v, v1, v2, p, qhat, rhat, tooBig);
  }

  lemma EstimateLowered(qhat: int, rhat: int, v1: int)
    ensures (qhat - 1) * v1 + (rhat + v1) == qhat * v1 + rhat
  {
  }

  lemma EstimateTested(u: nat, uj0: Digit, uj1: Digit, uj2: Digit, v: nat, v1: Digit, v2: Digit, p: int,
                       qhat: nat, rhat: UInt, tooBig: bool)
    requires v1 > 0 && v > 0 && qhat < B && u / v <= qhat
    requires Window(u, (uj0 * B + uj1) * B + uj2, v, v1 * B + v2, p)
    requires qhat * v1 + rhat == uj0 * B + uj1
    requires tooBig == (rhat < B && Wrap(v2 * qhat) > Combine(rhat, uj2))
    ensures tooBig ==> u / v < qhat
    ensures !tooBig ==> qhat <= u / v + 1
  {
    var hi, w := (uj0 * B + uj1) * B + uj2, v1 * B + v2;
    if rhat < B {
      TestMeaning(uj0, uj1, uj2, v1, v2, qhat, rhat);
    } else {
      TestExact(uj0, uj1, uj2, v1, v2, qhat, rhat);
      MulLe(v2, B, qhat);
    }
    if tooBig {
      TooBig(u, hi, v, w, p, qhat);
    } else {
      AtMostOneMore(u, hi, v, w, p, qhat);
    }
  }

  lemma TestExact(uj0: Digit, uj1: Digit, uj2: Digit, v1: Digit, v2: Digit, qhat: nat, rhat: nat)
    requires qhat * v1 + rhat == uj0 * B + uj1
    ensures v2 * qhat - (rhat * B + uj2) == qhat * (v1 * B + v2) - ((uj0 * B + uj1) * B + uj2)
  {
    assert qhat * (v1 * B + v2) == (qhat * v1) * B + v2 * qhat;
  }

  lemma TestMeaning(uj0: Digit, uj1: Digit, uj2: Digit, v1: Digit, v2: Digit, qhat: nat, rhat: nat)
    requires qhat * v1 + rhat == uj0 * B + uj1 && qhat < B && rhat < B
    ensures Wrap(v2 * qhat) == v2 * qhat
    ensures Wrap(v2 * qhat) > Combine(rhat, uj2) <==>
            qhat * (v1 * B + v2) > (uj0 * B + uj1) * B + uj2
  {
    MulLe(v2, B - 1, qhat);
    MulLe(qhat, B - 1, B - 1);
    TestExact(uj0, uj1, uj2, v1, v2, qhat, rhat);
  }

  // ---------------------------------------------------------------------------
  // D4: multiply and subtract, D6: add back
  // ---------------------------------------------------------------------------

  /** A digit of u - q*v with the borrow `b` coming in from the right and `c` going out. */
  ghost predicate DigitStep(u': int, u: int, v: int, q: int, b: int, c: int)
  {
    u' - B * c == u - v * q - b
  }

  /** One digit of D4: the 32-bit wrap-around keeps both the digit and the borrow. */
  lemma BorrowDigit(u: Digit, v: Digit, qhat: nat, t: Digit)
    requires qhat < B
    ensures var w := Wrap(u - v * qhat - t);
            var b := (B - HHalf(w)) % B;
            0 <= b < B && DigitStep(LHalf(w), u, v, qhat, t, b)
  {
    MulLe(v, B - 1, qhat);
    MulLe(qhat, B - 1, B - 1);
    MulLe(0, v, qhat);
    BorrowLinear(u, v * qhat, t);
  }

  lemma BorrowLinear(u: Digit, y: nat, t: Digit)
    requires y <= (B - 1) * (B - 1)
    ensures var w := Wrap(u - y - t);
            var b := (B - HHalf(w)) % B;
            0 <= b < B && LHalf(w) - B * b == u - y - t
  {
  }

  /** One digit of D6. */
  lemma CarryDigit(u: Digit, v: Digit, t: nat)
    requires t <= 1
    ensures var w := Wrap(t + u + v);
            HHalf(w) <= 1 && DigitStep(LHalf(w), u, v, -1, 0 - t, 0 - HHalf(w))
  {
  }

  /** Digit-wise subtraction with borrows adds up to subtraction of the values. */
  lemma {:induction false} BorrowChain(s': seq<Digit>, s: seq<Digit>, v: seq<Digit>, q: int, bs: seq<int>)
    requires |s'| == |s| == |v| && |bs| == |s| + 1 && bs[|s|] == 0
    requires forall k :: 0 <= k < |s| ==> DigitStep(s'[k], s[k], v[k], q, bs[k + 1], bs[k])
    ensures Val(s') - bs[0] * PowB(|s|) == Val(s) - q * Val(v)
    decreases |s|
  {
    if |s| > 0 {
      BorrowChain(s'[1..], s[1..], v[1..], q, bs[1..]);
      ValCons(s');
      ValCons(s);
      ValCons(v);
      BorrowStep(s'[0], s[0], v[0], q, bs[1], bs[0], PowB(|s| - 1), Val(s'[1..]), Val(s[1..]), Val(v[1..]));
    }
  }

  lemma BorrowStep(u': int, u: int, v: int, q: int, b: int, t: int, p: int, low: int, low0: int, lowv: int)
    requires u' - B * t == u - v * q - b && low - b * p == low0 - q * lowv
    ensures u' * p + low - t * (B * p) == u * p + low0 - q * (v * p + lowv)
  {
    assert (u' - B * t) * p == u' * p - t * (B * p);
    assert (u - v * q - b) * p == u * p - q * (v * p) - b * p;
  }

  /** u[i+j] -= v[i]*qhat for i = n..1; returns the borrow out of the top. */
  method MulSub(u: array<Digit>, uo: nat, v: array<Digit>, vo: nat, n: nat, qhat: UInt) returns (t: UInt)
    requires u != v && uo + n < u.Length && vo + n < v.Length && qhat < B
    modifies u
    ensures t < B
    ensures Val(u[uo + 1..uo + n + 1]) - t * PowB(n)
            == old(Val(u[uo + 1..uo + n + 1])) - qhat * Val(v[vo + 1..vo + n + 1])
    ensures forall k :: 0 <= k < u.Length && !(uo < k <= uo + n) ==> u[k] == old(u[k])
  {
    hide Val, PowB, DigitStep, Wrap, LHalf, HHalf;
    t := 0;
    var i := n;
    ghost var bs: seq<int> := seq(n + 1, _ => 0);
    while i > 0
      invariant 0 <= i <= n && t < B && |bs| == n + 1 && bs[n] == 0 && bs[i] == t
      invariant forall k :: 0 <= k < u.Length && !(uo + i < k <= uo + n) ==> u[k] == old(u[k])
      invariant forall k :: i <= k < n ==>
                  DigitStep(u[uo + 1 + k], old(u[uo + 1 + k]), v[vo + 1 + k], qhat, bs[k + 1], bs[k])
    {
      BorrowDigit(u[uo + i], v[vo + i], qhat, t);
      t := Wrap(u[uo + i] - v[vo + i] * qhat - t);
      u[uo + i] := LHalf(t);
      t := (B - HHalf(t)) % B;
      i := i - 1;
      bs := bs[i := t];
    }
    BorrowChain(u[uo + 1..uo + n + 1], old(u[uo + 1..uo + n + 1]), v[vo + 1..vo + n + 1], qhat, bs);
  }

  /** u[i+j] += v[i] for i = n..1; returns the carry out of the top. */
  method AddBack(u: array<Digit>, uo: nat, v: array<Digit>, vo: nat, n: nat) returns (t: UInt)
    requires u != v && uo + n < u.Length && vo + n < v.Length
    modifies u
    ensures t <= 1
    ensures Val(u[uo + 1..uo + n + 1]) + t * PowB(n)
            == old(Val(u[uo + 1..uo + n + 1])) + Val(v[vo + 1..vo + n + 1])
    ensures forall k :: 0 <= k < u.Length && !(uo < k <= uo + n) ==> u[k] == old(u[k])
  {
    hide Val, PowB, DigitStep, Wrap, LHalf, HHalf;
    t := 0;
    var i := n;
    ghost var bs: seq<int> := seq(n + 1, _ => 0);
    while i > 0
      invariant 0 <= i <= n && t <= 1 && |bs| == n + 1 && bs[n] == 0 && bs[i] == 0 - t
      invariant forall k :: 0 <= k < u.Length && !(uo + i < k <= uo + n) ==> u[k] == old(u[k])
      invariant forall k :: i <= k < n ==>
                  DigitStep(u[uo + 1 + k], old(u[uo + 1 + k]), v[vo + 1 + k], -1, bs[k + 1], bs[k])
    {
      CarryDigit(u[uo + i], v[vo + i], t);
      t := Wrap(t + u[uo + i] + v[vo + i]);
      u[uo + i] := LHalf(t);
      t := HHalf(t);
      i := i - 1;
      bs := bs[i := 0 - t];
    }
    BorrowChain(u[uo + 1..uo + n + 1], old(u[uo + 1..uo + n + 1]), v[vo + 1..vo + n + 1], -1, bs);
  }

  // ---------------------------------------------------------------------------
  // One iteration of Program D
  // ---------------------------------------------------------------------------

  /** D4: the whole subtraction, including the top digit. There is a borrow exactly
      when the product exceeds the window. */
  method SubtractProduct(u: array<Digit>, uo: nat, v: array<Digit>, vo: nat, n: nat, qhat: UInt)
    returns (borrowed: bool)
    requires u != v && uo + n < u.Length && vo + n < v.Length && qhat < B
    modifies u
    ensures Val(u[uo..uo + n + 1]) - (if borrowed then PowB(n + 1) else 0)
            == old(Val(u[uo..uo + n + 1])) - qhat * Val(v[vo + 1..vo + n + 1])
    ensures forall k :: 0 <= k < u.Length && !(uo <= k <= uo + n) ==> u[k] == old(u[k])
  {
    var t := MulSub(u, uo, v, vo, n, qhat);
    ghost var mid, b := u[uo..uo + n + 1], t;
    assert mid[1..] == u[uo + 1..uo + n + 1];
    t := Wrap(u[uo] - t);
    u[uo] := LHalf(t);
    borrowed := HHalf(t) != 0;
    assert u[uo..uo + n + 1] == mid[0 := u[uo]];
    assert old(u[uo..uo + n + 1]) == [mid[0]] + old(u[uo + 1..uo + n + 1]);
    TopDigit(old(u[uo..uo + n + 1]), mid, u[uo], b, if borrowed then 1 else 0);
  }

  /** Folding a borrow (or, negated, a carry) into the top digit. */
  lemma {:induction false} TopDigit(s: seq<Digit>, mid: seq<Digit>, top: Digit, b: int, out: int)
    requires |s| == |mid| > 0 && s[0] == mid[0] && top - B * out == mid[0] - b
    ensures Val(mid[0 := top]) - out * PowB(|s|) - Val(s) == Val(mid[1..]) - b * PowB(|s| - 1) - Val(s[1..])
  {
    var p, q, late := PowB(|s| - 1), PowB(|s|), mid[0 := top];
    ValCons(s);
    ValCons(late);
    assert q == B * p;
    TopTerms(top, out, mid[0], b, p, q);
    hide Val, PowB;
    assert late[1..] == mid[1..];
    assert Val(late) == top * p + Val(mid[1..]) && Val(s) == mid[0] * p + Val(s[1..]);
  }

  lemma TopTerms(top: int, out: int, m: int, b: int, p: int, q: int)
    requires top - B * out == m - b && q == B * p
    ensures top * p - out * q == m * p - b * p
  {
    calc {
      top * p - out * q;
      top * p - (B * out) * p;
      (top - B * out) * p;
      (m - b) * p;
      m * p - b * p;
    }
  }

  /** D6: adds the divisor back; the carry out of the top cancels the borrow. */
  method RestoreDivisor(u: array<Digit>, uo: nat, v: array<Digit>, vo: nat, n: nat) returns (ghost c: nat)
    requires u != v && uo + n < u.Length && vo + n < v.Length
    modifies u
    ensures c <= 1
    ensures Val(u[uo..uo + n + 1]) + c * PowB(n + 1) == old(Val(u[uo..uo + n + 1])) + Val(v[vo + 1..vo + n + 1])
    ensures forall k :: 0 <= k < u.Length && !(uo <= k <= uo + n) ==> u[k] == old(u[k])
  {
    var t := AddBack(u, uo, v, vo, n);
    ghost var mid := u[uo..uo + n + 1];
    assert mid[1..] == u[uo + 1..uo + n + 1];
    c := (u[uo] + t) / B;
    u[uo] := LHalf(Wrap(u[uo] + t));
    assert u[uo..uo + n + 1] == mid[0 := u[uo]];
    assert old(u[uo..uo + n + 1]) == [mid[0]] + old(u[uo + 1..uo + n + 1]);
    TopCarry(old(u[uo..uo + n + 1]), mid, u[uo], t, c);
  }

  lemma {:induction false} TopCarry(s: seq<Digit>, mid: seq<Digit>, top: Digit, t: int, c: int)
    requires |s| == |mid| > 0 && s[0] == mid[0] && top + B * c == mid[0] + t
    ensures Val(mid[0 := top]) + c * PowB(|s|) - Val(s) == Val(mid[1..]) + t * PowB(|s| - 1) - Val(s[1..])
  {
    hide Val, PowB;
    TopDigit(s, mid, top, -t, -c);
    assert (-c) * PowB(|s|) == -(c * PowB(|s|)) && (-t) * PowB(|s| - 1) == -(t * PowB(|s| - 1));
  }

  /** D3 to D6. From a window whose top n digits are below the divisor, returns the true
      quotient digit and leaves the remainder in place, with a zero top digit. */
  method DivideStep(u: array<Digit>, uo: nat, v: array<Digit>, vo: nat, n: nat) returns (q: Digit)
    requires u != v && n >= 2 && uo + n < u.Length && vo + n < v.Length
    requires v[vo + 1] > 0
    requires Val(u[uo..uo + n]) < Val(v[vo + 1..vo + n + 1])
    modifies u
    ensures old(Val(u[uo..uo + n + 1])) == q * Val(v[vo + 1..vo + n + 1]) + Val(u[uo..uo + n + 1])
    ensures Val(u[uo..uo + n + 1]) < Val(v[vo + 1..vo + n + 1])
    ensures u[uo] == 0
    ensures forall k :: 0 <= k < u.Length && !(uo <= k <= uo + n) ==> u[k] == old(u[k])
  {
    hide Val, PowB;
    ghost var us, vs := u[uo..uo + n + 1], v[vo + 1..vo + n + 1];
    ghost var U, V := Val(us), Val(vs);
    assert us[..n] == u[uo..uo + n];
    WindowOf(us, vs);
    var qhat := EstimateDigit(u[uo], u[uo + 1], u[uo + 2], v[vo + 1], v[vo + 2], U, V, PowB(n - 2));
    var borrowed := SubtractProduct(u, uo, v, vo, n, qhat);
    ghost var ds, c := u[uo..uo + n + 1], 0;
    assert v[vo + 1..vo + n + 1] == vs;
    if borrowed {
      c := RestoreDivisor(u, uo, v, vo, n);
    }
    DigitFound(us, vs, qhat, ds, borrowed, c, u[uo..uo + n + 1]);
    q := if borrowed then qhat - 1 else qhat;
  }

  /** D5 decides rightly: after at most one correction the window holds the remainder. */
  lemma {:induction false} DigitFound(us: seq<Digit>, vs: seq<Digit>, qhat: nat, ds: seq<Digit>, borrowed: bool,
                                      c: nat, rs: seq<Digit>)
    requires |us| == |vs| + 1 == |ds| == |rs| && Val(vs) > 0 && c <= 1
    requires Val(us) / Val(vs) <= qhat <= Val(us) / Val(vs) + 1
    requires Val(ds) - (if borrowed then PowB(|us|) else 0) == Val(us) - qhat * Val(vs)
    requires if borrowed then Val(rs) + c * PowB(|us|) == Val(ds) + Val(vs) else rs == ds
    ensures borrowed <==> qhat == Val(us) / Val(vs) + 1
    ensures Val(us) == (if borrowed then qhat - 1 else qhat) * Val(vs) + Val(rs)
    ensures Val(rs) < Val(vs) && rs[0] == 0
  {
    ValBound(ds);
    ValBound(rs);
    ValBound(vs);
    BorrowMeansOneMore(Val(us), Val(vs), qhat, PowB(|us|), Val(ds), borrowed);
    assert (qhat - 1) * Val(vs) == qhat * Val(vs) - Val(vs);
    SmallHasZeroTop(rs);
  }

  lemma {:induction false} WindowOf(us: seq<Digit>, vs: seq<Digit>)
    requires |us| == |vs| + 1 && |vs| >= 2 && vs[0] > 0
    requires Val(us[..|vs|]) < Val(vs)
    ensures Val(vs) > 0 && Val(us) / Val(vs) < B && us[0] <= vs[0]
    ensures Window(Val(us), (us[0] * B + us[1]) * B + us[2], Val(vs), vs[0] * B + vs[1], PowB(|vs| - 2))
  {
    var n := |vs|;
    Leading(us, 3);
    Leading(vs, 2);
    ThreeDigits(us[..3]);
    TwoDigits(vs[..2]);
    hide Val;
    assert vs[..2][0] == vs[0] && vs[..2][1] == vs[1];
    MulLe(1, Val(vs[..2]), PowB(n - 2));
    LastDigit(us);
    MulLe(Val(us[..n]) + 1, Val(vs), B);
    QuotientBelow(Val(us), Val(vs), B);
    if us[0] > vs[0] {
      TopDecides(vs, us[..n]);
      assert false;
    }
  }

  lemma {:induction false} LastDigit(s: seq<Digit>)
    requires |s| > 0
    ensures Val(s) == Val(s[..|s| - 1]) * B + s[|s| - 1]
  {
  }

  lemma {:induction false} TwoDigits(s: seq<Digit>)
    requires |s| == 2
    ensures Val(s) == s[0] * B + s[1]
  {
    OneDigit(s[..1]);
  }

  lemma {:induction false} ThreeDigits(s: seq<Digit>)
    requires |s| == 3
    ensures Val(s) == (s[0] * B + s[1]) * B + s[2]
  {
    TwoDigits(s[..2]);
  }

  lemma {:induction false} Leading(s: seq<Digit>, k: nat)
    requires k <= |s|
    ensures Val(s[..k]) * PowB(|s| - k) <= Val(s) < (Val(s[..k]) + 1) * PowB(|s| - k)
  {
    ValSplit(s, k);
    ValBound(s[k..]);
    assert (Val(s[..k]) + 1) * PowB(|s| - k) == Val(s[..k]) * PowB(|s| - k) + PowB(|s| - k);
  }

  /** D5: the borrow is set exactly when the estimate was one more than the digit. */
  lemma BorrowMeansOneMore(u: nat, v: nat, qhat: nat, top: int, left: nat, borrowed: bool)
    requires v > 0 && u / v <= qhat <= u / v + 1 && left < top
    requires left - (if borrowed then top else 0) == u - qhat * v
    ensures borrowed <==> qhat == u / v + 1
    ensures borrowed ==> 0 <= left - top + v < v
    ensures !borrowed ==> left < v
  {
    assert u == v * (u / v) + u % v;
    assert qhat * v == v * (u / v) + (qhat - u / v) * v;
  }

  // ---------------------------------------------------------------------------
  // Program D
  // ---------------------------------------------------------------------------

  /** The loop's state after `j` digits: the quotient so far accounts for all of the
      dividend `U` but what the remaining digits hold, and the next window is in range. */
  ghost predicate Reduced(us: seq<Digit>, uo: nat, qs: seq<Digit>, qo: nat, vs: seq<Digit>, m: nat, j: nat, U: nat)
  {
    && uo + m + |vs| < |us| && qo + m < |qs| && j <= m + 1
    && Val(us[uo + j..uo + j + |vs|]) < Val(vs)
    && U == (Val(qs[qo..qo + j]) * PowB(m + 1 - j)) * Val(vs) + Val(us[uo + j..uo + m + |vs| + 1])
    && forall k :: uo <= k < uo + j ==> us[k] == 0
  }

  /** One pass of the loop: D3 to D6 at offset `j`, then q[j]. */
  method LoopBody(u: array<Digit>, uo: nat, v: array<Digit>, vo: nat, q: array<Digit>, qo: nat, m: nat, n: nat,
                  j: nat, ghost U: nat)
    requires u != v && v != q && u != q
    requires n >= 2 && vo + n < v.Length && j <= m && v[vo + 1] > 0
    requires Reduced(u[..], uo, q[..], qo, v[vo + 1..vo + n + 1], m, j, U)
    modifies u, q
    ensures Reduced(u[..], uo, q[..], qo, v[vo + 1..vo + n + 1], m, j + 1, U)
    ensures forall k :: 0 <= k < u.Length && !(uo <= k <= uo + m + n) ==> u[k] == old(u[k])
    ensures q[..] == old(q[..])[qo + j := q[qo + j]]
  {
    hide Val, PowB;
    ghost var us, qs, vs := u[..], q[..], v[vo + 1..vo + n + 1];
    assert us[uo + j..uo + j + n] == u[uo + j..uo + j + n];
    assert us[uo + j..uo + m + n + 1] == u[uo + j..uo + m + n + 1];
    var d := ReduceWindow(u, uo + j, v, vo, n, m - j);
    ghost var us' := u[..];
    assert us'[uo + j + 1..uo + j + 1 + n] == u[uo + j + 1..uo + j + 1 + n];
    assert us'[uo + j + 1..uo + m + n + 1] == u[uo + j + 1..uo + m + n + 1];
    QuotientGrows(U, Val(vs), qs[qo..qo + j], d, m - j, Val(us'[uo + j + 1..uo + m + n + 1]));
    assert qs[qo + j := d][qo..qo + j + 1] == qs[qo..qo + j] + [d];
    assert Reduced(us', uo, qs[qo + j := d], qo, vs, m, j + 1, U);
    q[qo + j] := d;
    assert u[..] == us' && q[..] == qs[qo + j := d] && v[vo + 1..vo + n + 1] == vs;
  }

  /** D2 to D7: digit by digit, from a normalised dividend and divisor. */
  method LongDivide(u: array<Digit>, uo: nat, v: array<Digit>, vo: nat, q: array<Digit>, qo: nat, m: nat, n: nat)
    requires u != v && v != q && u != q
    requires n >= 2 && uo + m + n < u.Length && vo + n < v.Length && qo + m < q.Length
    requires u[uo] < v[vo + 1]
    modifies u, q
    ensures old(Val(u[uo..uo + m + n + 1]))
            == Val(q[qo..qo + m + 1]) * Val(v[vo + 1..vo + n + 1]) + Val(u[uo + m + 1..uo + m + n + 1])
    ensures Val(u[uo + m + 1..uo + m + n + 1]) < Val(v[vo + 1..vo + n + 1])
    ensures forall k :: uo <= k <= uo + m ==> u[k] == 0
    ensures forall k :: 0 <= k < u.Length && !(uo <= k <= uo + m + n) ==> u[k] == old(u[k])
    ensures forall k :: 0 <= k < q.Length && !(qo <= k <= qo + m) ==> q[k] == old(q[k])
  {
    hide Val;
    ghost var vs := v[vo + 1..vo + n + 1];
    ghost var U := Val(u[uo..uo + m + n + 1]);
    TopDecides(u[uo..uo + n], vs);
    ReducedAtStart(u[..], uo, q[..], qo, vs, m);
    assert u[..][uo..uo + m + n + 1] == u[uo..uo + m + n + 1] && u[..][uo..uo + n] == u[uo..uo + n];
    var j := 0;
    while j <= m
      invariant 0 <= j <= m + 1
      invariant v[vo + 1..vo + n + 1] == vs
      invariant Reduced(u[..], uo, q[..], qo, vs, m, j, U)
      invariant forall k :: 0 <= k < u.Length && !(uo <= k <= uo + m + n) ==> u[k] == old(u[k])
      invariant forall k :: 0 <= k < q.Length && !(qo <= k <= qo + m) ==> q[k] == old(q[k])
    {
      LoopBody(u, uo, v, vo, q, qo, m, n, j, U);
      j := j + 1;
    }
    assert q[..][qo..qo + m + 1] == q[qo..qo + m + 1];
    assert u[..][uo + m + 1..uo + m + n + 1] == u[uo + m + 1..uo + m + n + 1];
  }

  lemma {:induction false} ReducedAtStart(us: seq<Digit>, uo: nat, qs: seq<Digit>, qo: nat, vs: seq<Digit>, m: nat)
    requires uo + m + |vs| < |us| && qo + m < |qs| && Val(us[uo..uo + |vs|]) < Val(vs)
    ensures Reduced(us, uo, qs, qo, vs, m, 0, Val(us[uo..uo + m + |vs| + 1]))
  {
  }

  lemma {:induction false} QuotientGrows(U: nat, V: nat, qs: seq<Digit>, d: Digit, rest: nat, w: nat)
    requires U == (Val(qs) * PowB(rest + 1)) * V + (d * V) * PowB(rest) + w
    ensures U == (Val(qs + [d]) * PowB(rest)) * V + w
  {
    assert (qs + [d])[..|qs|] == qs;
    DigitAlgebra(Val(qs), d, PowB(rest), V);
  }

  /** One iteration seen on all the remaining digits, `rest` of them below the window. */
  method ReduceWindow(u: array<Digit>, uo: nat, v: array<Digit>, vo: nat, n: nat, ghost rest: nat) returns (d: Digit)
    requires u != v && n >= 2 && uo + n + rest < u.Length && vo + n < v.Length
    requires v[vo + 1] > 0
    requires Val(u[uo..uo + n]) < Val(v[vo + 1..vo + n + 1])
    modifies u
    ensures old(Val(u[uo..uo + n + rest + 1]))
            == (d * Val(v[vo + 1..vo + n + 1])) * PowB(rest) + Val(u[uo + 1..uo + n + rest + 1])
    ensures Val(u[uo + 1..uo + 1 + n]) < Val(v[vo + 1..vo + n + 1])
    ensures u[uo] == 0
    ensures forall k :: 0 <= k < u.Length && !(uo <= k <= uo + n) ==> u[k] == old(u[k])
  {
    ghost var w := u[uo..uo + n + rest + 1];
    assert w[..n + 1] == u[uo..uo + n + 1];
    d := DivideStep(u, uo, v, vo, n);
    ghost var w' := u[uo..uo + n + rest + 1];
    assert w'[..n + 1] == u[uo..uo + n + 1] && w'[n + 1..] == w[n + 1..];
    NextDigit(d, Val(v[vo + 1..vo + n + 1]), rest, w, w', n);
    assert w'[1..] == u[uo + 1..uo + n + rest + 1] && w'[1..n + 1] == u[uo + 1..uo + 1 + n];
  }

  lemma {:induction false} TopDecides(us: seq<Digit>, vs: seq<Digit>)
    requires |us| == |vs| > 0 && us[0] < vs[0]
    ensures Val(us) < Val(vs)
  {
    Leading(us, 1);
    Leading(vs, 1);
    OneDigit(us[..1]);
    OneDigit(vs[..1]);
    MulLe(us[0] + 1, vs[0], PowB(|us| - 1));
  }

  lemma {:induction false} NextDigit(d: Digit, V: nat, rest: nat, w: seq<Digit>, w': seq<Digit>, n: nat)
    requires |w| == |w'| == rest + n + 1
    requires Val(w[..n + 1]) == d * V + Val(w'[..n + 1]) && w'[n + 1..] == w[n + 1..]
    requires Val(w'[..n + 1]) < V && w'[0] == 0
    ensures Val(w) == (d * V) * PowB(rest) + Val(w'[1..])
    ensures Val(w'[1..n + 1]) < V
  {
    ValSplit(w, n + 1);
    ValSplit(w', n + 1);
    Distribute(d * V, Val(w'[..n + 1]), PowB(rest));
    LeadingZeros(w', 1);
    LeadingZeros(w'[..n + 1], 1);
    assert w'[..n + 1][1..] == w'[1..n + 1];
  }

  lemma Distribute(a: int, b: int, c: int)
    ensures (a + b) * c == a * c + b * c
  {
  }

  lemma DigitAlgebra(a: int, d: int, p: int, v: int)
    ensures (a * (B * p)) * v + (d * v) * p == ((a * B + d) * p) * v
  {
    assert (d * v) * p == (d * p) * v;
    assert (a * (B * p)) == (a * B) * p;
    Distribute(a * B, d, p);
    Distribute((a * B) * p, d * p, v);
  }

  /** A digit of `shl`: its low bits moved up, with the top bits of the next one or-ed in. */
  function UpDigit(x: Digit, y: Digit, sh: nat): (r: Digit)
    requires 0 < sh < 16
    ensures r == (x * Pow2(sh)) % B + y / Pow2(16 - sh)
  {
    HalfPowers(sh);
    OrUp(x, y, Pow2(sh), Pow2(16 - sh), sh);
    BitOr(LHalf(Wrap(x * Pow2(sh))), y / Pow2(16 - sh))
  }

  /** A digit of the un-normalising shift. */
  function DownDigit(x: Digit, y: Digit, sh: nat): (r: Digit)
    requires 0 < sh < 16
    ensures r == y / Pow2(sh) + (x * Pow2(16 - sh)) % B
  {
    HalfPowers(sh);
    OrUp(x, y, Pow2(16 - sh), Pow2(sh), 16 - sh);
    BitOrCommutes(y / Pow2(sh), LHalf(Wrap(x * Pow2(16 - sh))));
    BitOr(y / Pow2(sh), LHalf(Wrap(x * Pow2(16 - sh))))
  }

  lemma OrUp(x: Digit, y: Digit, p: int, q: int, sh: nat)
    requires p > 0 && q > 0 && p * q == B && p == Pow2(sh)
    ensures x * p >= 0 && (x * p) % WORD % B == (x * p) % B
    ensures y / q >= 0
    ensures BitOr((x * p) % B, y / q) == (x * p) % B + y / q < B
  {
    MulLe(0, x, p);
    ModOfMod(x * p);
    ShiftDigit(x, p, q);
    QuotientBelow(y, q, p);
    BitOrVacant(x % q, sh, y / q);
  }

  lemma ModOfMod(z: int)
    ensures z % WORD % B == z % B
  {
    var c, r := z / WORD, z % WORD;
    assert z == (c * B + r / B) * B + r % B;
    ModUnique(z, B, c * B + r / B, r % B);
  }

  /** Shift p[off..off+len] left `sh` bits. */
  method Shl(p: array<Digit>, off: nat, len: nat, sh: nat)
    requires off + len < p.Length && 0 < sh < 16
    modifies p
    ensures ShiftedUp(old(p[off..off + len + 1]), p[off..off + len + 1], Pow2(sh), Pow2(16 - sh))
    ensures forall k :: 0 <= k < p.Length && !(off <= k <= off + len) ==> p[k] == old(p[k])
  {
    hide UpDigit, Pow2, ShiftedUp;
    var i := 0;
    while i < len
      invariant 0 <= i <= len
      invariant forall k :: 0 <= k < p.Length && !(off <= k < off + i) ==> p[k] == old(p[k])
      invariant forall k :: off <= k < off + i ==> p[k] == UpDigit(old(p[k]), old(p[k + 1]), sh)
    {
      p[off + i] := UpDigit(p[off + i], p[off + i + 1], sh);
      i := i + 1;
    }
    p[off + i] := UpDigit(p[off + i], 0, sh);
    ShlMeaning(old(p[off..off + len + 1]), p[off..off + len + 1], sh);
  }

  lemma ShlMeaning(s: seq<Digit>, t: seq<Digit>, sh: nat)
    requires 0 < sh < 16 && |s| == |t| > 0
    requires forall k :: 0 <= k < |s| - 1 ==> t[k] == UpDigit(s[k], s[k + 1], sh)
    requires t[|s| - 1] == UpDigit(s[|s| - 1], 0, sh)
    ensures ShiftedUp(s, t, Pow2(sh), Pow2(16 - sh))
  {
    ModUnique(0, Pow2(16 - sh), 0, 0);
  }

  /** Shift u[off..off+n] right `d` bits into u[off+1..off+n]. */
  method Unnormalise(u: array<Digit>, off: nat, n: nat, d: nat)
    requires off + n < u.Length && 0 < d < 16
    modifies u
    ensures ShiftedDown(old(u[off..off + n + 1]), u[off + 1..off + n + 1], Pow2(d), Pow2(16 - d))
    ensures u[off] == 0
    ensures forall k :: 0 <= k < u.Length && !(off <= k <= off + n) ==> u[k] == old(u[k])
  {
    hide DownDigit, Pow2, ShiftedDown;
    var i := n;
    while i > 0
      invariant 0 <= i <= n
      invariant forall k :: 0 <= k < u.Length && !(off + i < k <= off + n) ==> u[k] == old(u[k])
      invariant forall k :: off + i < k <= off + n ==> u[k] == DownDigit(old(u[k - 1]), old(u[k]), d)
    {
      u[off + i] := DownDigit(u[off + i - 1], u[off + i], d);
      i := i - 1;
    }
    u[off] := 0;
    ShrMeaning(old(u[off..off + n + 1]), u[off + 1..off + n + 1], d);
  }

  lemma ShrMeaning(s: seq<Digit>, t: seq<Digit>, d: nat)
    requires 0 < d < 16 && |s| == |t| + 1
    requires forall k :: 0 <= k < |t| ==> t[k] == DownDigit(s[k], s[k + 1], d)
    ensures ShiftedDown(s, t, Pow2(d), Pow2(16 - d))
  {
  }

  /** D1: scale both operands by the power of two that brings v[1] up to B/2. */
  method Normalise(u: array<Digit>, uo: nat, len: nat, v: array<Digit>, vo: nat, n: nat) returns (d: nat)
    requires u != v && 0 < len && uo + len < u.Length && 1 < n && vo + n < v.Length
    requires u[uo] == 0 && v[vo + 1] > 0
    modifies u, v
    ensures d < 16
    ensures Val(u[uo..uo + len + 1]) == old(Val(u[uo..uo + len + 1])) * Pow2(d)
    ensures Val(v[vo + 1..vo + n + 1]) == old(Val(v[vo + 1..vo + n + 1])) * Pow2(d)
    ensures u[uo] < v[vo + 1] && v[vo + 1] >= B / 2
    ensures forall k :: 0 <= k < u.Length && !(uo <= k <= uo + len) ==> u[k] == old(u[k])
  {
    d := ShiftCount(v[vo + 1]);
    if d > 0 {
      ghost var us, vs := u[uo..uo + len + 1], v[vo + 1..vo + n + 1];
      Shl(u, uo, len, d);
      Shl(v, vo + 1, n - 1, d);
      ScaleUp(us, u[uo..uo + len + 1], vs, v[vo + 1..vo + n + 1], d);
    }
  }

  method ShiftCount(v1: Digit) returns (d: nat)
    requires v1 > 0
    ensures d < 16 && B / 2 <= v1 * Pow2(d) < B
  {
    d := 0;
    var t: UInt := v1;
    while t < B / 2
      invariant t == v1 * Pow2(d) < B
      invariant d < 16
      decreases B - t
    {
      Doubled(v1, d);
      t := Wrap(t * 2);
      d := d + 1;
    }
  }

  lemma Doubled(v1: Digit, d: nat)
    requires 0 < v1 && d < 16 && v1 * Pow2(d) < B / 2
    ensures d < 15 && v1 * Pow2(d + 1) == v1 * Pow2(d) * 2 && 0 < v1 * Pow2(d)
  {
    MulLe(1, v1, Pow2(d));
    TopPower();
    TwiceShifted(v1, d);
  }

  lemma TopPower()
    ensures Pow2(15) == B / 2
  {
    Pow2Add(8, 7);
    Pow2Add(4, 4);
    Pow2Add(4, 3);
    assert Pow2(4) == 16 && Pow2(3) == 8;
  }

  lemma TwiceShifted(v1: int, d: nat)
    ensures v1 * Pow2(d + 1) == v1 * Pow2(d) * 2
  {
    var p := Pow2(d);
    assert Pow2(d + 1) == 2 * p;
    assert v1 * (2 * p) == v1 * p * 2;
  }

  lemma {:induction false} ScaleUp(us: seq<Digit>, us': seq<Digit>, vs: seq<Digit>, vs': seq<Digit>, d: nat)
    requires 0 < d < 16 && |us| > 1 && |vs| > 1
    requires ShiftedUp(us, us', Pow2(d), Pow2(16 - d)) && ShiftedUp(vs, vs', Pow2(d), Pow2(16 - d))
    requires us[0] == 0 && 0 < vs[0] && B / 2 <= vs[0] * Pow2(d) < B
    ensures Val(us') == Val(us) * Pow2(d) && Val(vs') == Val(vs) * Pow2(d)
    ensures us'[0] < vs'[0] && vs'[0] >= B / 2
  {
    HalfPowers(d);
    ScaleTop(us[0], us[1], vs[0], vs[1], Pow2(d), Pow2(16 - d));
    assert us'[0] == us[1] / Pow2(16 - d);
    assert vs'[0] == vs[0] * Pow2(d) + vs[1] / Pow2(16 - d);
    ShiftedUpValue(us, us', Pow2(d), Pow2(16 - d));
    ShiftedUpValue(vs, vs', Pow2(d), Pow2(16 - d));
  }

  lemma ScaleTop(u0: Digit, u1: Digit, v1: Digit, v2: Digit, p: int, q: int)
    requires p > 0 && q > 0 && p * q == B && u0 == 0 < v1 && v1 * p < B
    ensures u0 / q == 0 && v1 / q == 0 && (u0 * p) % B == 0 && (v1 * p) % B == v1 * p
    ensures u1 / q < v1 * p && 0 <= v2 / q
  {
    ModUnique(0, q, 0, 0);
    ModUnique(v1 * p, B, 0, v1 * p);
    ShiftDigit(v1, p, q);
    QuotientBelow(u1, q, p);
    MulLe(1, v1, p);
  }

  /** Dividing scaled operands gives the same quotient and the scaled remainder. */
  lemma Rescale(u: nat, v: nat, p: int, q: nat, r: nat)
    requires v > 0 && p > 0 && u * p == q * (v * p) + r && r < v * p
    ensures q == u / v && r / p == u % v && r == (u % v) * p
  {
    var s := u - q * v;
    assert r == s * p by { assert q * (v * p) == (q * v) * p; }
    if s < 0 { MulLe(s, -1, p); assert false; }
    if s >= v { MulLe(v, s, p); assert false; }
    ModUnique(u, v, q, s);
    ModUnique(r, p, s, 0);
  }

  lemma {:induction false} LeadingZeros(s: seq<Digit>, k: nat)
    requires k <= |s| && forall i :: 0 <= i < k ==> s[i] == 0
    ensures Val(s) == Val(s[k..])
    decreases k
  {
    if k > 0 {
      ValCons(s);
      LeadingZeros(s[1..], k - 1);
      assert s[1..][k - 1..] == s[k..];
    } else {
      assert s[k..] == s;
    }
  }

  // ---------------------------------------------------------------------------
  // __qdivrem
  // ---------------------------------------------------------------------------

  /** The four base-B digits of a 64-bit number. */
  function DigitsOf(x: ULong): (s: seq<Digit>)
    ensures |s| == 4
  {
    [HHalf(High(x)), LHalf(High(x)), HHalf(Low(x)), LHalf(Low(x))]
  }

  lemma {:induction false} DigitsOfValue(x: ULong)
    ensures Val(DigitsOf(x)) == x
  {
    FourDigits(DigitsOf(x));
  }

  /** Reassembles a 64-bit number from four digits. */
  function Assemble(d1: Digit, d2: Digit, d3: Digit, d4: Digit): (r: ULong)
    ensures r == Val([d1, d2, d3, d4])
  {
    FourDigits([d1, d2, d3, d4]);
    Join(Combine(d1, d2), Combine(d3, d4))
  }

  method Fill(a: array<Digit>, x: ULong)
    requires a.Length == 5
    modifies a
    ensures a[0] == old(a[0]) && a[1..] == DigitsOf(x)
  {
    a[1] := HHalf(High(x));
    a[2] := LHalf(High(x));
    a[3] := HHalf(Low(x));
    a[4] := LHalf(Low(x));
  }

  /** Single-digit divisor (Knuth, exercise 16): long division, unrolled. */
  method ShortDivide(u: seq<Digit>, t: Digit) returns (quot: ULong, rem: UInt)
    requires |u| == 4 && t > 0
    ensures quot == Val(u) / t && rem == Val(u) % t
  {
    hide Val;
    var q1, r1 := ShortStep(0, u[0], t);
    var q2, r2 := ShortStep(r1, u[1], t);
    var q3, r3 := ShortStep(r2, u[2], t);
    var q4, r4 := ShortStep(r3, u[3], t);
    rem := r4;
    quot := Assemble(q1, q2, q3, q4);
    ShortSum(u, t, q1, r1, q2, r2, q3, r3, q4, r4);
  }

  /** Bring down a digit and divide. */
  method ShortStep(r: Digit, d: Digit, t: Digit) returns (q: Digit, r': Digit)
    requires r < t
    ensures q * t + r' == r * B + d && r' < t
  {
    var rbj := Combine(r, d);
    MulLe(r + 1, t, B);
    QuotientBelow(rbj, t, B);
    var qq, rr := WordDivide(rbj, t);
    q, r' := qq, rr;
  }

  lemma {:induction false} ShortSum(u: seq<Digit>, t: Digit, q1: Digit, r1: nat, q2: Digit, r2: nat,
                                    q3: Digit, r3: nat, q4: Digit, r4: nat)
    requires |u| == 4 && t > 0 && r4 < t
    requires q1 * t + r1 == u[0] && q2 * t + r2 == r1 * B + u[1]
    requires q3 * t + r3 == r2 * B + u[2] && q4 * t + r4 == r3 * B + u[3]
    ensures Val([q1, q2, q3, q4]) == Val(u) / t && r4 == Val(u) % t
  {
    FourDigits(u);
    FourDigits([q1, q2, q3, q4]);
    var q := ((q1 * B + q2) * B + q3) * B + q4;
    assert q * t == (((q1 * t) * B + q2 * t) * B + q3 * t) * B + q4 * t;
    ModUnique(Val(u), t, q, r4);
  }

  /** The multi-digit path, once the leading zeros are skipped: u[1..m+n] over v[1..n]. */
  method LongPath(us: array<Digit>, uo: nat, vs: array<Digit>, vo: nat, m: nat, n: nat, wantRem: bool,
                  ghost u: ULong, ghost v: ULong) returns (quot: ULong, rem: Option<ULong>)
    requires us != vs && us.Length == 5 && vs.Length == 5
    requires n >= 2 && uo + m + n == 4 && vo + n == 4
    requires forall k :: 0 <= k <= uo ==> us[k] == 0
    requires Val(us[uo + 1..5]) == u && Val(vs[vo + 1..5]) == v && vs[vo + 1] > 0 && v > 0
    modifies us, vs
    ensures quot == u / v
    ensures rem == if wantRem then Some(u % v) else None
  {
    hide Val, PowB, Pow2;
    var qs := new Digit[5](_ => 0);
    var qo := 4 - m;
    LeadingZeros(us[uo..5], 1);
    assert us[uo..5][1..] == us[uo + 1..5];
    var d := Normalise(us, uo, m + n, vs, vo, n);
    LongDivide(us, uo, vs, vo, qs, qo, m, n);
    ghost var r := Val(us[uo + m + 1..5]);
    Rescale(u, v, Pow2(d), Val(qs[qo..5]), r);
    LeadingZeros(qs[1..5], qo - 1);
    assert qs[1..5][qo - 1..] == qs[qo..5];
    assert qs[1..5] == [qs[1], qs[2], qs[3], qs[4]];
    quot := Assemble(qs[1], qs[2], qs[3], qs[4]);
    rem := None;
    if wantRem {
      UnscaleRemainder(us, uo + m, n, d, u % v);
      assert us[1..5] == [us[1], us[2], us[3], us[4]];
      rem := Some(Assemble(us[1], us[2], us[3], us[4]));
    }
  }

  /** The remainder, shifted back down when the operands had been scaled. */
  method UnscaleRemainder(us: array<Digit>, off: nat, n: nat, d: nat, ghost r: nat)
    requires us.Length == 5 && off + n == 4 && d < 16
    requires forall k :: 0 <= k <= off ==> us[k] == 0
    requires Val(us[off + 1..5]) == r * Pow2(d)
    modifies us
    ensures Val(us[1..5]) == r
  {
    hide Val;
    LeadingZeros(us[off..5], 1);
    assert us[off..5][1..] == us[off + 1..5];
    if d > 0 {
      ghost var s := us[off..5];
      Unnormalise(us, off, n, d);
      HalfPowers(d);
      ShiftedDownValue(s, us[off + 1..5], Pow2(d), Pow2(16 - d));
      ModUnique(r * Pow2(d), Pow2(d), r, 0);
    }
    LeadingZeros(us[1..5], off);
    assert us[1..5][off..] == us[off + 1..5];
  }

  /** __qdivrem: exact quotient and, when asked for, exact remainder. */
  method QDivRem(ull: ULong, vll: ULong, wantRem: bool) returns (quot: ULong, rem: Option<ULong>)
    requires vll != 0
    ensures quot == ull / vll
    ensures rem == if wantRem then Some(ull % vll) else None
  {
    hide Val, PowB;
    if ull < vll {
      ModUnique(ull, vll, 0, ull);
      return 0, if wantRem then Some(ull) else None;
    }
    var u, v := new Digit[5](_ => 0), new Digit[5](_ => 0);
    Fill(u, ull);
    Fill(v, vll);
    DigitsOfValue(ull);
    DigitsOfValue(vll);
    var vo, n := 0, 4;
    assert v[1..5] == v[1..] && u[1..5] == u[1..];
    while v[vo + 1] == 0
      invariant 2 <= n <= 4 && vo + n == 4
      invariant Val(v[vo + 1..5]) == vll
      invariant u[0] == 0 && Val(u[1..5]) == ull
      decreases n
    {
      assert v[vo + 1..5][0] == 0;
      LeadingZeros(v[vo + 1..5], 1);
      assert v[vo + 1..5][1..] == v[vo + 2..5];
      n := n - 1;
      if n == 1 {
        var t := v[vo + 2];
        OneDigit(v[vo + 2..5]);
        var q, r := ShortDivide(u[1..5], t);
        return q, if wantRem then Some(r) else None;
      }
      vo := vo + 1;
    }
    var uo, m := 0, 4 - n;
    while u[uo + 1] == 0
      invariant 0 <= m && uo + m + n == 4
      invariant Val(u[uo + 1..5]) == ull
      invariant Val(v[vo + 1..5]) == vll && v[vo + 1] > 0
      invariant forall k :: 0 <= k <= uo ==> u[k] == 0
      decreases m
    {
      LeadingZeros(u[uo + 1..5], 1);
      assert u[uo + 1..5][1..] == u[uo + 2..5];
      NotShorter(u[uo + 1..5], v[vo + 1..5]);
      uo, m := uo + 1, m - 1;
    }
    quot, rem := LongPath(u, uo, v, vo, m, n, wantRem, ull, vll);
  }

  lemma {:induction false} OneDigit(s: seq<Digit>)
    requires |s| == 1
    ensures Val(s) == s[0]
  {
    assert s == [s[0]];
  }

  /** A dividend at least as big as the divisor has at least as many digits. */
  lemma {:induction false} NotShorter(us: seq<Digit>, vs: seq<Digit>)
    requires |us| >= |vs| > 0 && us[0] == 0 < vs[0] && Val(us) >= Val(vs)
    ensures |us| > |vs|
  {
    if |us| == |vs| {
      TopDecides(us, vs);
      assert false;
    }
  }

  // ---------------------------------------------------------------------------
  // Signed division: section 6.5.5 of C99, truncation toward zero
  // ---------------------------------------------------------------------------

  function Abs(x: int): nat { if x < 0 then -x else x }

  /** C's quotient: the algebraic quotient with its fraction discarded. */
  function TruncDiv(a: int, b: int): int
    requires b != 0
  {
    if (a < 0) == (b < 0) then Abs(a) / Abs(b) else -(Abs(a) / Abs(b))
  }

  /** The defining property: the remainder is smaller than the divisor and has the dividend's sign. */
  lemma TruncDivMeaning(a: int, b: int)
    requires b != 0
    ensures var r := a - TruncDiv(a, b) * b;
            r == (if a < 0 then -(Abs(a) % Abs(b)) else Abs(a) % Abs(b)) && Abs(r) < Abs(b)
  {
    var q, m := Abs(a) / Abs(b), Abs(a) % Abs(b);
    assert Abs(a) == Abs(b) * q + m;
    assert TruncDiv(a, b) * b == if a < 0 then -(Abs(b) * q) else Abs(b) * q by {
      assert q * b == b * q && (-q) * b == -(b * q) && (-b) * q == -(b * q);
    }
  }

  /** The magnitudes the wrappers hand to the unsigned division. */
  lemma Magnitude(a: SLong)
    ensures (if a < 0 then NegLong(WrapLong(a)) else WrapLong(a)) == Abs(a) <= LONG / 2
  {
  }

  /** Reading an unsigned magnitude back with a sign. */
  lemma SignedAgain(m: ULong, neg: bool)
    requires m <= LONG / 2
    ensures var x: int := if neg then 0 - (m as int) else m;
            var r := AsSigned(if neg then NegLong(m) else m);
            WrapLong(r) == WrapLong(x) && (r == x <==> neg || m < LONG / 2)
  {
  }

  /** __divdi3: C's truncating quotient, modulo 2^64 in the one case that overflows. */
  method DivDi3(a: SLong, b: SLong) returns (r: SLong)
    requires b != 0
    ensures WrapLong(r) == WrapLong(TruncDiv(a, b))
    ensures r == TruncDiv(a, b) <==> !(a == -(LONG / 2) && b == -1)
  {
    hide WrapLong, NegLong, AsSigned;
    var ua, ub, neg := WrapLong(a), WrapLong(b), false;
    Magnitude(a);
    Magnitude(b);
    if a < 0 { ua, neg := NegLong(ua), !neg; }
    if b < 0 { ub, neg := NegLong(ub), !neg; }
    var uq, _ := QDivRem(ua, ub, false);
    QuotientRange(ua, ub);
    SignedAgain(uq, neg);
    if neg { uq := NegLong(uq); }
    r := AsSigned(uq);
  }

  lemma QuotientRange(a: nat, b: nat)
    requires 0 < b && a <= LONG / 2
    ensures 0 <= a / b <= LONG / 2
    ensures a / b == LONG / 2 <==> a == LONG / 2 && b == 1
  {
    assert a == b * (a / b) + a % b;
    if b >= 2 {
      MulLe(2, b, a / b);
    } else {
      assert b == 1;
    }
  }

  /** __moddi3: the remainder that goes with C's quotient, for every pair of operands. */
  method ModDi3(a: SLong, b: SLong) returns (r: SLong)
    requires b != 0
    ensures r == a - TruncDiv(a, b) * b
  {
    hide WrapLong, NegLong, AsSigned, TruncDiv;
    var ua, ub, neg := WrapLong(a), WrapLong(b), false;
    Magnitude(a);
    Magnitude(b);
    if a < 0 { ua, neg := NegLong(ua), true; }
    if b < 0 { ub := NegLong(ub); }
    var _, ur := QDivRem(ua, ub, true);
    var rr := ur.value;
    TruncDivMeaning(a, b);
    assert rr < ub;
    SignedAgain(rr, neg);
    if neg { rr := NegLong(rr); }
    r := AsSigned(rr);
  }
}
