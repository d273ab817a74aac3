/** The bitmap of page descriptors in use, and the search for a free one (kmalloc.c). */
module PageRefs {

  datatype Ptr = Null | At(index: nat)

  const NPAGEREFS := 256
  const INUSE_WORDS := 8
  const FULL: bv32 := 0xffff_ffff
  const TOP: bv32 := 0x8000_0000

  /** What allocpageref's k holds after j shifts. */
  function Mask(j: nat): bv32 { if j == 0 then 1 else Mask(j - 1) << 1 }

  function And(w: bv32, m: bv32): bv32 { w & m }

  predicate Test(w: bv32, m: bv32) { And(w, m) != 0 }

  function Set(w: bv32, m: bv32): bv32 { w | m }

  function Clear(w: bv32, m: bv32): bv32 { w & !m }

  function Shifted(m: bv32): bv32 { m << 1 }

  predicate Bit(w: bv32, j: nat) { Test(w, Mask(j)) }

  /** Every bit below the one m has. */
  predicate Below(w: bv32, m: bv32) { w & (m - 1) == m - 1 }

  /** Descriptor n is marked in use. */
  predicate Marked(words: seq<bv32>, n: nat)
    requires |words| == INUSE_WORDS && n < NPAGEREFS
  {
    Bit(words[n / 32], n % 32)
  }

  predicate Single(m: bv32) { m != 0 && m & (m - 1) == 0 }

  lemma Doubled(m: bv32)
    requires Single(m) && m < TOP
    ensures Single(m << 1) && m < m << 1 <= TOP
  {
  }

  predicate Apart(m: bv32, n: bv32) { m & n == 0 }

  lemma Separate(m: bv32, n: bv32)
    requires Single(m) && Single(n) && m != n
    ensures Apart(m, n)
  {
  }

  lemma OrAnd(w: bv32, m: bv32, n: bv32)
    ensures (w | m) & n == (w & n) | (m & n)
  {
  }

  lemma OrZero(w: bv32)
    ensures w | 0 == w
  {
  }

  lemma SetOther(w: bv32, m: bv32, n: bv32)
    requires m & n == 0
    ensures And(Set(w, m), n) == And(w, n)
  {
    OrAnd(w, m, n);
    OrZero(w & n);
  }

  lemma AndNot(m: bv32, n: bv32)
    requires m & n == 0
    ensures !m & n == n
  {
  }

  lemma AndTwice(w: bv32, m: bv32, n: bv32)
    ensures (w & m) & n == w & (m & n)
  {
  }

  lemma ClearOther(w: bv32, m: bv32, n: bv32)
    requires m & n == 0
    ensures And(Clear(w, m), n) == And(w, n)
  {
    AndTwice(w, !m, n);
    AndNot(m, n);
  }

  /** Setting or clearing one bit leaves the others alone. */
  lemma OtherBit(w: bv32, m: bv32, n: bv32)
    requires Apart(m, n)
    ensures Test(Set(w, m), n) == Test(w, n) == Test(Clear(w, m), n)
  {
    hide And, Set, Clear;
    SetOther(w, m, n);
    ClearOther(w, m, n);
  }

  lemma OwnBit(w: bv32, m: bv32)
    requires Single(m)
    ensures Test(Set(w, m), m) && !Test(Clear(w, m), m)
  {
  }

  /** All bits up to and including a set one are set. */
  lemma AllBelow(w: bv32, m: bv32)
    requires Single(m) && Below(w, m) && Test(w, m)
    ensures Below(w, m << 1)
  {
  }

  lemma TopMask()
    ensures Mask(31) == TOP
  {
    assert Mask(0) == 0x1 && Mask(1) == 0x2 && Mask(2) == 0x4 && Mask(3) == 0x8;
    assert Mask(4) == 0x10 && Mask(5) == 0x20 && Mask(6) == 0x40 && Mask(7) == 0x80;
    assert Mask(8) == 0x100 && Mask(9) == 0x200 && Mask(10) == 0x400 && Mask(11) == 0x800;
    assert Mask(12) == 0x1000 && Mask(13) == 0x2000 && Mask(14) == 0x4000 && Mask(15) == 0x8000;
    assert Mask(16) == 0x10000 && Mask(17) == 0x20000 && Mask(18) == 0x40000 && Mask(19) == 0x80000;
    assert Mask(20) == 0x100000 && Mask(21) == 0x200000 && Mask(22) == 0x400000 && Mask(23) == 0x800000;
    assert Mask(24) == 0x1000000 && Mask(25) == 0x2000000 && Mask(26) == 0x4000000 && Mask(27) == 0x8000000;
    assert Mask(28) == 0x10000000 && Mask(29) == 0x20000000 && Mask(30) == 0x40000000 && Mask(31) == 0x80000000;
  }

  lemma {:induction false} MaskDead(j: nat, n: nat)
    requires Mask(j) == 0
    ensures Mask(j + n) == 0
  {
    if n > 0 {
      MaskDead(j, n - 1);
      assert Mask(j + n) == Mask(j + n - 1) << 1;
    }
  }

  lemma {:induction false} MaskSingle(j: nat)
    requires j < 32
    ensures Single(Mask(j)) && (Mask(j) < TOP <==> j < 31)
  {
    TopMask();
    if 0 < j < 31 {
      MaskSingle(j - 1);
      Doubled(Mask(j - 1));
      if Mask(j) == TOP {
        assert Mask(j + 1) == Mask(j) << 1 == 0;
        MaskDead(j + 1, 31 - (j + 1));
      }
    }
  }

  lemma {:induction false} MaskLess(i: nat, j: nat)
    requires i < j < 32
    ensures Mask(i) < Mask(j)
  {
    MaskSingle(j - 1);
    Doubled(Mask(j - 1));
    if i < j - 1 {
      MaskLess(i, j - 1);
    }
  }

  lemma MasksApart(i: nat, j: nat)
    requires i < 32 && j < 32 && i != j
    ensures Apart(Mask(i), Mask(j))
  {
    MaskSingle(i);
    MaskSingle(j);
    if i < j {
      MaskLess(i, j);
    } else {
      MaskLess(j, i);
    }
    Separate(Mask(i), Mask(j));
  }

  lemma MaskStep(j: nat)
    ensures Mask(0) == 1 && Mask(j + 1) == Shifted(Mask(j))
  {
  }

  lemma BitIs(w: bv32, i: nat, j: nat)
    ensures Bit(w, j) == Test(w, Mask(j))
    ensures Bit(Set(w, Mask(i)), j) == Test(Set(w, Mask(i)), Mask(j))
    ensures Bit(Clear(w, Mask(i)), j) == Test(Clear(w, Mask(i)), Mask(j))
  {
    hide Mask, Set, Clear, Test;
  }

  lemma SetBit(w: bv32, i: nat, j: nat)
    requires i < 32 && j < 32
    ensures Bit(Set(w, Mask(i)), j) <==> j == i || Bit(w, j)
    ensures Bit(Clear(w, Mask(i)), j) <==> j != i && Bit(w, j)
  {
    hide *;
    BitIs(w, i, j);
    MaskSingle(i);
    if i == j {
      OwnBit(w, Mask(i));
    } else {
      MasksApart(i, j);
      OtherBit(w, Mask(i), Mask(j));
    }
  }

  /** The marks after setting (or clearing) bit n % 32 of word n / 32. */
  lemma SetMark(words: seq<bv32>, n: nat, m: nat)
    requires |words| == INUSE_WORDS && n < NPAGEREFS && m < NPAGEREFS
    ensures Marked(words[n / 32 := Set(words[n / 32], Mask(n % 32))], m) <==> m == n || Marked(words, m)
    ensures Marked(words[n / 32 := Clear(words[n / 32], Mask(n % 32))], m) <==> m != n && Marked(words, m)
  {
    hide Bit, Mask, Set, Clear;
    if m / 32 == n / 32 {
      SetBit(words[n / 32], n % 32, m % 32);
    }
  }

  /** One turn of the search: the bits below the next mask are set, and there is a next mask. */
  lemma NextMask(w: bv32, j: nat)
    requires j < 32 && w != FULL && Below(w, Mask(j)) && Bit(w, j)
    ensures j < 31 && Below(w, Mask(j + 1))
  {
    MaskSingle(j);
    TopMask();
    MaskStep(j);
    hide Mask, Test;
    AllBelow(w, Mask(j));
    if j == 31 {
      ShiftOut(w);
    }
  }

  lemma ShiftOut(w: bv32)
    requires Below(w, TOP << 1)
    ensures w == FULL
  {
  }

  lemma NoneBelow(w: bv32)
    ensures Below(w, Mask(0))
  {
  }

  /** The inner loop of allocpageref finds the lowest clear bit of a word that has one. */
  method ClearBit(w: bv32) returns (j: nat, k: bv32)
    requires w != FULL
    ensures j < 32 && k == Mask(j) && !Bit(w, j) && forall i :: 0 <= i < j ==> Bit(w, i)
  {
    hide Mask, Test, Below, Shifted;
    MaskStep(0);
    NoneBelow(w);
    k, j := 1, 0;
    while Test(w, k)
      invariant j < 32 && k == Mask(j) && Below(w, Mask(j))
      invariant forall i :: 0 <= i < j ==> Bit(w, i)
      decreases 32 - j
    {
      NextMask(w, j);
      MaskStep(j);
      k, j := Shifted(k), j + 1;
    }
  }

  /** A descriptor nobody uses, now marked; Null exactly when all are in use. */
  method AllocPageRef(inuse: array<bv32>) returns (p: Ptr)
    requires inuse.Length == INUSE_WORDS
    modifies inuse
    ensures p.Null? ==> inuse[..] == old(inuse[..]) && forall n :: 0 <= n < NPAGEREFS ==> Marked(inuse[..], n)
    ensures p.At? ==> p.index < NPAGEREFS && !Marked(old(inuse[..]), p.index)
    ensures p.At? ==> forall n :: 0 <= n < NPAGEREFS ==>
              (Marked(inuse[..], n) <==> n == p.index || Marked(old(inuse[..]), n))
    ensures p.At? ==> forall n :: 0 <= n < p.index ==> Marked(old(inuse[..]), n)
  {
    hide Mask, Bit, Set;
    var i := 0;
    while i < INUSE_WORDS
      invariant 0 <= i <= INUSE_WORDS && inuse[..] == old(inuse[..])
      invariant forall m :: 0 <= m < 32 * i ==> Marked(inuse[..], m)
    {
      if inuse[i] != FULL {
        var j, k := ClearBit(inuse[i]);
        ghost var before, n := inuse[..], i * 32 + j;
        inuse[i] := Set(inuse[i], k);
        assert inuse[..] == before[n / 32 := Set(before[n / 32], Mask(n % 32))];
        forall m | 0 <= m < NPAGEREFS ensures Marked(inuse[..], m) <==> m == n || Marked(before, m) {
          SetMark(before, n, m);
        }
        forall m | 0 <= m < n ensures Marked(before, m) {
          if m >= 32 * i {
            assert m / 32 == i && Bit(before[i], m % 32);
          }
        }
        return At(i * 32 + j);
      }
      forall m | 32 * i <= m < 32 * (i + 1) ensures Marked(inuse[..], m) {
        assert m / 32 == i;
        FullBit(m % 32);
      }
      i := i + 1;
    }
    p := Null;
  }

  lemma FullBit(j: nat)
    requires j < 32
    ensures Bit(FULL, j)
  {
    MaskSingle(j);
    FullAnd(Mask(j));
  }

  lemma FullAnd(m: bv32)
    ensures FULL & m == m
  {
  }

  /** Undoes the mark. */
  method FreePageRef(inuse: array<bv32>, p: nat)
    requires inuse.Length == INUSE_WORDS && p < NPAGEREFS && Marked(inuse[..], p)
    modifies inuse
    ensures forall n :: 0 <= n < NPAGEREFS ==> (Marked(inuse[..], n) <==> n != p && Marked(old(inuse[..]), n))
  {
    hide Mask, Bit, Clear;
    var k := ShiftedOne(p % 32);
    ghost var before := inuse[..];
    inuse[p / 32] := Clear(inuse[p / 32], k);
    assert inuse[..] == before[p / 32 := Clear(before[p / 32], Mask(p % 32))];
    forall n | 0 <= n < NPAGEREFS ensures Marked(inuse[..], n) <==> n != p && Marked(before, n) {
      SetMark(before, p, n);
    }
  }

  /** `1 << j`, one place at a time. */
  method ShiftedOne(j: nat) returns (k: bv32)
    ensures k == Mask(j)
  {
    hide Mask, Shifted;
    MaskStep(0);
    k := 1;
    for i := 0 to j
      invariant k == Mask(i)
    {
      MaskStep(i);
      k := Shifted(k);
    }
  }
}
