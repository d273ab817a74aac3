/** The scatter/gather transfers of uio.c. The buffers of a uio are seen as one sequence of
    byte addresses, `Cells`, of which a transfer uses up the front. */
module Uio {
  import opened Basics

  type Byte = bv8

  datatype Rw = Read | Write

  datatype Iovec = Iovec(base: nat, len: nat)

  /** copyin or copyout fails: in this turn of the loop that copies, after so many bytes. */
  datatype Fault = Fault(turn: nat, after: nat)

  // ---------------------------------------------------------------------------
  // Buffers
  // ---------------------------------------------------------------------------

  function Span(base: nat, len: nat): (s: seq<nat>)
    ensures |s| == len && forall i :: 0 <= i < len ==> s[i] == base + i
  {
    seq(len, i requires 0 <= i => base + i)
  }

  /** Every byte of the buffers, in order. */
  function Cells(v: seq<Iovec>): seq<nat>
  {
    if v == [] then [] else Span(v[0].base, v[0].len) + Cells(v[1..])
  }

  /** The iovecs left after k bytes: used-up ones are dropped only when the next byte is wanted. */
  function Advance(v: seq<Iovec>, k: nat): (r: seq<Iovec>)
    requires k <= |Cells(v)|
    decreases k, |v|
  {
    if k == 0 then v
    else if v[0].len == 0 then Advance(v[1..], k)
    else
      var size := Min(v[0].len, k);
      CellsCut(v, size);
      Advance(Cut(v, size), k - size)
  }

  /** How many copies it takes to move k bytes. */
  function Turns(v: seq<Iovec>, k: nat): nat
    requires k <= |Cells(v)|
    decreases k, |v|
  {
    if k == 0 then 0
    else if v[0].len == 0 then Turns(v[1..], k)
    else
      var size := Min(v[0].len, k);
      CellsCut(v, size);
      1 + Turns(Cut(v, size), k - size)
  }

  /** The first iovec with its first bytes taken off. */
  function Cut(v: seq<Iovec>, size: nat): seq<Iovec>
    requires v != [] && size <= v[0].len
  {
    [Iovec(v[0].base + size, v[0].len - size)] + v[1..]
  }

  lemma CellsCut(v: seq<Iovec>, size: nat)
    requires v != [] && size <= v[0].len
    ensures size <= |Cells(v)| && Cells(Cut(v, size)) == Cells(v)[size..]
    ensures Cells(v)[..size] == Span(v[0].base, size)
  {
    hide Span, Cells;
    SpanSplit(v[0].base, v[0].len, size);
    assert Cut(v, size)[1..] == v[1..];
    CellsStep(v);
    CellsStep(Cut(v, size));
    SliceSum(Span(v[0].base, v[0].len), Cells(v[1..]), size);
  }

  lemma CellsStep(v: seq<Iovec>)
    requires v != []
    ensures Cells(v) == Span(v[0].base, v[0].len) + Cells(v[1..])
  {
  }

  lemma SpanSplit(base: nat, len: nat, size: nat)
    requires size <= len
    ensures Span(base, len)[..size] == Span(base, size) && Span(base, len)[size..] == Span(base + size, len - size)
  {
  }

  lemma SliceSum(a: seq<nat>, b: seq<nat>, k: nat)
    requires k <= |a|
    ensures (a + b)[..k] == a[..k] && (a + b)[k..] == a[k..] + b
  {
  }

  lemma {:induction false} CellsAdvance(v: seq<Iovec>, k: nat)
    requires k <= |Cells(v)|
    ensures Cells(Advance(v, k)) == Cells(v)[k..]
    decreases k, |v|
  {
    if k == 0 {
    } else if v[0].len == 0 {
      assert Cells(v) == Cells(v[1..]);
      CellsAdvance(v[1..], k);
    } else {
      var size := Min(v[0].len, k);
      CellsCut(v, size);
      CellsAdvance(Cut(v, size), k - size);
      assert Cells(v)[size..][k - size..] == Cells(v)[k..];
    }
  }

  /** Using up a bytes and then b is using up a + b. */
  lemma {:induction false} AdvanceTwice(v: seq<Iovec>, a: nat, b: nat)
    requires a + b <= |Cells(v)|
    ensures a <= |Cells(v)| && b <= |Cells(Advance(v, a))| && Advance(Advance(v, a), b) == Advance(v, a + b)
    decreases a, |v|
  {
    CellsAdvance(v, a);
    if a == 0 {
    } else if v[0].len == 0 {
      AdvanceTwice(v[1..], a, b);
    } else {
      var size := Min(v[0].len, a);
      CellsCut(v, size);
      AdvanceTwice(Cut(v, size), a - size, b);
      LongerCut(v, size, a + b);
    }
  }

  /** How far one goes in the first iovec does not depend on how much is asked for. */
  lemma {:induction false} LongerCut(v: seq<Iovec>, size: nat, k: nat)
    requires v != [] && size <= v[0].len && size <= k <= |Cells(v)| && 0 < size
    ensures k - size <= |Cells(Cut(v, size))| && Advance(v, k) == Advance(Cut(v, size), k - size)
  {
    hide Span, Cells;
    CellsCut(v, size);
    var big := Min(v[0].len, k);
    CellsCut(v, big);
    if size < big {
      var w := Cut(v, size);
      CellsCut(w, big - size);
      assert Cut(w, big - size) == Cut(v, big);
    }
  }

  // ---------------------------------------------------------------------------
  // When uio_resid is not the size of the buffers
  // ---------------------------------------------------------------------------

  /** How a call ends: the iovecs and uio_resid left, the bytes moved, and whether it panicked
      because it ran out of buffers. */
  datatype End = End(left: seq<Iovec>, resid: nat, moved: nat, panicked: bool)

  /** The bookkeeping of uiomove's loop whatever uio_resid says; it is counted in a 32-bit word. */
  function Go(v: seq<Iovec>, resid: nat, n: nat): End
    requires v != []
    decreases n, |v|
  {
    if n == 0 || resid == 0 then End(v, resid, 0, false)
    else
      var size := Min(v[0].len, n);
      if size == 0 then (if |v| == 1 then End([], resid, 0, true) else Go(v[1..], resid, n))
      else
        var e := Go(Cut(v, size), (resid - size) % WORD, n - size);
        e.(moved := size + e.moved)
  }

  /** The first few buffers hold exactly r bytes. */
  predicate Boundary(v: seq<Iovec>, r: nat)
  {
    r == 0 || (v != [] && v[0].len <= r && Boundary(v[1..], r - v[0].len))
  }

  /** What there is of the buffers is used, and the panic comes exactly if more is wanted and
      uio_resid promises more. */
  predicate Enough(total: nat, resid: nat, n: nat, e: End)
  {
    e.moved == Min(n, total) && e.resid == resid - e.moved && (e.panicked <==> n > total && resid > total)
  }

  ghost predicate LeftOver(v: seq<Iovec>, e: End)
  {
    !e.panicked ==> e.moved <= |Cells(v)| && e.left == Advance(v, e.moved)
  }

  lemma EnoughStep(total: nat, resid: nat, n: nat, e: End, size: nat)
    requires size <= n && size <= total <= resid && Enough(total - size, resid - size, n - size, e)
    ensures Enough(total, resid, n, e.(moved := size + e.moved))
  {
  }

  /** With buffers for no more than uio_resid. */
  lemma {:induction false} GoEnough(v: seq<Iovec>, resid: nat, n: nat)
    requires v != [] && |Cells(v)| <= resid < WORD
    ensures Enough(|Cells(v)|, resid, n, Go(v, resid, n)) && LeftOver(v, Go(v, resid, n))
    decreases n, |v|
  {
    hide Go, Advance, Cells, Cut, Span;
    NoCells(v);
    AdvanceNone(v);
    if n == 0 || resid == 0 {
      GoStops(v, resid, n);
    } else if v[0].len == 0 {
      GoSkips(v, resid, n);
      NoCells(v[1..]);
      if |v| > 1 {
        GoEnough(v[1..], resid, n);
        SkipLeft(v, Go(v, resid, n));
      }
    } else {
      var size := Min(v[0].len, n);
      hide Enough, LeftOver;
      CellsCut(v, size);
      GoMoves(v, resid, n, size);
      ResidWithin(resid, size);
      var w := Cut(v, size);
      var e := Go(w, resid - size, n - size);
      GoEnough(w, resid - size, n - size);
      EnoughStep(|Cells(v)|, resid, n, e, size);
      CutLeft(v, size, e);
    }
  }

  lemma SkipLeft(v: seq<Iovec>, e: End)
    requires v != [] && v[0].len == 0 && LeftOver(v[1..], e) && (e.moved == 0 ==> e.panicked)
    ensures LeftOver(v, e)
  {
    hide Advance, Cells;
    NoCells(v);
    if !e.panicked {
      AdvanceSkip(v, e.moved);
    }
  }

  lemma CutLeft(v: seq<Iovec>, size: nat, e: End)
    requires v != [] && 0 < size <= v[0].len && LeftOver(Cut(v, size), e)
    ensures LeftOver(v, e.(moved := size + e.moved))
  {
    hide Advance, Cells;
    CellsCut(v, size);
    if !e.panicked {
      LongerCut(v, size, size + e.moved);
    }
  }

  lemma GoStops(v: seq<Iovec>, resid: nat, n: nat)
    requires v != [] && (n == 0 || resid == 0)
    ensures Go(v, resid, n) == End(v, resid, 0, false)
  {
  }

  /** uio_resid is respected exactly if no more is asked for, or if it falls between two buffers.
      Otherwise the count wraps round, and the rest of the buffers is used as well. */
  predicate Short(total: nat, resid: nat, n: nat, between: bool, e: End)
  {
    if n <= resid || between then e.moved == Min(n, resid) && e.resid == resid - e.moved && !e.panicked
    else e.moved == Min(n, total) > resid && e.resid == WORD + resid - e.moved && (e.panicked <==> n > total)
  }

  lemma ShortStep(total: nat, resid: nat, n: nat, between: bool, between': bool, e: End, size: nat)
    requires size <= n && size <= resid < total && Short(total - size, resid - size, n - size, between', e)
    requires n > resid ==> between == between'
    ensures Short(total, resid, n, between, e.(moved := size + e.moved))
  {
  }

  /** With more buffers than uio_resid says. */
  lemma {:induction false} GoShort(v: seq<Iovec>, resid: nat, n: nat)
    requires v != [] && resid < |Cells(v)| < WORD
    ensures Short(|Cells(v)|, resid, n, Boundary(v, resid), Go(v, resid, n))
    decreases n, |v|
  {
    hide Go, Advance, Cells, Cut, Span;
    NoCells(v);
    if n == 0 || resid == 0 {
      GoStops(v, resid, n);
    } else if v[0].len == 0 {
      GoSkips(v, resid, n);
      NoCells(v[1..]);
      GoShort(v[1..], resid, n);
    } else {
      var size := Min(v[0].len, n);
      CellsCut(v, size);
      GoMoves(v, resid, n, size);
      var w := Cut(v, size);
      if size <= resid {
        hide Short, Boundary;
        ResidWithin(resid, size);
        GoShort(w, resid - size, n - size);
        if n > resid {
          BoundaryCut(v, size, resid);
        }
        ShortStep(|Cells(v)|, resid, n, Boundary(v, resid), Boundary(w, resid - size), Go(w, resid - size, n - size),
                  size);
      } else {
        BoundaryWithin(v, resid);
        hide Boundary;
        ResidWraps(resid, size);
        GoEnough(w, WORD + resid - size, n - size);
      }
    }
  }

  lemma BoundaryWithin(v: seq<Iovec>, r: nat)
    requires v != [] && 0 < r < v[0].len
    ensures !Boundary(v, r)
  {
  }

  /** Where uio_resid is right, this is what uiomove does (Transfer.Uiomove): no panic and no wrap. */
  lemma GoRight(v: seq<Iovec>, n: nat)
    requires v != [] && |Cells(v)| < WORD
    ensures var resid := |Cells(v)|; var k := Min(n, resid); Go(v, resid, n) == End(Advance(v, k), resid - k, k, false)
  {
    hide Go, Advance, Cells;
    GoEnough(v, |Cells(v)|, n);
  }

  /** Both failures are real: two bytes asked of a one-byte buffer said to hold two, and of a two-byte
      buffer said to hold one. */
  lemma WrongResid(base: nat)
    ensures Go([Iovec(base, 1)], 2, 2).panicked
    ensures Go([Iovec(base, 2)], 1, 2).moved == 2 && Go([Iovec(base, 2)], 1, 2).resid == WORD - 1
  {
    var v, w := [Iovec(base, 1)], [Iovec(base, 2)];
    hide Go, Advance;
    assert v[1..] == [] && w[1..] == [];
    CellsStep(v);
    CellsStep(w);
    GoEnough(v, 2, 2);
    GoShort(w, 1, 2);
  }

  lemma ResidWithin(resid: nat, size: nat)
    requires size <= resid < WORD
    ensures (resid - size) % WORD == resid - size
  {
  }

  lemma ResidWraps(resid: nat, size: nat)
    requires resid < size < WORD
    ensures (resid - size) % WORD == WORD + resid - size
  {
  }

  lemma BoundaryCut(v: seq<Iovec>, size: nat, r: nat)
    requires v != [] && 0 < size == v[0].len <= r
    ensures Boundary(v, r) <==> Boundary(Cut(v, size), r - size)
  {
    assert Cut(v, size)[1..] == v[1..];
  }

  lemma GoMoves(v: seq<Iovec>, resid: nat, n: nat, size: nat)
    requires v != [] && n > 0 && resid > 0 && 0 < size == Min(v[0].len, n)
    ensures Cut(v, size) != []
    ensures var e := Go(Cut(v, size), (resid - size) % WORD, n - size); Go(v, resid, n) == e.(moved := size + e.moved)
  {
  }

  lemma GoSkips(v: seq<Iovec>, resid: nat, n: nat)
    requires v != [] && n > 0 && resid > 0 && v[0].len == 0
    ensures Go(v, resid, n) == if |v| == 1 then End([], resid, 0, true) else Go(v[1..], resid, n)
  {
  }

  // ---------------------------------------------------------------------------
  // Memory
  // ---------------------------------------------------------------------------

  /** The buffers share no byte with each other or with the n bytes at ptr. */
  ghost predicate Separate(cells: seq<nat>, ptr: nat, n: nat)
  {
    && (forall i, k :: 0 <= i < k < |cells| ==> cells[i] != cells[k])
    && (forall i :: 0 <= i < |cells| ==> !(ptr <= cells[i] < ptr + n))
  }

  ghost predicate InMemory(cells: seq<nat>, ptr: nat, n: nat, size: nat)
  {
    (forall i :: 0 <= i < |cells| ==> cells[i] < size) && ptr + n <= size
  }

  /** The first m cells and the m bytes at ptr have the same contents now, taken from the side that
      is read, and nothing else has changed. */
  ghost predicate Moved(rw: Rw, was: seq<Byte>, now: seq<Byte>, cells: seq<nat>, ptr: nat, m: nat)
    requires m <= |cells| && InMemory(cells, ptr, m, |was|)
  {
    && |now| == |was|
    && match rw
       case Read =>
         && (forall i :: 0 <= i < m ==> now[cells[i]] == was[ptr + i])
         && (forall a :: 0 <= a < |was| && a !in cells[..m] ==> now[a] == was[a])
       case Write =>
         && (forall i :: 0 <= i < m ==> now[ptr + i] == was[cells[i]])
         && (forall a :: 0 <= a < |was| && !(ptr <= a < ptr + m) ==> now[a] == was[a])
  }

  /** The contents after a transfer are determined. */
  lemma MovedOnce(rw: Rw, was: seq<Byte>, now: seq<Byte>, now': seq<Byte>, cells: seq<nat>, ptr: nat, m: nat)
    requires m <= |cells| && InMemory(cells, ptr, m, |was|)
    requires Moved(rw, was, now, cells, ptr, m) && Moved(rw, was, now', cells, ptr, m)
    ensures now == now'
  {
    forall a | 0 <= a < |was| ensures now[a] == now'[a] {
      if rw.Read? && a in cells[..m] {
        var i :| 0 <= i < m && cells[i] == a;
      } else if rw.Write? && ptr <= a < ptr + m {
        var i := a - ptr;
        assert now[ptr + i] == was[cells[i]];
      }
    }
  }

  lemma ReadTwice(was: seq<Byte>, mid: seq<Byte>, now: seq<Byte>, cells: seq<nat>, ptr: nat, m: nat, k: nat)
    requires m + k <= |cells| && InMemory(cells, ptr, m + k, |was|) && Separate(cells, ptr, m + k)
    requires Moved(Read, was, mid, cells, ptr, m) && |mid| == |was| && Moved(Read, mid, now, cells[m..], ptr + m, k)
    ensures Moved(Read, was, now, cells, ptr, m + k)
  {
    var rest := cells[m..];
    forall i | 0 <= i < m + k ensures now[cells[i]] == was[ptr + i] {
      if i < m {
        assert cells[i] !in rest[..k];
        assert now[cells[i]] == mid[cells[i]];
      } else {
        assert rest[i - m] == cells[i];
        assert ptr + i !in cells[..m];
        assert now[rest[i - m]] == mid[ptr + m + (i - m)];
      }
    }
    forall a | 0 <= a < |was| && a !in cells[..m + k] ensures now[a] == was[a] {
      assert cells[..m + k] == cells[..m] + rest[..k];
    }
  }

  lemma WriteTwice(was: seq<Byte>, mid: seq<Byte>, now: seq<Byte>, cells: seq<nat>, ptr: nat, m: nat, k: nat)
    requires m + k <= |cells| && InMemory(cells, ptr, m + k, |was|) && Separate(cells, ptr, m + k)
    requires Moved(Write, was, mid, cells, ptr, m) && |mid| == |was| && Moved(Write, mid, now, cells[m..], ptr + m, k)
    ensures Moved(Write, was, now, cells, ptr, m + k)
  {
    var rest := cells[m..];
    forall i | 0 <= i < m + k ensures now[ptr + i] == was[cells[i]] {
      if i >= m {
        assert rest[i - m] == cells[i];
        assert now[ptr + m + (i - m)] == mid[rest[i - m]];
      }
    }
  }

  /** One transfer after another is one transfer. */
  lemma MovedTwice(rw: Rw, was: seq<Byte>, mid: seq<Byte>, now: seq<Byte>, cells: seq<nat>, ptr: nat, m: nat, k: nat)
    requires m + k <= |cells| && InMemory(cells, ptr, m + k, |was|) && Separate(cells, ptr, m + k)
    requires Moved(rw, was, mid, cells, ptr, m) && |mid| == |was| && Moved(rw, mid, now, cells[m..], ptr + m, k)
    ensures Moved(rw, was, now, cells, ptr, m + k)
  {
    hide Moved, Separate, InMemory;
    if rw.Read? {
      ReadTwice(was, mid, now, cells, ptr, m, k);
    } else {
      WriteTwice(was, mid, now, cells, ptr, m, k);
    }
  }

  /** What memmove leaves behind. */
  function Blit<T>(mem: seq<T>, dst: nat, src: nat, size: nat): seq<T>
  {
    if dst + size <= |mem| && src + size <= |mem| then mem[..dst] + mem[src..src + size] + mem[dst + size..] else mem
  }

  lemma BlitIs(was: seq<Byte>, now: seq<Byte>, dst: nat, src: nat, size: nat)
    requires |now| == |was| && dst + size <= |was| && src + size <= |was|
             && now[dst..dst + size] == was[src..src + size]
    requires forall a :: 0 <= a < |was| && !(dst <= a < dst + size) ==> now[a] == was[a]
    ensures now == Blit(was, dst, src, size)
  {
    assert now[..dst] == was[..dst] && now[dst + size..] == was[dst + size..];
    assert now == now[..dst] + now[dst..dst + size] + now[dst + size..];
  }

  /** One copy between the buffer at base and ptr, the way uio_rw says. */
  function Copied<T>(rw: Rw, mem: seq<T>, base: nat, ptr: nat, size: nat): seq<T>
  {
    if rw.Read? then Blit(mem, base, ptr, size) else Blit(mem, ptr, base, size)
  }

  /** Memory after k bytes, copied buffer by buffer, whatever overlaps with what. */
  function Transferred<T>(rw: Rw, mem: seq<T>, v: seq<Iovec>, ptr: nat, k: nat): seq<T>
    requires k <= |Cells(v)|
    decreases k, |v|
  {
    if k == 0 then mem
    else if v[0].len == 0 then Transferred(rw, mem, v[1..], ptr, k)
    else
      var size := Min(v[0].len, k);
      CellsCut(v, size);
      Transferred(rw, Copied(rw, mem, v[0].base, ptr, size), Cut(v, size), ptr + size, k - size)
  }

  lemma TransferredNone<T>(rw: Rw, mem: seq<T>, v: seq<Iovec>, ptr: nat)
    ensures Transferred(rw, mem, v, ptr, 0) == mem
  {
  }

  lemma TransferredSkip<T>(rw: Rw, mem: seq<T>, v: seq<Iovec>, ptr: nat, k: nat)
    requires 0 < k <= |Cells(v)| && v != [] && v[0].len == 0
    ensures k <= |Cells(v[1..])| && Transferred(rw, mem, v, ptr, k) == Transferred(rw, mem, v[1..], ptr, k)
  {
    NoCells(v);
  }

  lemma TransferredMove<T>(rw: Rw, mem: seq<T>, v: seq<Iovec>, ptr: nat, k: nat, size: nat)
    requires 0 < k <= |Cells(v)| && v != [] && 0 < size == Min(v[0].len, k)
    ensures k - size <= |Cells(Cut(v, size))|
    ensures Transferred(rw, mem, v, ptr, k) ==
            Transferred(rw, Copied(rw, mem, v[0].base, ptr, size), Cut(v, size), ptr + size, k - size)
  {
    CellsCut(v, size);
  }

  // ---------------------------------------------------------------------------
  // Moving in two calls
  // ---------------------------------------------------------------------------

  /** A copy to a place strictly inside what is copied, so that its front overwrites its rest. */
  predicate Inside(dst: nat, src: nat, size: nat) { src < dst < src + size }

  lemma BlitAt<T>(mem: seq<T>, dst: nat, src: nat, size: nat, x: nat)
    requires dst + size <= |mem| && src + size <= |mem| && x < |mem|
    ensures |Blit(mem, dst, src, size)| == |mem|
    ensures Blit(mem, dst, src, size)[x] == if dst <= x < dst + size then mem[src + (x - dst)] else mem[x]
  {
  }

  /** What x holds after a copy of a bytes and one of the b bytes after them. */
  lemma BlitsAt(mem: seq<Byte>, dst: nat, src: nat, a: nat, b: nat, x: nat)
    requires dst + a + b <= |mem| && src + a + b <= |mem| && x < |mem|
    ensures var two := Blit(Blit(mem, dst, src, a), dst + a, src + a, b);
            && |two| == |mem|
            && two[x] == if !(dst <= x < dst + a + b) then mem[x]
                         else if x >= dst + a && dst <= src + (x - dst) < dst + a then
                           mem[src + (src + (x - dst) - dst)]
                         else mem[src + (x - dst)]
  {
    hide Blit;
    var mid := Blit(mem, dst, src, a);
    BlitAt(mem, dst, src, a, x);
    BlitAt(mid, dst + a, src + a, b, x);
    if dst + a <= x < dst + a + b {
      BlitAt(mem, dst, src, a, src + (x - dst));
    }
  }

  lemma BlitTwice(mem: seq<Byte>, dst: nat, src: nat, a: nat, b: nat)
    requires dst + a + b <= |mem| && src + a + b <= |mem| && !Inside(dst, src, a + b)
    ensures Blit(Blit(mem, dst, src, a), dst + a, src + a, b) == Blit(mem, dst, src, a + b)
  {
    hide Blit;
    var two, one := Blit(Blit(mem, dst, src, a), dst + a, src + a, b), Blit(mem, dst, src, a + b);
    BlitSize(mem, dst, src, a + b);
    BlitSize(mem, dst, src, a);
    BlitSize(Blit(mem, dst, src, a), dst + a, src + a, b);
    forall x | 0 <= x < |mem| ensures two[x] == one[x] {
      BlitsAt(mem, dst, src, a, b, x);
      BlitAt(mem, dst, src, a + b, x);
    }
  }

  lemma BlitSize<T>(mem: seq<T>, dst: nat, src: nat, size: nat)
    ensures |Blit(mem, dst, src, size)| == |mem|
  {
  }

  /** A memory of zeros but for one byte. */
  function OneAt(n: nat, x: nat): (mem: seq<Byte>)
    ensures |mem| == n && forall i :: 0 <= i < n ==> mem[i] == if i == x then 1 else 0
  {
    seq(n, i => if i == x then 1 else 0)
  }

  /** The first byte that both copies touch tells them apart. */
  lemma BlitTwiceFails(n: nat, dst: nat, src: nat, a: nat, b: nat)
    requires 0 < a && 0 < b && Inside(dst, src, a + b) && dst + a + b <= n
    ensures var mem := OneAt(n, if dst < src + a then src + a else dst);
            Blit(Blit(mem, dst, src, a), dst + a, src + a, b) != Blit(mem, dst, src, a + b)
  {
    hide Blit;
    var y := if dst < src + a then src + a else dst;
    var x := dst + (y - src);
    BlitsAt(OneAt(n, y), dst, src, a, b, x);
    BlitAt(OneAt(n, y), dst, src, a + b, x);
  }

  ghost predicate CopiesAgree(mem: seq<Byte>, dst: nat, src: nat, a: nat, b: nat)
  {
    Blit(Blit(mem, dst, src, a), dst + a, src + a, b) == Blit(mem, dst, src, a + b)
  }

  /** Two copies are one, in every memory, exactly if the target does not start inside the source. */
  lemma BlitTwiceExact(n: nat, dst: nat, src: nat, a: nat, b: nat)
    requires 0 < a && 0 < b && dst + a + b <= n && src + a + b <= n
    ensures (forall mem: seq<Byte> :: |mem| == n ==> CopiesAgree(mem, dst, src, a, b)) <==> !Inside(dst, src, a + b)
  {
    hide Blit;
    if Inside(dst, src, a + b) {
      BlitTwiceFails(n, dst, src, a, b);
      assert !CopiesAgree(OneAt(n, if dst < src + a then src + a else dst), dst, src, a, b);
    } else {
      forall mem: seq<Byte> | |mem| == n ensures CopiesAgree(mem, dst, src, a, b) {
        BlitTwice(mem, dst, src, a, b);
      }
    }
  }

  function Dst(rw: Rw, base: nat, ptr: nat): nat { if rw.Read? then base else ptr }

  function Src(rw: Rw, base: nat, ptr: nat): nat { if rw.Read? then ptr else base }

  /** Stopping after a bytes is harmless: that is between two copies, or within one whose target does
      not start inside its source. */
  predicate SplitOk(rw: Rw, v: seq<Iovec>, ptr: nat, a: nat, b: nat)
    requires a + b <= |Cells(v)|
    decreases a, |v|
  {
    if a == 0 || b == 0 then true
    else if v[0].len == 0 then SplitOk(rw, v[1..], ptr, a, b)
    else if v[0].len <= a then
      CellsCut(v, v[0].len);
      SplitOk(rw, Cut(v, v[0].len), ptr + v[0].len, a - v[0].len, b)
    else !Inside(Dst(rw, v[0].base, ptr), Src(rw, v[0].base, ptr), Min(v[0].len, a + b))
  }

  /** Between two buffers is always harmless, whatever overlaps with what. */
  lemma {:induction false} BoundarySplit(rw: Rw, v: seq<Iovec>, ptr: nat, a: nat, b: nat)
    requires a + b <= |Cells(v)| && Boundary(v, a)
    ensures SplitOk(rw, v, ptr, a, b)
    decreases a, |v|
  {
    hide Cells;
    if a > 0 && b > 0 {
      NoCells(v);
      if v[0].len == 0 {
        BoundarySplit(rw, v[1..], ptr, a, b);
      } else {
        CellsCut(v, v[0].len);
        BoundaryCut(v, v[0].len, a);
        BoundarySplit(rw, Cut(v, v[0].len), ptr + v[0].len, a - v[0].len, b);
      }
    }
  }

  lemma CopiedSize(rw: Rw, mem: seq<Byte>, base: nat, ptr: nat, size: nat)
    ensures |Copied(rw, mem, base, ptr, size)| == |mem|
  {
  }

  lemma CopiedTwice(rw: Rw, mem: seq<Byte>, base: nat, ptr: nat, a: nat, b: nat)
    requires base + a + b <= |mem| && ptr + a + b <= |mem| && !Inside(Dst(rw, base, ptr), Src(rw, base, ptr), a + b)
    ensures Copied(rw, Copied(rw, mem, base, ptr, a), base + a, ptr + a, b) == Copied(rw, mem, base, ptr, a + b)
  {
    hide Blit;
    BlitTwice(mem, Dst(rw, base, ptr), Src(rw, base, ptr), a, b);
  }

  /** Memory after a bytes and then b more. */
  function InTwo<T>(rw: Rw, mem: seq<T>, v: seq<Iovec>, ptr: nat, a: nat, b: nat): seq<T>
    requires a + b <= |Cells(v)|
  {
    AdvanceTwice(v, a, b);
    Transferred(rw, Transferred(rw, mem, v, ptr, a), Advance(v, a), ptr + a, b)
  }

  /** The stop falls inside the first buffer. */
  lemma SplitInside(rw: Rw, mem: seq<Byte>, v: seq<Iovec>, ptr: nat, a: nat, b: nat)
    requires a + b <= |Cells(v)| && InMemory(Cells(v), ptr, a + b, |mem|)
    requires v != [] && 0 < a < v[0].len && 0 < b
    ensures var c := Min(v[0].len - a, b);
            && v[0].base + a + c <= |mem| && ptr + a + c <= |mem| && a + c <= v[0].len
            && b - c <= |Cells(Cut(v, a + c))|
            && Transferred(rw, mem, v, ptr, a + b) ==
               Transferred(rw, Copied(rw, mem, v[0].base, ptr, a + c), Cut(v, a + c), ptr + a + c, b - c)
            && InTwo(rw, mem, v, ptr, a, b) ==
               Transferred(rw, Copied(rw, Copied(rw, mem, v[0].base, ptr, a), v[0].base + a, ptr + a, c), Cut(v, a + c),
                           ptr + a + c, b - c)
  {
    hide Cells, Copied, Transferred, Advance;
    var c, w := Min(v[0].len - a, b), Cut(v, a);
    FrontInMemory(v, ptr, a + b, |mem|, a + c);
    CellsCut(v, a);
    TransferredMove(rw, mem, v, ptr, a + b, a + c);
    TransferredMove(rw, mem, v, ptr, a, a);
    AdvanceMove(v, a, a);
    AdvanceNone(w);
    AdvanceTwice(v, a, b);
    var mid := Copied(rw, mem, v[0].base, ptr, a);
    TransferredNone(rw, mid, w, ptr + a);
    TransferredMove(rw, mid, w, ptr + a, b, c);
    assert Cut(w, c) == Cut(v, a + c);
  }

  /** The stop falls behind the first copy, which both ways have in common. */
  lemma SplitBehind(rw: Rw, mem: seq<Byte>, v: seq<Iovec>, ptr: nat, a: nat, b: nat)
    requires a + b <= |Cells(v)| && v != [] && 0 < v[0].len <= a
    ensures var n := v[0].len; a - n + b <= |Cells(Cut(v, n))|
    ensures var n := v[0].len;
            && Transferred(rw, mem, v, ptr, a + b) ==
               Transferred(rw, Copied(rw, mem, v[0].base, ptr, n), Cut(v, n), ptr + n, a - n + b)
            && InTwo(rw, mem, v, ptr, a, b) == InTwo(rw, Copied(rw, mem, v[0].base, ptr, n), Cut(v, n), ptr + n,
                                                     a - n, b)
  {
    hide Cells, Copied, Transferred, Advance;
    var n := v[0].len;
    CellsCut(v, n);
    TransferredMove(rw, mem, v, ptr, a + b, n);
    TransferredMove(rw, mem, v, ptr, a, n);
    AdvanceMove(v, a, n);
  }

  lemma SplitSkip(rw: Rw, mem: seq<Byte>, v: seq<Iovec>, ptr: nat, a: nat, b: nat)
    requires 0 < a && a + b <= |Cells(v)| && v != [] && v[0].len == 0
    ensures a + b <= |Cells(v[1..])| && Transferred(rw, mem, v, ptr, a + b) == Transferred(rw, mem, v[1..], ptr, a + b)
    ensures InTwo(rw, mem, v, ptr, a, b) == InTwo(rw, mem, v[1..], ptr, a, b)
  {
    hide Cells, Transferred, Advance;
    TransferredSkip(rw, mem, v, ptr, a + b);
    TransferredSkip(rw, mem, v, ptr, a);
    AdvanceSkip(v, a);
  }

  lemma CutInMemory(v: seq<Iovec>, ptr: nat, k: nat, n: nat, size: nat)
    requires v != [] && n <= v[0].len && n <= k && InMemory(Cells(v), ptr, k, size)
    ensures InMemory(Cells(Cut(v, n)), ptr + n, k - n, size)
  {
    hide Cells;
    CellsCut(v, n);
  }

  /** Moving a bytes and then b leaves the memory that moving a + b at once does. */
  lemma {:induction false} TransferredTwice(rw: Rw, mem: seq<Byte>, v: seq<Iovec>, ptr: nat, a: nat, b: nat)
    requires a + b <= |Cells(v)| && InMemory(Cells(v), ptr, a + b, |mem|) && SplitOk(rw, v, ptr, a, b)
    ensures InTwo(rw, mem, v, ptr, a, b) == Transferred(rw, mem, v, ptr, a + b)
    decreases a, |v|
  {
    hide Cells, Copied, Transferred, Advance, InMemory, Inside;
    NoCells(v);
    if a == 0 {
      AdvanceNone(v);
      TransferredNone(rw, mem, v, ptr);
    } else if b == 0 {
      AdvanceTwice(v, a, b);
      TransferredNone(rw, Transferred(rw, mem, v, ptr, a), Advance(v, a), ptr + a);
    } else if v[0].len == 0 {
      SplitSkip(rw, mem, v, ptr, a, b);
      TransferredTwice(rw, mem, v[1..], ptr, a, b);
    } else if v[0].len <= a {
      var n := v[0].len;
      SplitBehind(rw, mem, v, ptr, a, b);
      CopiedSize(rw, mem, v[0].base, ptr, n);
      CutInMemory(v, ptr, a + b, n, |mem|);
      TransferredTwice(rw, Copied(rw, mem, v[0].base, ptr, n), Cut(v, n), ptr + n, a - n, b);
    } else {
      SplitInside(rw, mem, v, ptr, a, b);
      CopiedTwice(rw, mem, v[0].base, ptr, a, Min(v[0].len - a, b));
    }
  }

  ghost predicate CallsAgree(rw: Rw, mem: seq<Byte>, v: seq<Iovec>, ptr: nat, a: nat, b: nat)
    requires a + b <= |Cells(v)|
  {
    InTwo(rw, mem, v, ptr, a, b) == Transferred(rw, mem, v, ptr, a + b)
  }

  /** Within the first buffer: two calls do the same as one, in every memory, exactly if the target does
      not start inside the source. */
  lemma SplitExact(rw: Rw, v: seq<Iovec>, ptr: nat, a: nat, b: nat, n: nat)
    requires v != [] && 0 < a && 0 < b && a + b <= v[0].len && a + b <= |Cells(v)| && InMemory(Cells(v), ptr, a + b, n)
    ensures (forall mem: seq<Byte> :: |mem| == n ==> CallsAgree(rw, mem, v, ptr, a, b)) <==>
            !Inside(Dst(rw, v[0].base, ptr), Src(rw, v[0].base, ptr), a + b)
  {
    var dst, src := Dst(rw, v[0].base, ptr), Src(rw, v[0].base, ptr);
    FrontInMemory(v, ptr, a + b, n, a + b);
    hide Cells, CallsAgree, CopiesAgree, Inside;
    forall mem: seq<Byte> | |mem| == n ensures CallsAgree(rw, mem, v, ptr, a, b) <==> CopiesAgree(mem, dst, src, a, b) {
      OneBufferAgrees(rw, mem, v, ptr, a, b);
    }
    BlitTwiceExact(n, dst, src, a, b);
  }

  lemma OneBufferAgrees(rw: Rw, mem: seq<Byte>, v: seq<Iovec>, ptr: nat, a: nat, b: nat)
    requires v != [] && 0 < a && 0 < b && a + b <= v[0].len && a + b <= |Cells(v)|
    requires InMemory(Cells(v), ptr, a + b, |mem|)
    ensures CallsAgree(rw, mem, v, ptr, a, b) <==>
            CopiesAgree(mem, Dst(rw, v[0].base, ptr), Src(rw, v[0].base, ptr), a, b)
  {
    hide Cells, Blit, Transferred, Advance, InTwo, InMemory;
    OneBuffer(rw, mem, v, ptr, a, b);
  }

  lemma OneBuffer(rw: Rw, mem: seq<Byte>, v: seq<Iovec>, ptr: nat, a: nat, b: nat)
    requires v != [] && 0 < a && 0 < b && a + b <= v[0].len && a + b <= |Cells(v)|
    requires InMemory(Cells(v), ptr, a + b, |mem|)
    ensures InTwo(rw, mem, v, ptr, a, b) == Copied(rw, Copied(rw, mem, v[0].base, ptr, a), v[0].base + a, ptr + a, b)
    ensures Transferred(rw, mem, v, ptr, a + b) == Copied(rw, mem, v[0].base, ptr, a + b)
  {
    hide Cells, Copied, Transferred, Advance, InTwo;
    SplitInside(rw, mem, v, ptr, a, b);
    var w := Cut(v, a + b);
    TransferredNone(rw, Copied(rw, mem, v[0].base, ptr, a + b), w, ptr + a + b);
    TransferredNone(rw, Copied(rw, Copied(rw, mem, v[0].base, ptr, a), v[0].base + a, ptr + a, b), w, ptr + a + b);
  }

  // Each byte of memory after a transfer is some byte of memory before: which one depends on the
  // addresses only.

  ghost predicate Below(at: seq<nat>, n: nat) { forall i :: 0 <= i < |at| ==> at[i] < n }

  /** The bytes at these addresses. */
  function Image(mem: seq<Byte>, at: seq<nat>): (r: seq<Byte>)
    requires Below(at, |mem|)
    ensures |r| == |at| && forall i :: 0 <= i < |at| ==> r[i] == mem[at[i]]
  {
    seq(|at|, i requires 0 <= i < |at| => mem[at[i]])
  }

  lemma CopiedImage(rw: Rw, mem: seq<Byte>, at: seq<nat>, base: nat, ptr: nat, size: nat)
    requires Below(at, |mem|)
    ensures Below(Copied(rw, at, base, ptr, size), |mem|) && |Copied(rw, at, base, ptr, size)| == |at|
    ensures Copied(rw, Image(mem, at), base, ptr, size) == Image(mem, Copied(rw, at, base, ptr, size))
  {
    hide Image;
    var dst, src := Dst(rw, base, ptr), Src(rw, base, ptr);
    if dst + size <= |at| && src + size <= |at| {
      hide Blit;
      BlitSize(at, dst, src, size);
      BlitSize(Image(mem, at), dst, src, size);
      forall x | 0 <= x < |at|
        ensures Blit(at, dst, src, size)[x] < |mem|
        ensures Blit(Image(mem, at), dst, src, size)[x] == mem[Blit(at, dst, src, size)[x]] {
        BlitAt(at, dst, src, size, x);
        BlitAt(Image(mem, at), dst, src, size, x);
      }
    }
  }

  lemma {:induction false} TransferredImage(rw: Rw, mem: seq<Byte>, at: seq<nat>, v: seq<Iovec>, ptr: nat, k: nat)
    requires k <= |Cells(v)| && Below(at, |mem|)
    ensures Below(Transferred(rw, at, v, ptr, k), |mem|) && |Transferred(rw, at, v, ptr, k)| == |at|
    ensures Transferred(rw, Image(mem, at), v, ptr, k) == Image(mem, Transferred(rw, at, v, ptr, k))
    decreases k, |v|
  {
    hide Cells, Copied, Transferred, Image, Below;
    NoCells(v);
    if k == 0 {
      TransferredNone(rw, at, v, ptr);
      TransferredNone(rw, Image(mem, at), v, ptr);
    } else if v[0].len == 0 {
      TransferredSkip(rw, at, v, ptr, k);
      TransferredSkip(rw, Image(mem, at), v, ptr, k);
      TransferredImage(rw, mem, at, v[1..], ptr, k);
    } else {
      var size := Min(v[0].len, k);
      TransferredMove(rw, at, v, ptr, k, size);
      TransferredMove(rw, Image(mem, at), v, ptr, k, size);
      CopiedImage(rw, mem, at, v[0].base, ptr, size);
      TransferredImage(rw, mem, Copied(rw, at, v[0].base, ptr, size), Cut(v, size), ptr + size, k - size);
    }
  }

  lemma InTwoImage(rw: Rw, mem: seq<Byte>, at: seq<nat>, v: seq<Iovec>, ptr: nat, a: nat, b: nat)
    requires a + b <= |Cells(v)| && Below(at, |mem|)
    ensures Below(InTwo(rw, at, v, ptr, a, b), |mem|) && |InTwo(rw, at, v, ptr, a, b)| == |at|
    ensures InTwo(rw, Image(mem, at), v, ptr, a, b) == Image(mem, InTwo(rw, at, v, ptr, a, b))
  {
    hide Cells, Transferred, Image, Below, Advance;
    AdvanceTwice(v, a, b);
    TransferredImage(rw, mem, at, v, ptr, a);
    TransferredImage(rw, mem, Transferred(rw, at, v, ptr, a), Advance(v, a), ptr + a, b);
  }

  /** In general, with any buffers before and after: two calls do the same as one, in every memory,
      exactly if they bring the same addresses to the same places. */
  lemma SplitAddresses(rw: Rw, v: seq<Iovec>, ptr: nat, a: nat, b: nat, n: nat)
    requires a + b <= |Cells(v)|
    ensures (forall mem: seq<Byte> :: |mem| == n ==> CallsAgree(rw, mem, v, ptr, a, b)) <==>
            InTwo(rw, Span(0, n), v, ptr, a, b) == Transferred(rw, Span(0, n), v, ptr, a + b)
  {
    hide Cells, Transferred, InTwo, Span, CallsAgree;
    var p, q := InTwo(rw, Span(0, n), v, ptr, a, b), Transferred(rw, Span(0, n), v, ptr, a + b);
    if p == q {
      forall mem: seq<Byte> | |mem| == n ensures CallsAgree(rw, mem, v, ptr, a, b) {
        AgreeImage(rw, mem, v, ptr, a, b);
      }
    } else {
      AgreeImage(rw, OneAt(n, 0), v, ptr, a, b);
      var mem := TellApart(p, q, n);
      AgreeImage(rw, mem, v, ptr, a, b);
    }
  }

  lemma AgreeImage(rw: Rw, mem: seq<Byte>, v: seq<Iovec>, ptr: nat, a: nat, b: nat)
    requires a + b <= |Cells(v)|
    ensures var at := Span(0, |mem|);
            var p, q := InTwo(rw, at, v, ptr, a, b), Transferred(rw, at, v, ptr, a + b);
            && Below(p, |mem|) && Below(q, |mem|) && |p| == |q| == |mem|
            && (CallsAgree(rw, mem, v, ptr, a, b) <==> Image(mem, p) == Image(mem, q))
  {
    var at := Span(0, |mem|);
    assert Image(mem, at) == mem;
    hide Cells, Transferred, InTwo, Image, Span;
    InTwoImage(rw, mem, at, v, ptr, a, b);
    TransferredImage(rw, mem, at, v, ptr, a + b);
  }

  lemma TellApart(p: seq<nat>, q: seq<nat>, n: nat) returns (mem: seq<Byte>)
    requires Below(p, n) && Below(q, n) && |p| == |q| && p != q
    ensures |mem| == n && Image(mem, p) != Image(mem, q)
  {
    var x :| 0 <= x < |p| && p[x] != q[x];
    mem := OneAt(n, p[x]);
    assert Image(mem, p)[x] == 1 && Image(mem, q)[x] == 0;
  }

  /** Two bytes moved up by one, and the same byte by byte: the first byte arrives twice. */
  lemma SplitShows()
    ensures var mem: seq<Byte>, v := [7, 8, 9], [Iovec(1, 2)];
            && |Cells(v)| == 2 && Transferred(Read, mem, v, 0, 2) == [7, 7, 8]
            && InTwo(Read, mem, v, 0, 1, 1) == [7, 7, 7]
  {
    var mem: seq<Byte>, v := [7, 8, 9], [Iovec(1, 2)];
    CellsStep(v);
    assert v[1..] == [];
    assert Cells(v) == [1, 2];
    hide Cells, Transferred, Advance, InTwo;
    OneBuffer(Read, mem, v, 0, 1, 1);
    assert Blit(mem, 1, 0, 1) == [7, 7, 9];
  }

  // ---------------------------------------------------------------------------
  // The copies themselves
  // ---------------------------------------------------------------------------

  /** memmove, within one memory. */
  method Memmove(mem: array<Byte>, dst: nat, src: nat, size: nat)
    requires dst + size <= mem.Length && src + size <= mem.Length
    modifies mem
    ensures mem[dst..dst + size] == old(mem[src..src + size])
    ensures forall a :: 0 <= a < mem.Length && !(dst <= a < dst + size) ==> mem[a] == old(mem[a])
    ensures mem[..] == Blit(old(mem[..]), dst, src, size)
  {
    hide Blit;
    var bytes := mem[src..src + size];
    for i := 0 to size
      invariant mem[dst..dst + i] == bytes[..i]
      invariant forall a :: 0 <= a < mem.Length && !(dst <= a < dst + i) ==> mem[a] == old(mem[a])
    {
      mem[dst + i] := bytes[i];
    }
    BlitIs(old(mem[..]), mem[..], dst, src, size);
  }

  /** One memmove between ptr and the front of the buffers. */
  lemma ChunkMoved(rw: Rw, was: seq<Byte>, now: seq<Byte>, cells: seq<nat>, ptr: nat, base: nat, size: nat, dst: nat,
                   src: nat)
    requires size <= |cells| && InMemory(cells, ptr, size, |was|) && cells[..size] == Span(base, size) && |now| == |was|
    requires base + size <= |was| && dst == (if rw.Read? then base else ptr) && src == (if rw.Read? then ptr else base)
    requires now[dst..dst + size] == was[src..src + size]
    requires forall a :: 0 <= a < |was| && !(dst <= a < dst + size) ==> now[a] == was[a]
    ensures Moved(rw, was, now, cells, ptr, size)
  {
    forall i | 0 <= i < size ensures cells[i] == base + i && now[dst + i] == was[src + i] {
      assert cells[..size][i] == base + i;
      assert now[dst..dst + size][i] == was[src..src + size][i];
    }
    forall a | base <= a < base + size ensures a in cells[..size] {
      assert cells[..size][a - base] == a;
    }
  }

  lemma CellsInMemory(cells: seq<nat>, ptr: nat, n: nat, size: nat, m: nat, k: nat)
    requires InMemory(cells, ptr, n, size) && m + k <= n && m <= |cells|
    ensures InMemory(cells[m..], ptr + m, k, size) && InMemory(cells, ptr, m + k, size) && InMemory(cells, ptr, m, size)
  {
  }

  lemma SeparateLess(cells: seq<nat>, ptr: nat, n: nat, k: nat)
    requires Separate(cells, ptr, n) && k <= n
    ensures Separate(cells, ptr, k)
  {
  }

  lemma MovedNothing(rw: Rw, mem: seq<Byte>, cells: seq<nat>, ptr: nat)
    requires InMemory(cells, ptr, 0, |mem|)
    ensures Moved(rw, mem, mem, cells, ptr, 0)
  {
  }

  /** The first buffer lies in memory. */
  lemma FrontInMemory(v: seq<Iovec>, ptr: nat, n: nat, mem: nat, size: nat)
    requires InMemory(Cells(v), ptr, n, mem) && v != [] && 0 < size <= v[0].len
    ensures v[0].base + size <= mem
  {
    CellsCut(v, size);
    assert Cells(v)[..size][size - 1] == v[0].base + size - 1;
    assert Cells(v)[size - 1] < mem;
  }

  /** The zeros array of uiomovezeros. */
  ghost predicate ZerosAt(mem: seq<Byte>, zeros: nat)
  {
    zeros + 16 <= |mem| && forall i :: zeros <= i < zeros + 16 ==> mem[i] == 0
  }

  /** The first m cells are zero, and nothing else has changed. */
  ghost predicate Zeroed(was: seq<Byte>, now: seq<Byte>, cells: seq<nat>, m: nat)
    requires m <= |cells| && forall i :: 0 <= i < |cells| ==> cells[i] < |was|
  {
    && |now| == |was| && (forall i :: 0 <= i < m ==> now[cells[i]] == 0)
    && (forall a :: 0 <= a < |was| && a !in cells[..m] ==> now[a] == was[a])
  }

  lemma ZeroedNothing(was: seq<Byte>, cells: seq<nat>)
    requires forall i :: 0 <= i < |cells| ==> cells[i] < |was|
    ensures Zeroed(was, was, cells, 0)
  {
  }

  /** None of the buffers' bytes is among the zeros. */
  ghost predicate Clear(cells: seq<nat>, zeros: nat)
  {
    forall i :: 0 <= i < |cells| ==> !(zeros <= cells[i] < zeros + 16)
  }

  lemma ZeroedTwice(was: seq<Byte>, mid: seq<Byte>, now: seq<Byte>, cells: seq<nat>, m: nat, k: nat)
    requires m + k <= |cells| && forall i :: 0 <= i < |cells| ==> cells[i] < |was| == |mid|
    requires Zeroed(was, mid, cells, m) && Zeroed(mid, now, cells[m..], k)
    ensures Zeroed(was, now, cells, m + k)
  {
    var rest := cells[m..];
    assert cells[..m + k] == cells[..m] + rest[..k];
    forall i | 0 <= i < m + k ensures now[cells[i]] == 0 {
      if i >= m {
        assert rest[i - m] == cells[i];
      } else if cells[i] in rest[..k] {
        var j :| 0 <= j < k && rest[j] == cells[i];
      }
    }
  }

  lemma ZeroedChunk(mem: seq<Byte>, cells: seq<nat>, base: nat, zeros: nat, at: nat, size: nat)
    requires size <= |cells| && cells[..size] == Span(base, size) && base + size <= |mem|
    requires (forall i :: 0 <= i < |cells| ==> cells[i] < |mem|) && Clear(cells, zeros) && ZerosAt(mem, zeros)
    requires zeros <= at && at + size <= zeros + 16
    ensures Zeroed(mem, Blit(mem, base, at, size), cells, size) && ZerosAt(Blit(mem, base, at, size), zeros)
  {
    hide Blit;
    BlitSize(mem, base, at, size);
    var now := Blit(mem, base, at, size);
    forall i | 0 <= i < size ensures cells[i] == base + i && now[cells[i]] == 0 {
      assert cells[..size][i] == base + i;
      BlitAt(mem, base, at, size, base + i);
    }
    forall x | base <= x < base + size ensures x in cells[..size] {
      assert cells[..size][x - base] == x;
    }
    forall x | 0 <= x < |mem| && x !in cells[..size] ensures now[x] == mem[x] {
      BlitAt(mem, base, at, size, x);
    }
    forall x | zeros <= x < zeros + 16 ensures now[x] == 0 {
      assert x !in cells[..size];
    }
  }

  /** A transfer out of the zeros makes its cells zero, also where the buffers overlap each other. */
  lemma {:induction false} ZeroTransfer(mem: seq<Byte>, v: seq<Iovec>, zeros: nat, at: nat, k: nat)
    requires k <= |Cells(v)| && zeros <= at && at + k <= zeros + 16 && ZerosAt(mem, zeros) && Clear(Cells(v), zeros)
    requires forall i :: 0 <= i < |Cells(v)| ==> Cells(v)[i] < |mem|
    ensures var now := Transferred(Read, mem, v, at, k); Zeroed(mem, now, Cells(v), k) && ZerosAt(now, zeros)
    decreases k, |v|
  {
    hide Cells, Blit, Transferred, Zeroed, ZerosAt, Clear;
    NoCells(v);
    if k == 0 {
      TransferredNone(Read, mem, v, at);
      ZeroedNothing(mem, Cells(v));
    } else if v[0].len == 0 {
      TransferredSkip(Read, mem, v, at, k);
      ZeroTransfer(mem, v[1..], zeros, at, k);
    } else {
      var size := Min(v[0].len, k);
      CellsCut(v, size);
      TransferredMove(Read, mem, v, at, k, size);
      FrontInMemory(v, 0, 0, |mem|, size);
      ZeroedChunk(mem, Cells(v), v[0].base, zeros, at, size);
      var mid := Blit(mem, v[0].base, at, size);
      BlitSize(mem, v[0].base, at, size);
      ClearRest(Cells(v), zeros, size);
      ZeroTransfer(mid, Cut(v, size), zeros, at + size, k - size);
      ZeroedTwice(mem, mid, Transferred(Read, mem, v, at, k), Cells(v), size, k - size);
    }
  }

  lemma CellsBelow(cells: seq<nat>, ptr: nat, n: nat, size: nat)
    requires InMemory(cells, ptr, n, size)
    ensures forall i :: 0 <= i < |cells| ==> cells[i] < size
  {
  }

  lemma RestInMemory(cells: seq<nat>, zeros: nat, size: nat, m: nat, k: nat)
    requires InMemory(cells, zeros, 16, size) && m <= |cells| && k <= 16
    ensures InMemory(cells[m..], zeros, k, size)
  {
  }

  lemma ClearRest(cells: seq<nat>, zeros: nat, m: nat)
    requires Clear(cells, zeros) && m <= |cells|
    ensures Clear(cells[m..], zeros)
  {
  }

  lemma ZeroedMore(was: seq<Byte>, mid: seq<Byte>, v: seq<Iovec>, cells: seq<nat>, zeros: nat, m: nat, k: nat)
    requires m + k <= |cells| && k <= 16 && InMemory(cells, zeros, 16, |was|) && Clear(cells, zeros)
    requires Zeroed(was, mid, cells, m) && |mid| == |was| && ZerosAt(mid, zeros) && Cells(v) == cells[m..]
    ensures var now := Transferred(Read, mid, v, zeros, k); Zeroed(was, now, cells, m + k) && ZerosAt(now, zeros)
  {
    hide Cells, Transferred, Zeroed, ZerosAt, Clear;
    ClearRest(cells, zeros, m);
    ZeroTransfer(mid, v, zeros, zeros, k);
    ZeroedTwice(was, mid, Transferred(Read, mid, v, zeros, k), cells, m, k);
  }

  lemma AdvanceNone(v: seq<Iovec>)
    ensures Advance(v, 0) == v && Turns(v, 0) == 0
  {
  }

  lemma AdvanceSkip(v: seq<Iovec>, k: nat)
    requires 0 < k <= |Cells(v)| && v != [] && v[0].len == 0
    ensures k <= |Cells(v[1..])| && Advance(v, k) == Advance(v[1..], k) && Turns(v, k) == Turns(v[1..], k)
  {
    NoCells(v);
  }

  lemma AdvanceMove(v: seq<Iovec>, k: nat, size: nat)
    requires 0 < k <= |Cells(v)| && v != [] && 0 < size == Min(v[0].len, k)
    ensures k - size <= |Cells(Cut(v, size))| && Advance(v, k) == Advance(Cut(v, size), k - size)
    ensures Turns(v, k) == 1 + Turns(Cut(v, size), k - size)
  {
    CellsCut(v, size);
  }

  lemma NoCells(v: seq<Iovec>)
    ensures v == [] ==> |Cells(v)| == 0
    ensures v != [] && v[0].len == 0 ==> Cells(v) == Cells(v[1..])
    ensures v != [] ==> v[0].len <= |Cells(v)|
  {
  }

  // ---------------------------------------------------------------------------
  // The transfer
  // ---------------------------------------------------------------------------

  class Transfer {
    const mem: array<Byte>
    const rw: Rw
    /** uio_segflg: buffers in user space, whose copies can fail. */
    const user: bool
    /** uio_iov is the array from `first` on, uio_iovcnt its length. */
    const iov: array<Iovec>
    var first: nat
    var iovcnt: nat
    var resid: nat
    var offset: nat

    ghost function Left(): seq<Iovec>
      requires first + iovcnt <= iov.Length
      reads this, iov
    {
      iov[first..first + iovcnt]
    }

    /** What the caller owes: the buffers hold exactly uio_resid bytes. */
    ghost predicate Valid()
      reads this, iov
    {
      mem as object != iov && first + iovcnt <= iov.Length && |Cells(Left())| == resid
    }

    /** uio_kinit: one buffer of len bytes at kbuf. */
    constructor Kinit(m: array<Byte>, kbuf: nat, len: nat, pos: nat, mode: Rw)
      ensures Valid() && Cells(Left()) == Span(kbuf, len) && resid == len && offset == pos && mem == m && rw == mode
              && !user
      ensures fresh(iov)
    {
      mem, rw, user, iov := m, mode, false, new Iovec[1](_ => Iovec(kbuf, len));
      first, iovcnt, resid, offset := 0, 1, len, pos;
      new;
      assert Left() == [Iovec(kbuf, len)] && [Iovec(kbuf, len)][1..] == [];
    }

    /** Copies between ptr and the front of the first buffer, whichever way uio_rw says. */
    method CopyChunk(ptr: nat, size: nat)
      requires Valid() && iovcnt > 0 && 0 < size <= iov[first].len && InMemory(Cells(Left()), ptr, size, mem.Length)
      requires size <= |Cells(Left())|
      modifies mem
      ensures Moved(rw, old(mem[..]), mem[..], Cells(Left()), ptr, size)
      ensures mem[..] == Copied(rw, old(mem[..]), iov[first].base, ptr, size)
    {
      hide Cells, Span, Moved, Blit;
      ghost var v, was := Left(), mem[..];
      var base := iov[first].base;
      CellsCut(v, size);
      FrontInMemory(v, ptr, size, mem.Length, size);
      var dst, src := if rw.Read? then base else ptr, if rw.Read? then ptr else base;
      Memmove(mem, dst, src, size);
      ChunkMoved(rw, was, mem[..], Cells(v), ptr, base, size, dst, src);
    }

    /** One turn of uiomove's loop that moves something: `size` bytes, no more than the first
        buffer holds. */
    method MoveChunk(ptr: nat, size: nat)
      requires Valid() && iovcnt > 0 && 0 < size <= iov[first].len && InMemory(Cells(Left()), ptr, size, mem.Length)
      requires size <= |Cells(Left())|
      modifies this`resid, this`offset, iov, mem
      ensures Valid() && Left() == Cut(old(Left()), size) && Cells(Left()) == old(Cells(Left()))[size..]
      ensures resid == old(resid) - size && offset == old(offset) + size
      ensures Moved(rw, old(mem[..]), mem[..], old(Cells(Left())), ptr, size)
      ensures mem[..] == Copied(rw, old(mem[..]), old(Left())[0].base, ptr, size)
    {
      hide Cells, Span, Moved, InMemory, Copied;
      ghost var v := Left();
      CellsCut(v, size);
      CopyChunk(ptr, size);
      iov[first] := Iovec(iov[first].base + size, iov[first].len - size);
      assert Left() == Cut(v, size);
      resid := resid - size;
      offset := offset + size;
    }

    /** The other turn: an empty buffer is dropped, and it is not the last. */
    method DropEmpty()
      requires Valid() && iovcnt > 0 && iov[first].len == 0 && resid > 0
      modifies this`first, this`iovcnt
      ensures Valid() && iovcnt > 0 && iovcnt < old(iovcnt) && Left() == old(Left())[1..]
              && Cells(Left()) == old(Cells(Left()))
    {
      hide Cells;
      NoCells(Left());
      assert iov[first + 1..first + iovcnt] == Left()[1..];
      first := first + 1;
      iovcnt := iovcnt - 1;
      NoCells(Left());
    }

    /** m of k bytes have been moved, in so many turns, since the iovecs were v and memory `was`. */
    ghost predicate Halfway(v: seq<Iovec>, was: seq<Byte>, ptr: nat, k: nat, m: nat, turn: nat)
      reads this, iov, mem
    {
      && Valid() && m <= k <= |Cells(v)| && resid == |Cells(v)| - m && |was| == mem.Length
      && Cells(Left()) == Cells(v)[m..] && Advance(Left(), k - m) == Advance(v, k)
      && turn + Turns(Left(), k - m) == Turns(v, k)
      && Transferred(rw, mem[..], Left(), ptr + m, k - m) == Transferred(rw, was, v, ptr, k)
      && InMemory(Cells(v), ptr, k, |was|) && InMemory(Cells(v), ptr, m, |was|)
      && (Separate(Cells(v), ptr, k) ==> Moved(rw, was, mem[..], Cells(v), ptr, m))
    }

    /** A turn that moves something. */
    method MovingTurn(at: nat, size: nat, ghost v: seq<Iovec>, ghost was: seq<Byte>, ghost ptr: nat, ghost k: nat,
                      ghost m: nat, ghost turn: nat)
      requires Halfway(v, was, ptr, k, m, turn) && iovcnt > 0 && at == ptr + m && 0 < size == Min(iov[first].len, k - m)
      modifies this`resid, this`offset, iov, mem
      ensures Halfway(v, was, ptr, k, m + size, turn + 1) && offset == old(offset) + size
    {
      hide Cells, Moved, Separate, Advance, Turns, Transferred, Copied, InMemory;
      ghost var mid := mem[..];
      NoCells(Left());
      AdvanceMove(Left(), k - m, size);
      TransferredMove(rw, mid, Left(), at, k - m, size);
      CellsInMemory(Cells(v), ptr, k, mem.Length, m, size);
      MoveChunk(at, size);
      if Separate(Cells(v), ptr, k) {
        SeparateLess(Cells(v), ptr, k, m + size);
        MovedTwice(rw, was, mid, mem[..], Cells(v), ptr, m, size);
      }
      assert Cells(v)[m..][size..] == Cells(v)[m + size..];
    }

    /** A copy that fails half way moves some bytes but counts none. */
    method PartOfChunk(at: nat, j: nat, ghost v: seq<Iovec>, ghost was: seq<Byte>, ghost ptr: nat, ghost k: nat,
                       ghost m: nat, ghost turn: nat)
      requires Halfway(v, was, ptr, k, m, turn) && iovcnt > 0 && at == ptr + m && j <= iov[first].len && m + j <= k
      modifies mem
      ensures InMemory(Cells(v), ptr, m + j, |was|) && mem.Length == |was|
      ensures Separate(Cells(v), ptr, k) ==> Moved(rw, was, mem[..], Cells(v), ptr, m + j)
    {
      hide Cells, Moved, Separate, Advance, Turns, Transferred, Copied, InMemory;
      CellsInMemory(Cells(v), ptr, k, mem.Length, m, j);
      if j > 0 {
        ghost var mid := mem[..];
        NoCells(Left());
        CopyChunk(at, j);
        if Separate(Cells(v), ptr, k) {
          SeparateLess(Cells(v), ptr, k, m + j);
          MovedTwice(rw, was, mid, mem[..], Cells(v), ptr, m, j);
        }
      }
    }

    /** A turn that drops an empty buffer. */
    method SkipTurn(ghost v: seq<Iovec>, ghost was: seq<Byte>, ghost ptr: nat, ghost k: nat, ghost m: nat,
                    ghost turn: nat)
      requires Halfway(v, was, ptr, k, m, turn) && iovcnt > 0 && iov[first].len == 0 && m < k
      modifies this`first, this`iovcnt
      ensures Halfway(v, was, ptr, k, m, turn) && iovcnt < old(iovcnt)
    {
      hide Cells, Moved, Separate, Advance, Turns, Transferred, Copied, InMemory;
      AdvanceSkip(Left(), k - m);
      TransferredSkip(rw, mem[..], Left(), ptr + m, k - m);
      DropEmpty();
    }

    /** How things stand when a copy has failed: m bytes are counted, and `extra` more were moved. */
    ghost predicate Broken(v: seq<Iovec>, was: seq<Byte>, ptr: nat, k: nat, m: nat, extra: nat)
      reads this, iov, mem
    {
      && Valid() && m < k <= |Cells(v)| && m + extra <= k && resid == |Cells(v)| - m && |was| == mem.Length
      && Cells(Left()) == Cells(v)[m..] && InMemory(Cells(v), ptr, m + extra, |was|)
      && (Separate(Cells(v), ptr, k) ==> Moved(rw, was, mem[..], Cells(v), ptr, m + extra))
    }

    /** A turn that copies, which fails after some bytes if it is to. */
    method CopyTurn(at: nat, size: nat, fails: bool, after: nat, ghost v: seq<Iovec>, ghost was: seq<Byte>,
                    ghost ptr: nat, ghost k: nat, ghost m: nat, ghost turn: nat) returns (part: nat)
      requires Halfway(v, was, ptr, k, m, turn) && iovcnt > 0 && at == ptr + m && 0 < size == Min(iov[first].len, k - m)
      modifies this`resid, this`offset, iov, mem
      ensures !fails ==> Halfway(v, was, ptr, k, m + size, turn + 1) && offset == old(offset) + size
      ensures fails ==> Broken(v, was, ptr, k, m, part) && part <= after && offset == old(offset) && turn < Turns(v, k)
    {
      hide Cells, Moved, Separate, Advance, Turns, Transferred, Copied, InMemory;
      part := Min(after, size);
      if fails {
        AdvanceMove(Left(), k - m, size);
        PartOfChunk(at, part, v, was, ptr, k, m, turn);
      } else {
        MovingTurn(at, size, v, was, ptr, k, m, turn);
      }
    }

    /** uiomove between the n bytes at ptr and the buffers. The buffers never run out before
        uio_resid does, and uio_offset + uio_resid stays the same. When a copy fails, what has been
        counted is what was moved before it, and `extra` bytes more may have been moved. */
    method Uiomove(ptr: nat, n: nat, fault: Option<Fault>) returns (failed: bool, ghost extra: nat)
      requires Valid() && InMemory(Cells(Left()), ptr, Min(n, resid), mem.Length)
      modifies this`first, this`iovcnt, this`resid, this`offset, iov, mem
      ensures failed <==> user && fault.Some? && fault.value.turn < Turns(old(Left()), Min(n, old(resid)))
      ensures resid <= old(resid) && offset == old(offset) + (old(resid) - resid)
      ensures failed ==> extra <= fault.value.after
      ensures failed ==> Broken(old(Left()), old(mem[..]), ptr, Min(n, old(resid)), old(resid) - resid, extra)
      ensures !failed ==> Valid() && old(resid) - resid == Min(n, old(resid))
      ensures !failed ==> Left() == Advance(old(Left()), Min(n, old(resid)))
      ensures !failed ==> mem[..] == Transferred(rw, old(mem[..]), old(Left()), ptr, Min(n, old(resid)))
      ensures !failed && Separate(old(Cells(Left())), ptr, Min(n, old(resid))) ==>
                Moved(rw, old(mem[..]), mem[..], old(Cells(Left())), ptr, Min(n, old(resid)))
    {
      hide Cells, Moved, Separate, Advance, Turns, Transferred, Copied, InMemory, Go;
      ghost var v, was, k := Left(), mem[..], Min(n, resid);
      ghost var m := 0;
      CellsInMemory(Cells(v), ptr, k, mem.Length, 0, 0);
      MovedNothing(rw, was, Cells(v), ptr);
      assert Cells(v)[0..] == Cells(v);
      var at, todo, turn := ptr, n, 0;
      failed, extra := false, 0;
      while todo > 0 && resid > 0
        invariant user && fault.Some? ==> turn <= fault.value.turn
        invariant Halfway(v, was, ptr, k, m, turn) && at == ptr + m && todo == n - m && offset == old(offset) + m
        decreases todo, iovcnt
      {
        NoCells(Left());
        var size := Min(iov[first].len, todo);
        if size == 0 {
          SkipTurn(v, was, ptr, k, m, turn);
        } else {
          failed := user && fault.Some? && fault.value.turn == turn;
          extra := CopyTurn(at, size, failed, if failed then fault.value.after else 0, v, was, ptr, k, m, turn);
          if failed {
            return;
          }
          m := m + size;
          at := at + size;
          todo := todo - size;
          turn := turn + 1;
        }
      }
      AdvanceNone(Left());
      TransferredNone(rw, mem[..], Left(), ptr + m);
    }

    /** uiomove when no copy fails, as in kernel space. */
    method UiomoveAll(ptr: nat, n: nat)
      requires Valid() && InMemory(Cells(Left()), ptr, Min(n, resid), mem.Length)
      modifies this`first, this`iovcnt, this`resid, this`offset, iov, mem
      ensures Valid() && resid == old(resid) - Min(n, old(resid)) && offset == old(offset) + Min(n, old(resid))
      ensures mem[..] == Transferred(rw, old(mem[..]), old(Left()), ptr, Min(n, old(resid)))
      ensures old(iovcnt) > 0 && old(resid) < WORD ==>
                Go(old(Left()), old(resid), n) == End(Left(), resid, Min(n, old(resid)), false)
      ensures Left() == Advance(old(Left()), Min(n, old(resid)))
      ensures Separate(old(Cells(Left())), ptr, Min(n, old(resid))) ==>
                Moved(rw, old(mem[..]), mem[..], old(Cells(Left())), ptr, Min(n, old(resid)))
    {
      hide Cells, Moved, Separate, Advance, Turns, Transferred, Copied, InMemory, Go;
      if iovcnt > 0 && resid < WORD {
        GoRight(Left(), n);
      }
      var _, _ := Uiomove(ptr, n, None);
    }

    /** uiomovezeros: `zeros` is the address of 16 zero bytes. */
    method Uiomovezeros(n: nat, zeros: nat)
      requires Valid() && rw.Read? && InMemory(Cells(Left()), zeros, 16, mem.Length)
      requires Clear(Cells(Left()), zeros) && ZerosAt(mem[..], zeros)
      modifies this`first, this`iovcnt, this`resid, this`offset, iov, mem
      ensures Valid() && resid == old(resid) - Min(n, old(resid)) && offset == old(offset) + Min(n, old(resid))
      ensures Left() == Advance(old(Left()), Min(n, old(resid)))
      ensures Zeroed(old(mem[..]), mem[..], old(Cells(Left())), Min(n, old(resid)))
    {
      hide Cells, Moved, Separate, Advance, Turns, Transferred, Copied, Zeroed, ZerosAt, Clear, Go, InMemory;
      ghost var v, was, cells := Left(), mem[..], Cells(Left());
      ghost var m := 0;
      CellsBelow(cells, zeros, 16, mem.Length);
      ZeroedNothing(was, cells);
      AdvanceNone(v);
      assert cells[0..] == cells;
      var todo: nat := n;
      while todo > 0
        invariant Valid() && todo <= n && m == Min(n - todo, |cells|) && resid == |cells| - m
                  && offset == old(offset) + m
        invariant Left() == Advance(v, m) && Cells(Left()) == cells[m..]
        invariant InMemory(cells, zeros, 16, mem.Length) && |was| == mem.Length && Zeroed(was, mem[..], cells, m)
        invariant ZerosAt(mem[..], zeros)
        decreases todo
      {
        var amt := Min(16, todo);
        ghost var mid, k := mem[..], Min(amt, resid);
        AdvanceTwice(v, m, k);
        CellsAdvance(v, m + k);
        RestInMemory(cells, zeros, mem.Length, m, k);
        ZeroedMore(was, mid, Left(), cells, zeros, m, k);
        UiomoveAll(zeros, amt);
        m := m + k;
        todo := todo - amt;
      }
    }
  }

  /** Moving a bytes and then the b bytes after them leaves the same uio as moving a + b bytes at once,
      and the same memory where stopping in between is harmless. */
  method MoveInTwo(t: Transfer, ptr: nat, a: nat, b: nat)
    requires t.Valid() && InMemory(Cells(t.Left()), ptr, Min(a + b, t.resid), t.mem.Length)
    modifies t`first, t`iovcnt, t`resid, t`offset, t.iov, t.mem
    ensures t.Valid() && t.resid == old(t.resid) - Min(a + b, old(t.resid))
    ensures t.offset == old(t.offset) + Min(a + b, old(t.resid))
    ensures t.Left() == Advance(old(t.Left()), Min(a + b, old(t.resid)))
    ensures var m, n := Min(a, old(t.resid)), Min(a + b, old(t.resid));
            && t.mem[..] == InTwo(t.rw, old(t.mem[..]), old(t.Left()), ptr, m, n - m)
            && (SplitOk(t.rw, old(t.Left()), ptr, m, n - m) ==>
                  t.mem[..] == Transferred(t.rw, old(t.mem[..]), old(t.Left()), ptr, n))
    ensures Separate(old(Cells(t.Left())), ptr, Min(a + b, old(t.resid))) ==>
              Moved(t.rw, old(t.mem[..]), t.mem[..], old(Cells(t.Left())), ptr, Min(a + b, old(t.resid)))
  {
    hide Cells, Moved, Separate, Advance, Turns, Transferred, Copied, InMemory, SplitOk, Go;
    ghost var v, was, cells := t.Left(), t.mem[..], Cells(t.Left());
    ghost var n := Min(a + b, t.resid);
    ghost var m := Min(a, t.resid);
    CellsInMemory(cells, ptr, n, t.mem.Length, m, n - m);
    AdvanceTwice(v, m, n - m);
    CellsAdvance(v, m);
    t.UiomoveAll(ptr, a);
    ghost var mid := t.mem[..];
    if b > 0 && t.resid > 0 {
      t.UiomoveAll(ptr + a, b);
    } else {
      AdvanceNone(t.Left());
      TransferredNone(t.rw, mid, t.Left(), ptr + m);
    }
    if SplitOk(t.rw, v, ptr, m, n - m) {
      TransferredTwice(t.rw, was, v, ptr, m, n - m);
    }
    if Separate(cells, ptr, n) {
      SeparateLess(cells, ptr, n, m);
      SeparateRest(cells, ptr, n, m);
      if n > m {
        MovedTwice(t.rw, was, mid, t.mem[..], cells, ptr, m, n - m);
      }
    }
  }

  lemma SeparateRest(cells: seq<nat>, ptr: nat, n: nat, m: nat)
    requires Separate(cells, ptr, n) && m <= n && m <= |cells|
    ensures Separate(cells[m..], ptr + m, n - m)
  {
  }
}
