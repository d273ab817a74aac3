/** The growable ring buffer of queue.c, as a sequence. */
module RingQueue {
  import opened Basics
  import K = KmallocState

  /** How an operation ends: done, out of memory, stopped by an assertion, or writing past the end
      of the block it got from kmalloc, after which nothing is known. */
  datatype Outcome = Done | NoMemory | Halted | Overran

  /** The most elements for which kmalloc has room. */
  const ROOM := 0x3fff_fc00

  /** The bytes asked for n pointers, counted in a 32-bit word. */
  function Bytes(n: int): nat { n * 4 % WORD }

  /** The pointers that fit in the block kmalloc gives for that. */
  function Slots(n: int): nat { K.RoomFor(Bytes(n)) / 4 }

  /** The block holds what the size says exactly up to ROOM. Above it the bytes for the pages, or the
      bytes themselves, no longer fit a word, and the block is much too small. */
  lemma SlotsExact(n: nat)
    requires n <= INT_MAX
    ensures Slots(n) >= n <==> n <= ROOM
    ensures ROOM < n < 0x4000_0000 || n >= 0x7fff_fc01 ==> Slots(n) == 0
    ensures 0x4000_0000 <= n ==> Slots(n) <= ROOM && (Slots(n) <= 512 || Slots(n) <= n - 0x4000_0000 + 1023)
  {
    hide Slots, Bytes, K.RoomFor;
    BytesIs(n);
    RoundedUp(Bytes(n));
    SlotsIs(n);
  }

  lemma BytesIs(n: nat)
    requires n <= INT_MAX
    ensures Bytes(n) == if n < 0x4000_0000 then 4 * n else 4 * (n - 0x4000_0000)
  {
  }

  lemma SlotsIs(n: nat)
    ensures Slots(n) == K.RoomFor(Bytes(n)) / 4
  {
  }

  /** kmalloc's rounding. */
  lemma RoundedUp(b: nat)
    requires b < WORD
    ensures b <= WORD - 4096 ==> b <= K.RoomFor(b) && (K.RoomFor(b) <= 2048 || K.RoomFor(b) <= b + 4095)
    ensures b > WORD - 4096 ==> K.RoomFor(b) == 0
    ensures K.RoomFor(b) <= WORD - 4096
  {
    hide K.Size;
  }

  /** How many positions from r up to w, going round n. */
  function Span(n: nat, r: nat, w: nat): (len: nat)
    requires r < n && w < n
    ensures len < n
  {
    if r <= w then w - r else n - r + w
  }

  /** The k-th position after r. */
  function Place(n: nat, r: nat, k: nat): (i: nat)
    requires r < n && k < n
    ensures i < n
  {
    if r + k < n then r + k else r + k - n
  }

  /** The elements from position r up to position w, going round. */
  function Ring<T>(d: seq<T>, r: nat, w: nat): (s: seq<T>)
    requires r < |d| && w < |d|
    ensures |s| == Span(|d|, r, w) && forall k :: 0 <= k < |s| ==> s[k] == d[Place(|d|, r, k)]
  {
    seq(Span(|d|, r, w), k requires 0 <= k < Span(|d|, r, w) => d[Place(|d|, r, k)])
  }

  function Next(i: nat, size: nat): (j: nat)
    requires i < size
    ensures j == if i + 1 < size then i + 1 else 0
  {
    (i + 1) % size
  }

  lemma RingPush<T>(d: seq<T>, r: nat, w: nat, x: T)
    requires r < |d| && w < |d| && Next(w, |d|) != r
    ensures Ring(d[w := x], r, Next(w, |d|)) == Ring(d, r, w) + [x]
  {
    hide Ring, Next;
    var s := Ring(d[w := x], r, Next(w, |d|));
    forall k | 0 <= k < |s| ensures s[k] == (Ring(d, r, w) + [x])[k] {
    }
  }

  lemma RingStep<T>(d: seq<T>, r: nat, w: nat)
    requires r < |d| && w < |d| && r != w
    ensures Ring(d, r, w) == [d[r]] + Ring(d, Next(r, |d|), w)
  {
    hide Ring, Next;
    var s := Ring(d, r, w);
    forall k | 0 <= k < |s| ensures s[k] == ([d[r]] + Ring(d, Next(r, |d|), w))[k] {
    }
  }

  lemma RingBefore<T>(d: seq<T>, r: nat, i: nat)
    requires r < |d| && i < |d| && Next(i, |d|) != r
    ensures Ring(d, r, Next(i, |d|)) == Ring(d, r, i) + [d[i]]
  {
    RingPush(d, r, i, d[i]);
    assert d[i := d[i]] == d;
  }

  lemma RoomToCopy<T>(d: seq<T>, r: nat, i: nat, w: nat)
    requires r < |d| && i < |d| && w < |d| && Span(|d|, r, i) + Span(|d|, i, w) == Span(|d|, r, w) && i != w
    ensures Next(i, |d|) != r && |Ring(d, r, i)| < |Ring(d, r, w)| < |d|
    ensures Span(|d|, r, Next(i, |d|)) == Span(|d|, r, i) + 1 && Span(|d|, Next(i, |d|), w) == Span(|d|, i, w) - 1
  {
    hide Ring, Next;
  }

  /** The size q_grow settles on: doubled until it reaches the target. */
  function Doubled(size: nat, target: int): (n: nat)
    requires size > 0
    ensures n >= target && n >= size && (n > size ==> n < 2 * target)
    decreases target - size
  {
    if size >= target then size else Doubled(2 * size, target)
  }

  /** The doubling loop; 0 stands for the assertion that stops it when the size overflows an int. */
  method GrownSize(size: nat, target: int) returns (n: nat)
    requires 0 < size <= INT_MAX
    ensures n == if Doubled(size, target) <= INT_MAX then Doubled(size, target) else 0
  {
    n := size;
    while n < target
      invariant size <= n <= INT_MAX && Doubled(n, target) == Doubled(size, target)
    {
      n := n * 2;
      if n > INT_MAX {
        return 0;
      }
    }
  }

  // ---------------------------------------------------------------------------
  // What the operations come to
  // ---------------------------------------------------------------------------

  /** The elements, the size and the write position. */
  datatype View<T> = View(contents: seq<T>, size: nat, at: nat)

  datatype Op<T> = Add(x: T, memory: bool) | Remove | Reserve(n: int, memory: bool)

  datatype Step<T> = Step(view: View<T>, r: Outcome, removed: seq<T>)

  /** One slot always stays empty. */
  predicate IsFull<T>(v: View<T>) { |v.contents| + 1 == v.size }

  function NewView<T>(n: nat): View<T> { View([], n, 0) }

  ghost predicate ViewOk<T>(v: View<T>)
  {
    && 0 < v.size <= INT_MAX && v.at < v.size && |v.contents| < v.size
    && (v.size > ROOM ==> |v.contents| <= v.at <= Slots(v.size))
  }

  function Growth<T>(v: View<T>, target: int, memory: bool): (s: Step<T>)
    requires v.size > 0
    ensures s.removed == []
  {
    var n := Doubled(v.size, target);
    if n > INT_MAX then Step(v, Halted, [])
    else if !memory then Step(v, NoMemory, [])
    else if |v.contents| > Slots(n) then Step(v, Overran, [])
    else Step(View(v.contents, n, |v.contents|), Done, [])
  }

  function Put<T>(v: View<T>, x: T): (s: Step<T>)
    requires v.at < v.size
    ensures s.removed == []
  {
    if v.at >= Slots(v.size) then Step(v, Overran, [])
    else Step(View(v.contents + [x], v.size, Next(v.at, v.size)), Done, [])
  }

  function Act<T>(v: View<T>, op: Op<T>): (s: Step<T>)
    requires ViewOk(v)
  {
    match op
    case Add(x, memory) =>
      if !IsFull(v) then Put(v, x)
      else
        var g := Growth(v, v.size + 1, memory);
        if g.r.Done? then Put(g.view, x) else g
    case Remove =>
      if v.contents == [] then Step(v, Halted, []) else Step(v.(contents := v.contents[1..]), Done, [v.contents[0]])
    case Reserve(n, memory) => if n > v.size then Growth(v, n, memory) else Step(v, Done, [])
  }

  lemma GrowthKeeps<T>(v: View<T>, target: int, memory: bool)
    requires ViewOk(v) && target > v.size
    ensures var g := Growth(v, target, memory); ViewOk(g.view) && (g.r.Done? ==> !IsFull(g.view))
  {
    hide Slots;
    SlotsExact(v.size);
    if Doubled(v.size, target) <= INT_MAX {
      SlotsExact(Doubled(v.size, target));
    }
  }

  lemma PutKeeps<T>(v: View<T>, x: T)
    requires ViewOk(v) && !IsFull(v)
    ensures ViewOk(Put(v, x).view)
  {
    hide Slots;
    SlotsExact(v.size);
  }

  lemma ActKeeps<T>(v: View<T>, op: Op<T>)
    requires ViewOk(v)
    ensures ViewOk(Act(v, op).view)
  {
    hide Growth, Put, Slots;
    SlotsExact(v.size);
    match op {
      case Add(x, memory) =>
        if IsFull(v) {
          GrowthKeeps(v, v.size + 1, memory);
          var g := Growth(v, v.size + 1, memory);
          if g.r.Done? {
            PutKeeps(g.view, x);
          }
        } else {
          PutKeeps(v, x);
        }
      case Remove =>
      case Reserve(n, memory) =>
        if n > v.size {
          GrowthKeeps(v, n, memory);
        }
    }
  }

  /** When appending overruns the block: a full queue whose doubling exceeds ROOM, or a queue above
      ROOM whose write position has come to the end of the block. */
  lemma AddExact<T>(v: View<T>, x: T, memory: bool)
    requires ViewOk(v)
    ensures Act(v, Add(x, memory)).r ==
            if v.size > ROOM then (if v.at < Slots(v.size) then Done else Overran)
            else if !IsFull(v) then Done
            else if !memory then NoMemory
            else if v.size <= ROOM / 2 then Done
            else Overran
  {
    hide Slots;
    SlotsExact(v.size);
    if v.size <= ROOM {
      assert Doubled(v.size, v.size + 1) == 2 * v.size;
      SlotsExact(2 * v.size);
    }
  }

  /** Preallocation that reports success has the room asked for exactly if the new size is at most ROOM. */
  lemma ReserveExact<T>(v: View<T>, n: int)
    requires ViewOk(v) && n > v.size && Act(v, Reserve(n, true)).r.Done?
    ensures Slots(Act(v, Reserve(n, true)).view.size) >= n <==> Doubled(v.size, n) <= ROOM
  {
    hide Slots;
    SlotsExact(Doubled(v.size, n));
  }

  lemma FourSlots()
    ensures Bytes(0x4000_0000) == 0 && Slots(0x4000_0000) == 4
  {
    assert K.RoomFor(0) == 16;
  }

  /** The same addition k times. */
  function Many<T>(x: T, k: nat): seq<Op<T>> { seq(k, _ => Add(x, true)) }

  /** A queue of 2^30 elements takes four. */
  lemma {:induction false} FourFit<T>(x: T, k: nat)
    requires k <= 4 && Slots(0x4000_0000) == 4 && ViewOk(NewView<T>(0x4000_0000))
    ensures var t := RunOf(NewView(0x4000_0000), Many(x, k));
            && t.outcomes == seq(k, _ => Done)
            && t.view.size == 0x4000_0000 && t.view.at == |t.view.contents| == k
  {
    hide Slots;
    if k > 0 {
      FourFit(x, k - 1);
      assert Many(x, k)[..k - 1] == Many(x, k - 1);
      var outs: seq<Outcome> := seq(k - 1, _ => Done);
      assert outs + [Done] == seq(k, _ => Done);
    }
  }

  /** Queues that can be made and cannot be used. For 2^30 - 1 elements kmalloc counts 0 pages, and the
      first addition runs over. For 2^30 it is asked for 0 bytes and gives 16, and the fifth does. */
  lemma TooSmall<T>(x: T)
    ensures Slots(0x3fff_ffff) == 0 && ViewOk(NewView<T>(0x3fff_ffff)) && ViewOk(NewView<T>(0x4000_0000))
    ensures Act(NewView(0x3fff_ffff), Add(x, true)).r == Overran
    ensures Bytes(0x4000_0000) == 0 && Slots(0x4000_0000) == 4
    ensures RunOf(NewView(0x4000_0000), Many(x, 5)).outcomes == seq(4, _ => Done) + [Overran]
  {
    FourSlots();
    NoneFit(x);
    hide Slots, Bytes;
    FourFit(x, 4);
    assert Many(x, 5)[..4] == Many(x, 4);
  }

  lemma NoneFit<T>(x: T)
    ensures Slots(0x3fff_ffff) == 0 && ViewOk(NewView<T>(0x3fff_ffff)) && ViewOk(NewView<T>(0x4000_0000))
    ensures Act(NewView(0x3fff_ffff), Add(x, true)).r == Overran
  {
    hide Slots;
    SlotsExact(0x3fff_ffff);
  }

  lemma RunNone<T>(v: View<T>)
    requires ViewOk(v)
    ensures RunOf(v, []) == Trace(v, [], [], [])
  {
  }

  // ---------------------------------------------------------------------------
  // Runs
  // ---------------------------------------------------------------------------

  datatype Trace<T> = Trace(view: View<T>, outcomes: seq<Outcome>, added: seq<T>, removed: seq<T>)

  /** A failed assertion or an overrun ends the run. */
  predicate Stopped(outcomes: seq<Outcome>)
  {
    outcomes != [] && (outcomes[|outcomes| - 1].Halted? || outcomes[|outcomes| - 1].Overran?)
  }

  function Extend<T>(t: Trace<T>, op: Op<T>, s: Step<T>): Trace<T>
  {
    Trace(s.view, t.outcomes + [s.r], t.added + (if op.Add? && s.r.Done? then [op.x] else []), t.removed + s.removed)
  }

  function RunOf<T>(v: View<T>, ops: seq<Op<T>>): (t: Trace<T>)
    requires ViewOk(v)
    ensures ViewOk(t.view)
  {
    if ops == [] then Trace(v, [], [], [])
    else
      var t := RunOf(v, ops[..|ops| - 1]);
      var op := ops[|ops| - 1];
      if Stopped(t.outcomes) then t else ActKeeps(t.view, op); Extend(t, op, Act(t.view, op))
  }

  lemma ActFifo<T>(v: View<T>, op: Op<T>)
    requires ViewOk(v)
    ensures var s := Act(v, op);
            v.contents + (if op.Add? && s.r.Done? then [op.x] else []) == s.removed + s.view.contents
  {
  }

  lemma AddAppends<T>(v: View<T>, x: T, memory: bool)
    requires ViewOk(v)
    ensures Act(v, Add(x, memory)).view.contents == v.contents + if Act(v, Add(x, memory)).r.Done? then [x] else []
  {
  }

  /** What was there, followed by what was put in, is what came out, followed by what is there now. */
  lemma {:induction false} Fifo<T>(v: View<T>, ops: seq<Op<T>>)
    requires ViewOk(v)
    ensures var t := RunOf(v, ops); v.contents + t.added == t.removed + t.view.contents
  {
    hide ViewOk, Act;
    if ops != [] {
      Fifo(v, ops[..|ops| - 1]);
      var t, op := RunOf(v, ops[..|ops| - 1]), ops[|ops| - 1];
      ActFifo(t.view, op);
      var more := if op.Add? && Act(t.view, op).r.Done? then [op.x] else [];
      Regroup(v.contents, t.added, t.removed, t.view.contents, more, Act(t.view, op).removed,
              Act(t.view, op).view.contents);
    }
  }

  lemma Regroup<T>(a: seq<T>, b: seq<T>, c: seq<T>, d: seq<T>, more: seq<T>, out: seq<T>, d': seq<T>)
    requires a + b == c + d && d + more == out + d'
    ensures a + (b + more) == (c + out) + d'
  {
    assert a + (b + more) == (a + b) + more;
    assert (c + d) + more == c + (d + more);
    assert c + (out + d') == (c + out) + d';
  }

  function Adds<T>(ops: seq<Op<T>>): nat
  {
    if ops == [] then 0 else Adds(ops[..|ops| - 1]) + if ops[|ops| - 1].Add? then 1 else 0
  }

  /** Whole runs that hold at most half of ROOM elements, and preallocate no more than that, stay within
      their blocks. */
  lemma {:induction false} NeverOverruns<T>(v: View<T>, ops: seq<Op<T>>)
    requires ViewOk(v) && v.size <= ROOM && |v.contents| + Adds(ops) <= ROOM / 2
    requires forall i :: 0 <= i < |ops| && ops[i].Reserve? ==> ops[i].n <= ROOM / 2
    ensures var t := RunOf(v, ops);
            Overran !in t.outcomes && t.view.size <= ROOM && |t.view.contents| <= |v.contents| + Adds(ops)
  {
    if ops != [] {
      var n := |ops| - 1;
      assert forall i :: 0 <= i < n ==> ops[..n][i] == ops[i];
      NeverOverruns(v, ops[..n]);
      var t := RunOf(v, ops[..n]);
      if !Stopped(t.outcomes) {
        ActWithin(t.view, ops[n]);
      }
    }
  }

  lemma ActWithin<T>(v: View<T>, op: Op<T>)
    requires ViewOk(v) && v.size <= ROOM && |v.contents| + (if op.Add? then 1 else 0) <= ROOM / 2
    requires op.Reserve? ==> op.n <= ROOM / 2
    ensures var s := Act(v, op);
            !s.r.Overran? && s.view.size <= ROOM && |s.view.contents| <= |v.contents| + if op.Add? then 1 else 0
  {
    hide Slots;
    SlotsExact(v.size);
    if op.Add? {
      AddExact(v, op.x, op.memory);
      assert Doubled(v.size, v.size + 1) == 2 * v.size;
    } else if op.Reserve? && op.n > v.size && Doubled(v.size, op.n) <= INT_MAX {
      SlotsExact(Doubled(v.size, op.n));
    }
  }

  lemma {:induction false} RunStep<T>(v: View<T>, ops: seq<Op<T>>, i: nat)
    requires ViewOk(v) && i < |ops| && !Stopped(RunOf(v, ops[..i]).outcomes)
    ensures var t := RunOf(v, ops[..i]); RunOf(v, ops[..i + 1]) == Extend(t, ops[i], Act(t.view, ops[i]))
  {
    hide Act, Extend, Stopped, ViewOk;
    var os := ops[..i + 1];
    assert os[..|os| - 1] == ops[..i] && os[|os| - 1] == ops[i];
    var t := RunOf(v, os[..|os| - 1]);
    assert RunOf(v, os) == Extend(t, os[|os| - 1], Act(t.view, os[|os| - 1]));
  }

  lemma {:induction false} StopsThere<T>(v: View<T>, ops: seq<Op<T>>, i: nat)
    requires ViewOk(v) && i <= |ops| && Stopped(RunOf(v, ops[..i]).outcomes)
    ensures RunOf(v, ops) == RunOf(v, ops[..i])
  {
    if i == |ops| {
      assert ops[..i] == ops;
    } else {
      assert ops[..|ops| - 1][..i] == ops[..i];
      StopsThere(v, ops[..|ops| - 1], i);
    }
  }

  // ---------------------------------------------------------------------------
  // The program
  // ---------------------------------------------------------------------------

  class Queue<T(0)> {
    var size: int
    var nextwrite: nat
    var nextread: nat
    /** The block from kmalloc. */
    var data: array<T>

    ghost predicate Valid()
      reads this
    {
      && 0 < size <= INT_MAX && data.Length == Slots(size) && nextwrite < size && nextread < size
      && (if size <= ROOM then size <= data.Length else nextread <= nextwrite <= data.Length < size - 1)
    }

    /** What is in the queue, first in first. */
    ghost function Contents(): seq<T>
      requires Valid()
      reads this, data
    {
      if size <= ROOM then Ring(data[..size], nextread, nextwrite) else data[nextread..nextwrite]
    }

    ghost function ViewNow(): (v: View<T>)
      requires Valid()
      reads this, data
      ensures ViewOk(v)
    {
      View(Contents(), size, nextwrite)
    }

    /** q_create, when there is memory for it. It takes any int, but every operation that uses the
        block asserts that the size is positive. */
    constructor (n: int)
      requires -INT_MAX - 1 <= n <= INT_MAX
      ensures fresh(data) && size == n && nextread == nextwrite == 0 && data.Length == Slots(n)
      ensures Valid() <==> n >= 1
      ensures n >= 1 ==> ViewNow() == NewView(n)
    {
      if n >= 1 {
        SlotsExact(n);
      }
      hide Slots;
      size, nextread, nextwrite, data := n, 0, 0, new T[Slots(n)];
    }

    method Empty() returns (b: bool)
      requires Valid()
      ensures b <==> Contents() == []
    {
      b := nextwrite == nextread;
    }

    /** The write at the end of q_addtail, with the position after it. */
    method Store(x: T) returns (r: Outcome)
      requires Valid() && !IsFull(ViewNow())
      modifies this`nextwrite, data
      ensures Valid() && nextread == old(nextread)
      ensures var s := Put(old(ViewNow()), x); s.r == r && s.view == ViewNow()
    {
      SlotsExact(size);
      hide Slots;
      var nextnext := Next(nextwrite, size);
      if nextwrite >= data.Length {
        return Overran;
      }
      if size <= ROOM {
        RingPush(data[..size], nextread, nextwrite, x);
        assert data[..size][nextwrite := x] == data[..][nextwrite := x][..size];
      }
      data[nextwrite] := x;
      nextwrite := nextnext;
      r := Done;
    }

    /** q_addtail; `memory` says whether kmalloc succeeds if it is needed. */
    method AddTail(x: T, memory: bool) returns (r: Outcome)
      requires Valid()
      modifies this, data
      ensures Valid() && (data == old(data) || fresh(data))
      ensures r == Act(old(ViewNow()), Add(x, memory)).r
      ensures !r.Overran? ==> ViewNow() == Act(old(ViewNow()), Add(x, memory)).view
      ensures r.Done? ==> Contents() == old(Contents()) + [x]
      ensures !r.Done? && !r.Overran? ==> Contents() == old(Contents())
      ensures !old(IsFull(ViewNow())) ==> data == old(data) && size == old(size)
      decreases if IsFull(ViewNow()) then 3 else 0
    {
      hide Growth, Put, Slots, Next;
      ghost var v := ViewNow();
      SlotsExact(size);
      AddAppends(v, x, memory);
      var nextnext := Next(nextwrite, size);
      if nextnext == nextread {
        GrowthKeeps(v, size + 1, memory);
        r := Grow(size + 1, memory);
        if !r.Done? {
          return;
        }
      }
      r := Store(x);
    }

    /** q_grow: the elements are added again, in order, to a larger buffer. */
    method Grow(target: int, memory: bool) returns (r: Outcome)
      requires Valid() && target > size
      modifies this
      ensures Valid() && (data == old(data) || fresh(data))
      ensures r == Growth(old(ViewNow()), target, memory).r
      ensures !r.Overran? ==> ViewNow() == Growth(old(ViewNow()), target, memory).view && Contents() == old(Contents())
      ensures r.Done? ==> fresh(data)
      decreases 2
    {
      var olddata, osize, onr, onw := data, size, nextread, nextwrite;
      SlotsExact(size);
      var nsize := GrownSize(size, target);
      if nsize == 0 {
        return Halted;
      }
      if !memory {
        return NoMemory;
      }
      assert osize > ROOM ==> onr == onw;
      SlotsExact(nsize);
      hide Slots;
      size, data, nextread, nextwrite := nsize, new T[Slots(nsize)], 0, 0;
      r := Refill(olddata, osize, onr, onw, memory);
    }

    /** The loop of q_grow: the old elements are added one by one. */
    method Refill(olddata: array<T>, osize: nat, onr: nat, onw: nat, memory: bool) returns (r: Outcome)
      requires Valid() && data != olddata && nextread == nextwrite == 0
      requires onr < osize && onw < osize < size && (onr == onw || osize <= olddata.Length)
      modifies this, data
      ensures Valid() && data == old(data) && size == old(size)
      ensures var all := if onr == onw then [] else Ring(old(olddata[..osize]), onr, onw);
              && r == (if |all| > Slots(size) then Overran else Done)
              && (r.Done? ==> ViewNow() == View(all, size, |all|))
      decreases 1
    {
      SlotsExact(size);
      assert Contents() == [];
      if onr == onw {
        return Done;
      }
      assert Ring(olddata[..osize], onr, onr) == [];
      hide Growth, Doubled, Ring, Slots, Next;
      var i: nat := onr;
      ghost var d, left := olddata[..osize], Span(osize, onr, onw);
      while i != onw
        invariant Valid() && data == old(data) && size == old(size) && i < osize && olddata[..osize] == d
        invariant Contents() == Ring(d, onr, i) && Span(osize, onr, i) + left == Span(osize, onr, onw)
        invariant left == Span(osize, i, onw) && nextwrite == |Contents()| <= Slots(size)
        decreases left
      {
        RoomToCopy(d, onr, i, onw);
        RingBefore(d, onr, i);
        assert olddata[i] == d[i];
        r := AddTail(olddata[i], memory);
        if !r.Done? {
          return;
        }
        i, left := Next(i, osize), left - 1;
      }
      r := Done;
    }

    /** q_preallocate */
    method Preallocate(n: int, memory: bool) returns (r: Outcome)
      requires Valid()
      modifies this
      ensures Valid() && (data == old(data) || fresh(data))
      ensures r == Act(old(ViewNow()), Reserve(n, memory)).r
      ensures !r.Overran? ==> ViewNow() == Act(old(ViewNow()), Reserve(n, memory)).view && Contents() == old(Contents())
      ensures r.Done? ==> size >= n && (size <= ROOM ==> data.Length >= n)
    {
      r := Done;
      if n > size {
        r := Grow(n, memory);
      }
    }

    /** q_remhead, which the caller must not use on an empty queue. */
    method RemHead() returns (x: T)
      requires Valid() && Contents() != []
      modifies this`nextread
      ensures Valid() && old(Contents()) == [x] + Contents() && ViewNow() == Act(old(ViewNow()), Remove).view
    {
      if size <= ROOM {
        RingStep(data[..size], nextread, nextwrite);
      }
      x := data[nextread];
      nextread := Next(nextread, size);
    }

    /** q_peek */
    method Peek() returns (x: Option<T>)
      requires Valid()
      ensures x == if Contents() == [] then None else Some(Contents()[0])
    {
      var empty := Empty();
      x := if empty then None else Some(data[nextread]);
    }

    /** q_len counts round from the read to the write position. */
    method Len() returns (count: nat)
      requires Valid()
      ensures count == |Contents()|
    {
      count := 0;
      var tmp: nat := nextread;
      while tmp != nextwrite
        invariant tmp < size && count + Span(size, tmp, nextwrite) == |Contents()|
        decreases Span(size, tmp, nextwrite)
      {
        tmp, count := Next(tmp, size), count + 1;
      }
    }
  }

  /** One operation: taking from an empty queue stops at the assertion. */
  method Perform<T(0)>(q: Queue<T>, op: Op<T>) returns (r: Outcome, removed: seq<T>)
    requires q.Valid()
    modifies q, q.data
    ensures q.Valid() && (q.data == old(q.data) || fresh(q.data))
    ensures var s := Act(old(q.ViewNow()), op);
            r == s.r && removed == s.removed && (!r.Overran? ==> q.ViewNow() == s.view)
  {
    hide Ring, Growth, Put;
    removed := [];
    match op {
      case Add(x, memory) =>
        r := q.AddTail(x, memory);
      case Remove =>
        var empty := q.Empty();
        if empty {
          r := Halted;
        } else {
          var x := q.RemHead();
          r, removed := Done, [x];
        }
      case Reserve(n, memory) =>
        r := q.Preallocate(n, memory);
    }
  }

  /** Any sequence of operations does what RunOf says of it, so that what was there, followed by what
      was put in, is what came out, followed by what is there now. */
  method Run<T(0)>(q: Queue<T>, ops: seq<Op<T>>) returns (outcomes: seq<Outcome>, added: seq<T>, removed: seq<T>)
    requires q.Valid()
    modifies q, q.data
    ensures q.Valid()
    ensures var t := RunOf(old(q.ViewNow()), ops);
            && outcomes == t.outcomes && added == t.added && removed == t.removed
            && (Overran !in outcomes ==> q.ViewNow() == t.view)
    ensures Overran !in outcomes ==> old(q.Contents()) + added == removed + q.Contents()
  {
    outcomes, added, removed := [], [], [];
    ghost var v := q.ViewNow();
    Fifo(v, ops);
    RunNone(v);
    ghost var t := RunOf(v, []);
    hide ViewOk, Act, RunOf, Slots, Ring, Next, Stopped, IsFull;
    var i := 0;
    assert ops[..0] == [];
    while i < |ops| && !Stopped(outcomes)
      invariant 0 <= i <= |ops| && q.Valid() && (q.data == old(q.data) || fresh(q.data))
      invariant t == RunOf(v, ops[..i]) && outcomes == t.outcomes && added == t.added && removed == t.removed
      invariant if Overran in outcomes then Stopped(outcomes) else q.ViewNow() == t.view
    {
      RunStep(v, ops, i);
      t := RunOf(v, ops[..i + 1]);
      var r, out := Perform(q, ops[i]);
      StoppedBy(outcomes, r);
      outcomes, removed := outcomes + [r], removed + out;
      if ops[i].Add? && r.Done? {
        added := added + [ops[i].x];
      }
      i := i + 1;
    }
    if Stopped(outcomes) {
      StopsThere(v, ops, i);
    }
    assert ops[..|ops|] == ops;
  }

  lemma StoppedBy(outcomes: seq<Outcome>, r: Outcome)
    ensures Stopped(outcomes + [r]) <==> r.Halted? || r.Overran?
  {
  }
}
