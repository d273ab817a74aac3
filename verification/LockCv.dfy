/** Sleep locks and condition variables of synch.c, for any number of threads, one lock and
    one condition variable: one step per spinlock or list operation, in every interleaving. */
module LockCv {
  import opened Basics

  /** lock_release is called by itself or from cv_wait. */
  datatype Caller = Plain | FromWait

  datatype Pc =
    | Out                                // holds nothing, in no operation
    | ACheck(again: bool)                // lock_acquire: holds lock_lock, about to test; `again` after a wakeup
    | ABridge                            // saw another holder; wants the lock's channel lock
    | ABoth                              // holds lock_lock and the channel lock
    | ACommit                            // holds only the channel lock, on its way to sleep
    | AAsleep                            // on the lock's channel
    | AGrabbed                           // taken off it by a release, not yet runnable
    | AWoken                             // runnable, wants lock_lock again
    | ATaken                             // is the holder, about to release lock_lock
    | Holding                            // between acquire and release
    | Again                              // lock_acquire by the holder: holds lock_lock
    | RelSpin(caller: Caller)                // lock_release: holds lock_lock, still the holder
    | RelCleared(caller: Caller)             // holder cleared; wants the lock's channel lock
    | RelChan(caller: Caller)                // holds lock_lock and the lock's channel lock
    | RelWaker(target: nat, caller: Caller)  // about to make target runnable
    | RelDone(caller: Caller)                // about to release lock_lock
    | CvLocked                           // cv_wait: holds the cv's channel lock and the lock
    | CvCommit                           // lock released, about to be queued on the cv
    | CvAsleep                           // on the cv's channel
    | CvGrabbed                          // taken off it by a signal or broadcast
    | CvWoken                            // runnable, about to call lock_acquire
    | SigChan(inside: bool)              // cv_signal: holds the cv's channel lock
    | BcChan(inside: bool)               // cv_broadcast: holds the cv's channel lock

  /** `grabbed`: threads taken off the cv's channel and not yet made runnable. */
  datatype State = State(pcs: seq<Pc>, spin: Option<nat>, lkwc: Option<nat>, cvwc: Option<nat>,
                         holder: Option<nat>, lkchan: seq<nat>, cvchan: seq<nat>, grabbed: seq<nat>)

  datatype Act =
    | Acquire(i: nat)    // Out or the holder enters lock_acquire
    | Release(i: nat)    // the holder enters lock_release
    | Wait(i: nat)       // the holder enters cv_wait
    | Signal(i: nat)
    | Broadcast(i: nat)
    | Go(i: nat)         // the next step of the operation thread i is in
    | Deliver(i: nat)    // the i-th grabbed thread becomes runnable

  /** Whether the operation thread i is in can take its next step. */
  predicate CanGo(s: State, i: nat)
    requires i < |s.pcs|
  {
    match s.pcs[i]
    case Out => false
    case Holding => false
    case AAsleep => false
    case AGrabbed => false
    case CvAsleep => false
    case CvGrabbed => false
    case ABridge => s.lkwc.None?
    case RelCleared(_) => s.lkwc.None?
    case AWoken => s.spin.None?
    case CvWoken => s.spin.None?
    case CvLocked => s.spin.None?
    case RelChan(_) => s.lkchan != [] ==> s.lkchan[0] < |s.pcs|
    case SigChan(_) => s.cvchan != [] ==> s.cvchan[0] < |s.pcs|
    case RelWaker(t, _) => t < |s.pcs|
    case _ => true
  }

  predicate Enabled(s: State, a: Act)
  {
    match a
    case Acquire(i) => i < |s.pcs| && (s.pcs[i].Out? || s.pcs[i].Holding?) && s.spin.None?
    case Release(i) => i < |s.pcs| && s.pcs[i].Holding? && s.spin.None?
    case Wait(i) => i < |s.pcs| && s.pcs[i].Holding? && s.cvwc.None?
    case Signal(i) => i < |s.pcs| && (s.pcs[i].Out? || s.pcs[i].Holding?) && s.cvwc.None?
    case Broadcast(i) => i < |s.pcs| && (s.pcs[i].Out? || s.pcs[i].Holding?) && s.cvwc.None?
    case Go(i) => i < |s.pcs| && CanGo(s, i)
    case Deliver(k) => k < |s.grabbed| && s.grabbed[k] < |s.pcs|
  }

  function Move(s: State, i: nat, pc: Pc): State
    requires i < |s.pcs|
  {
    s.(pcs := s.pcs[i := pc])
  }

  function Back(inside: bool): Pc { if inside then Holding else Out }

  /** Every thread on the cv's channel becomes grabbed, all others stay put. */
  function GrabAll(pcs: seq<Pc>): (r: seq<Pc>)
    ensures |r| == |pcs|
    ensures forall k :: 0 <= k < |pcs| ==> r[k] == if pcs[k].CvAsleep? then CvGrabbed else pcs[k]
  {
    seq(|pcs|, k requires 0 <= k < |pcs| => if pcs[k].CvAsleep? then CvGrabbed else pcs[k])
  }

  function ApplyGo(s: State, i: nat): (r: State)
    requires i < |s.pcs| && CanGo(s, i)
    ensures |r.pcs| == |s.pcs|
  {
    match s.pcs[i]
    case ACheck(_) =>
      if s.holder.Some? then Move(s, i, ABridge)
      else Move(s, i, ATaken).(holder := Some(i))
    case ABridge => Move(s, i, ABoth).(lkwc := Some(i))
    case ABoth => Move(s, i, ACommit).(spin := None)
    case ACommit => Move(s, i, AAsleep).(lkwc := None, lkchan := s.lkchan + [i])
    case AWoken => Move(s, i, ACheck(true)).(spin := Some(i))
    case ATaken => Move(s, i, Holding).(spin := None)
    case Again => Move(s, i, Holding).(spin := None)
    case RelSpin(cl) => Move(s, i, RelCleared(cl)).(holder := None)
    case RelCleared(cl) => Move(s, i, RelChan(cl)).(lkwc := Some(i))
    case RelChan(cl) =>
      if s.lkchan == [] then Move(s, i, RelDone(cl)).(lkwc := None)
      else Move(Move(s, s.lkchan[0], AGrabbed), i, RelWaker(s.lkchan[0], cl)).(lkwc := None, lkchan := s.lkchan[1..])
    case RelWaker(t, cl) => Move(Move(s, t, AWoken), i, RelDone(cl))
    case RelDone(cl) => Move(s, i, if cl.Plain? then Out else CvCommit).(spin := None)
    case CvLocked => Move(s, i, RelSpin(FromWait)).(spin := Some(i))
    case CvCommit => Move(s, i, CvAsleep).(cvwc := None, cvchan := s.cvchan + [i])
    case CvWoken => Move(s, i, ACheck(false)).(spin := Some(i))
    case SigChan(inside) =>
      if s.cvchan == [] then Move(s, i, Back(inside)).(cvwc := None)
      else Move(Move(s, s.cvchan[0], CvGrabbed), i, Back(inside))
           .(cvwc := None, cvchan := s.cvchan[1..], grabbed := s.grabbed + [s.cvchan[0]])
    case BcChan(inside) =>
      Move(s.(pcs := GrabAll(s.pcs)), i, Back(inside)).(cvwc := None, cvchan := [], grabbed := s.grabbed + s.cvchan)
    case _ => s
  }

  function Apply(s: State, a: Act): (r: State)
    requires Enabled(s, a)
    ensures |r.pcs| == |s.pcs|
  {
    match a
    case Acquire(i) => Move(s, i, if s.pcs[i].Holding? then Again else ACheck(false)).(spin := Some(i))
    case Release(i) => Move(s, i, RelSpin(Plain)).(spin := Some(i))
    case Wait(i) => Move(s, i, CvLocked).(cvwc := Some(i))
    case Signal(i) => Move(s, i, SigChan(s.pcs[i].Holding?)).(cvwc := Some(i))
    case Broadcast(i) => Move(s, i, BcChan(s.pcs[i].Holding?)).(cvwc := Some(i))
    case Deliver(i) => Move(s, s.grabbed[i], CvWoken).(grabbed := s.grabbed[..i] + s.grabbed[i + 1..])
    case Go(i) => ApplyGo(s, i)
  }

  // ---------------------------------------------------------------------------
  // Invariant
  // ---------------------------------------------------------------------------

  predicate HasCaller(pc: Pc) { pc.RelSpin? || pc.RelCleared? || pc.RelChan? || pc.RelWaker? || pc.RelDone? }

  predicate HoldsSpin(pc: Pc) { pc.ACheck? || pc.ABridge? || pc.ABoth? || pc.ATaken? || pc.Again? || HasCaller(pc) }

  predicate HoldsLkwc(pc: Pc) { pc.ABoth? || pc.ACommit? || pc.RelChan? }

  predicate HoldsCvwc(pc: Pc)
  {
    pc.CvLocked? || pc.CvCommit? || pc.SigChan? || pc.BcChan? || (HasCaller(pc) && pc.caller.FromWait?)
  }

  /** Between acquire and release. */
  predicate InCs(pc: Pc)
  {
    || pc.ATaken? || pc.Holding? || pc.Again? || pc.RelSpin? || pc.CvLocked?
    || (pc.SigChan? && pc.inside) || (pc.BcChan? && pc.inside)
  }

  predicate Sleeping(pc: Pc) { pc.ABoth? || pc.ACommit? || pc.AAsleep? }

  /** On the way to take a free lock: woken and not yet rechecking, or a wakeup still to come. */
  predicate Helping(pc: Pc)
  {
    pc.AGrabbed? || pc.AWoken? || pc == ACheck(true) || pc.RelCleared? || pc.RelChan?
  }

  /** Inside cv_wait, past the release of the lock and not yet woken. */
  predicate Waiting(pc: Pc)
  {
    pc.CvCommit? || pc.CvAsleep? || (HasCaller(pc) && !pc.RelSpin? && pc.caller.FromWait?)
  }

  ghost predicate OneLock(pcs: seq<Pc>, lock: Option<nat>, holds: Pc -> bool)
  {
    && (forall i :: 0 <= i < |pcs| ==> (holds(pcs[i]) <==> lock == Some(i)))
    && (lock.Some? ==> lock.value < |pcs|)
  }

  ghost predicate LocksOk(s: State)
  {
    && OneLock(s.pcs, s.spin, HoldsSpin) && OneLock(s.pcs, s.lkwc, HoldsLkwc)
    && OneLock(s.pcs, s.cvwc, HoldsCvwc) && OneLock(s.pcs, s.holder, InCs)
  }

  /** A list names exactly the threads at one kind of point, each once. */
  ghost predicate Lists(pcs: seq<Pc>, q: seq<nat>, at: Pc -> bool)
  {
    && (forall k :: 0 <= k < |q| ==> q[k] < |pcs| && at(pcs[q[k]]))
    && (forall k, m :: 0 <= k < m < |q| ==> q[k] != q[m])
    && (forall i :: 0 <= i < |pcs| && at(pcs[i]) ==> i in q)
  }

  predicate IsAAsleep(pc: Pc) { pc.AAsleep? }
  predicate IsCvAsleep(pc: Pc) { pc.CvAsleep? }
  predicate IsCvGrabbed(pc: Pc) { pc.CvGrabbed? }

  ghost predicate ListsOk(s: State)
  {
    && Lists(s.pcs, s.lkchan, IsAAsleep) && Lists(s.pcs, s.cvchan, IsCvAsleep)
    && Lists(s.pcs, s.grabbed, IsCvGrabbed)
  }

  /** A thread grabbed by a release belongs to the releaser, which holds lock_lock. */
  ghost predicate WakersOk(s: State)
  {
    && (forall i :: 0 <= i < |s.pcs| && s.pcs[i].RelWaker? ==>
          s.pcs[i].target < |s.pcs| && s.pcs[s.pcs[i].target].AGrabbed?)
    && (forall j :: 0 <= j < |s.pcs| && s.pcs[j].AGrabbed? ==>
          s.spin.Some? && s.spin.value < |s.pcs| && s.pcs[s.spin.value].RelWaker? && s.pcs[s.spin.value].target == j)
  }

  /** Threads only start to sleep on a lock that is held, and a free lock with sleepers has
      somebody on the way. */
  ghost predicate NoneLost(s: State)
  {
    && (forall i :: 0 <= i < |s.pcs| && (s.pcs[i].ABridge? || s.pcs[i].ABoth?) ==> s.holder.Some?)
    && (s.holder.None? && (exists i :: 0 <= i < |s.pcs| && Sleeping(s.pcs[i])) ==>
          exists k :: 0 <= k < |s.pcs| && Helping(s.pcs[k]))
  }

  ghost predicate Inv(s: State)
  {
    LocksOk(s) && ListsOk(s) && WakersOk(s) && NoneLost(s)
  }

  ghost predicate Init(s: State)
  {
    && (forall i :: 0 <= i < |s.pcs| ==> s.pcs[i].Out?)
    && s.spin.None? && s.lkwc.None? && s.cvwc.None? && s.holder.None?
    && s.lkchan == [] && s.cvchan == [] && s.grabbed == []
  }

  lemma InitHolds(s: State)
    requires Init(s)
    ensures Inv(s)
  {
  }

  // ---------------------------------------------------------------------------
  // Locks
  // ---------------------------------------------------------------------------

  /** What a step of thread i does to a lock: keeps it, takes it when free, or gives it up. */
  ghost predicate LockMoves(before: Option<nat>, after: Option<nat>, i: nat, held: bool, holds: bool)
  {
    if held == holds then after == before
    else if holds then before.None? && after == Some(i)
    else after.None?
  }

  lemma OneLockKept(pcs: seq<Pc>, pcs': seq<Pc>, lock: Option<nat>, lock': Option<nat>, holds: Pc -> bool, i: nat)
    requires OneLock(pcs, lock, holds) && |pcs'| == |pcs| && i < |pcs|
    requires forall k :: 0 <= k < |pcs| && k != i ==> (holds(pcs'[k]) <==> holds(pcs[k]))
    requires LockMoves(lock, lock', i, holds(pcs[i]), holds(pcs'[i]))
    ensures OneLock(pcs', lock', holds)
  {
  }

  ghost predicate AllLocksMove(s: State, s': State, i: nat)
  {
    && |s'.pcs| == |s.pcs| && i < |s.pcs|
    && LockMoves(s.spin, s'.spin, i, HoldsSpin(s.pcs[i]), HoldsSpin(s'.pcs[i]))
    && LockMoves(s.lkwc, s'.lkwc, i, HoldsLkwc(s.pcs[i]), HoldsLkwc(s'.pcs[i]))
    && LockMoves(s.cvwc, s'.cvwc, i, HoldsCvwc(s.pcs[i]), HoldsCvwc(s'.pcs[i]))
    && LockMoves(s.holder, s'.holder, i, InCs(s.pcs[i]), InCs(s'.pcs[i]))
  }

  /** A thread that holds no lock of any kind. */
  predicate Bare(pc: Pc)
  {
    !HoldsSpin(pc) && !HoldsLkwc(pc) && !HoldsCvwc(pc) && !InCs(pc)
  }

  lemma LocksKept(s: State, s': State, i: nat)
    requires LocksOk(s) && AllLocksMove(s, s', i)
    requires forall k :: 0 <= k < |s.pcs| && k != i ==> s'.pcs[k] == s.pcs[k] || (Bare(s.pcs[k]) && Bare(s'.pcs[k]))
    ensures LocksOk(s')
  {
    OneLockKept(s.pcs, s'.pcs, s.spin, s'.spin, HoldsSpin, i);
    OneLockKept(s.pcs, s'.pcs, s.lkwc, s'.lkwc, HoldsLkwc, i);
    OneLockKept(s.pcs, s'.pcs, s.cvwc, s'.cvwc, HoldsCvwc, i);
    OneLockKept(s.pcs, s'.pcs, s.holder, s'.holder, InCs, i);
  }

  lemma LocksKeptTwo(s: State, s': State, i: nat, t: nat, x: Pc, y: Pc)
    requires LocksOk(s) && AllLocksMove(s, s', i) && t < |s.pcs| && i != t && Bare(s.pcs[t]) && Bare(x)
    requires s'.pcs == s.pcs[t := x][i := y]
    ensures LocksOk(s')
  {
    hide LocksOk, AllLocksMove, Bare;
    LocksKept(s, s', i);
  }

  // ---------------------------------------------------------------------------
  // Lists
  // ---------------------------------------------------------------------------

  lemma ListKept(pcs: seq<Pc>, pcs': seq<Pc>, q: seq<nat>, at: Pc -> bool)
    requires Lists(pcs, q, at) && |pcs'| == |pcs|
    requires forall k :: 0 <= k < |pcs| ==> (at(pcs'[k]) <==> at(pcs[k]))
    ensures Lists(pcs', q, at)
  {
  }

  lemma ListKeptOne(pcs: seq<Pc>, q: seq<nat>, at: Pc -> bool, i: nat, x: Pc)
    requires Lists(pcs, q, at) && i < |pcs| && (at(pcs[i]) <==> at(x))
    ensures Lists(pcs[i := x], q, at)
  {
    hide Lists;
    ListKept(pcs, pcs[i := x], q, at);
  }

  lemma ListJoin(pcs: seq<Pc>, pcs': seq<Pc>, q: seq<nat>, at: Pc -> bool, i: nat)
    requires Lists(pcs, q, at) && |pcs'| == |pcs| && i < |pcs| && !at(pcs[i]) && at(pcs'[i])
    requires forall k :: 0 <= k < |pcs| && k != i ==> (at(pcs'[k]) <==> at(pcs[k]))
    ensures Lists(pcs', q + [i], at)
  {
    assert i !in q;
    forall k | 0 <= k < |pcs'| && at(pcs'[k]) ensures k in q + [i] {
      assert k == i || k in q;
    }
  }

  lemma ListLeave(pcs: seq<Pc>, pcs': seq<Pc>, q: seq<nat>, at: Pc -> bool, h: nat)
    requires Lists(pcs, q, at) && |pcs'| == |pcs| && h < |q| && !at(pcs'[q[h]])
    requires forall k :: 0 <= k < |pcs| && k != q[h] ==> (at(pcs'[k]) <==> at(pcs[k]))
    ensures Lists(pcs', q[..h] + q[h + 1..], at)
  {
    var r := q[..h] + q[h + 1..];
    forall k | 0 <= k < |r| ensures r[k] == q[if k < h then k else k + 1] && r[k] != q[h] {
    }
    forall k | 0 <= k < |pcs'| && at(pcs'[k]) ensures k in r {
      var m :| 0 <= m < |q| && q[m] == k;
      assert m != h;
      assert r[if m < h then m else m - 1] == k;
    }
  }

  // ---------------------------------------------------------------------------
  // Steps of one thread that touch no list
  // ---------------------------------------------------------------------------

  /** Points at which a thread is on a list, or in a waker's hands, or a waker. */
  predicate Listed(pc: Pc)
  {
    pc.AAsleep? || pc.AGrabbed? || pc.CvAsleep? || pc.CvGrabbed? || pc.RelWaker?
  }

  lemma PlainStep(s: State, s': State, i: nat)
    requires Inv(s) && AllLocksMove(s, s', i) && s'.pcs == s.pcs[i := s'.pcs[i]]
    requires s'.lkchan == s.lkchan && s'.cvchan == s.cvchan && s'.grabbed == s.grabbed
    requires !Listed(s.pcs[i]) && !Listed(s'.pcs[i]) && NoneLost(s')
    ensures Inv(s')
  {
    LocksKept(s, s', i);
    ListKept(s.pcs, s'.pcs, s.lkchan, IsAAsleep);
    ListKept(s.pcs, s'.pcs, s.cvchan, IsCvAsleep);
    ListKept(s.pcs, s'.pcs, s.grabbed, IsCvGrabbed);
    hide NoneLost, ListsOk, Lists;
    WakersKept(s, s', i);
  }

  lemma WakersKept(s: State, s': State, i: nat)
    requires LocksOk(s) && WakersOk(s) && AllLocksMove(s, s', i) && s'.pcs == s.pcs[i := s'.pcs[i]]
    requires !s.pcs[i].RelWaker? && !s'.pcs[i].RelWaker? && !s.pcs[i].AGrabbed? && !s'.pcs[i].AGrabbed?
    ensures WakersOk(s')
  {
    forall j | 0 <= j < |s'.pcs| && s'.pcs[j].AGrabbed?
      ensures s'.spin == s.spin && s.spin.Some? && s.spin.value != i {
      assert s.pcs[j].AGrabbed?;
      assert HoldsSpin(s.pcs[s.spin.value]);
    }
  }

  lemma NoneLostKept(s: State, s': State, i: nat)
    requires LocksOk(s) && NoneLost(s) && |s'.pcs| == |s.pcs| && i < |s.pcs| && s'.pcs == s.pcs[i := s'.pcs[i]]
    requires s'.holder.None? ==> s.holder.None? || HoldsSpin(s.pcs[i])
    requires s'.pcs[i].ABridge? || s'.pcs[i].ABoth? ==> s'.holder.Some?
    requires s'.holder.None? ==>
               || Helping(s'.pcs[i])
               || (s.holder.None? && !Helping(s.pcs[i]) && (Sleeping(s'.pcs[i]) ==> Sleeping(s.pcs[i])))
    ensures NoneLost(s')
  {
    forall k | 0 <= k < |s'.pcs| && (s'.pcs[k].ABridge? || s'.pcs[k].ABoth?) ensures s'.holder.Some? {
      assert k != i ==> HoldsSpin(s.pcs[k]);
    }
    if j :| s'.holder.None? && 0 <= j < |s'.pcs| && Sleeping(s'.pcs[j]) {
      if Helping(s'.pcs[i]) {
      } else {
        assert Sleeping(s.pcs[j]);
        var k :| 0 <= k < |s.pcs| && Helping(s.pcs[k]);
        assert Helping(s'.pcs[k]);
      }
    }
  }

  lemma InvAt(s: State, i: nat)
    requires Inv(s) && i < |s.pcs|
    ensures HoldsSpin(s.pcs[i]) <==> s.spin == Some(i)
    ensures HoldsLkwc(s.pcs[i]) <==> s.lkwc == Some(i)
    ensures HoldsCvwc(s.pcs[i]) <==> s.cvwc == Some(i)
    ensures InCs(s.pcs[i]) <==> s.holder == Some(i)
    ensures s.pcs[i].ABridge? || s.pcs[i].ABoth? ==> s.holder.Some?
  {
  }

  /** A thread moves on without touching a list. */
  lemma MoveKeeps(s: State, s': State, i: nat)
    requires Inv(s) && AllLocksMove(s, s', i) && s'.pcs == s.pcs[i := s'.pcs[i]]
    requires s'.lkchan == s.lkchan && s'.cvchan == s.cvchan && s'.grabbed == s.grabbed
    requires !Listed(s.pcs[i]) && !Listed(s'.pcs[i])
    requires s'.holder.None? ==> s.holder.None? || HoldsSpin(s.pcs[i])
    requires s'.pcs[i].ABridge? || s'.pcs[i].ABoth? ==> s'.holder.Some?
    requires s'.holder.None? ==>
               || Helping(s'.pcs[i])
               || (s.holder.None? && !Helping(s.pcs[i]) && (Sleeping(s'.pcs[i]) ==> Sleeping(s.pcs[i])))
    ensures Inv(s')
  {
    NoneLostKept(s, s', i);
    hide Inv, NoneLost, AllLocksMove;
    PlainStep(s, s', i);
  }

  /** A step that leaves every Sleeping, Helping and ABridge status alone. */
  lemma NoneLostSame(s: State, s': State)
    requires NoneLost(s) && |s'.pcs| == |s.pcs| && s'.holder == s.holder
    requires forall k :: 0 <= k < |s.pcs| ==>
               && (Sleeping(s'.pcs[k]) <==> Sleeping(s.pcs[k])) && (Helping(s.pcs[k]) ==> Helping(s'.pcs[k]))
               && (s'.pcs[k].ABridge? || s'.pcs[k].ABoth? ==> s.pcs[k].ABridge? || s.pcs[k].ABoth?)
    ensures NoneLost(s')
  {
    if j :| 0 <= j < |s'.pcs| && Sleeping(s'.pcs[j]) && s'.holder.None? {
      assert Sleeping(s.pcs[j]);
      var k :| 0 <= k < |s.pcs| && Helping(s.pcs[k]);
      assert Helping(s'.pcs[k]);
    }
  }

  lemma AcquireCall(s: State, i: nat)
    requires Inv(s) && Enabled(s, Acquire(i))
    ensures Inv(Apply(s, Acquire(i)))
  {
    hide Inv, ApplyGo;
    InvAt(s, i);
    MoveKeeps(s, Apply(s, Acquire(i)), i);
  }

  lemma HolderCall(s: State, a: Act)
    requires Inv(s) && Enabled(s, a) && (a.Release? || a.Wait?)
    ensures Inv(Apply(s, a))
  {
    hide Inv, ApplyGo;
    InvAt(s, a.i);
    MoveKeeps(s, Apply(s, a), a.i);
  }

  lemma WakeCall(s: State, a: Act)
    requires Inv(s) && Enabled(s, a) && (a.Signal? || a.Broadcast?)
    ensures Inv(Apply(s, a))
  {
    hide Inv, ApplyGo;
    InvAt(s, a.i);
    MoveKeeps(s, Apply(s, a), a.i);
  }

  lemma CheckGo(s: State, i: nat)
    requires Inv(s) && i < |s.pcs| && CanGo(s, i) && (s.pcs[i].ACheck? || s.pcs[i].ATaken? || s.pcs[i].Again?)
    ensures Inv(ApplyGo(s, i))
  {
    hide Inv;
    InvAt(s, i);
    MoveKeeps(s, ApplyGo(s, i), i);
  }

  lemma BridgeGo(s: State, i: nat)
    requires Inv(s) && i < |s.pcs| && CanGo(s, i) && (s.pcs[i].ABridge? || s.pcs[i].ABoth?)
    ensures Inv(ApplyGo(s, i))
  {
    hide Inv;
    InvAt(s, i);
    MoveKeeps(s, ApplyGo(s, i), i);
  }

  lemma WokenGo(s: State, i: nat)
    requires Inv(s) && i < |s.pcs| && CanGo(s, i) && (s.pcs[i].AWoken? || s.pcs[i].CvWoken?)
    ensures Inv(ApplyGo(s, i))
  {
    hide Inv;
    InvAt(s, i);
    MoveKeeps(s, ApplyGo(s, i), i);
  }

  lemma ReleaseGo(s: State, i: nat)
    requires Inv(s) && i < |s.pcs| && CanGo(s, i) && (s.pcs[i].RelSpin? || s.pcs[i].RelCleared?)
    ensures Inv(ApplyGo(s, i))
  {
    hide Inv;
    InvAt(s, i);
    MoveKeeps(s, ApplyGo(s, i), i);
  }

  lemma ReleasedGo(s: State, i: nat)
    requires Inv(s) && i < |s.pcs| && CanGo(s, i) && s.pcs[i].RelDone?
    ensures Inv(ApplyGo(s, i))
  {
    hide Inv;
    InvAt(s, i);
    MoveKeeps(s, ApplyGo(s, i), i);
  }

  lemma CvGo(s: State, i: nat)
    requires Inv(s) && i < |s.pcs| && CanGo(s, i) && (s.pcs[i].CvLocked? || (s.pcs[i].SigChan? && s.cvchan == []))
    ensures Inv(ApplyGo(s, i))
  {
    hide Inv;
    InvAt(s, i);
    MoveKeeps(s, ApplyGo(s, i), i);
  }

  // ---------------------------------------------------------------------------
  // Steps that touch a list
  // ---------------------------------------------------------------------------

  lemma Parts(s: State)
    ensures Inv(s) <==>
              && LocksOk(s) && WakersOk(s) && NoneLost(s) && Lists(s.pcs, s.lkchan, IsAAsleep)
              && Lists(s.pcs, s.cvchan, IsCvAsleep) && Lists(s.pcs, s.grabbed, IsCvGrabbed)
  {
  }

  /** One thread moves, and the lists follow. */
  lemma OneMoved(s: State, s': State, i: nat)
    requires Inv(s) && AllLocksMove(s, s', i) && s'.pcs == s.pcs[i := s'.pcs[i]]
    requires !s.pcs[i].RelWaker? && !s'.pcs[i].RelWaker? && !s.pcs[i].AGrabbed? && !s'.pcs[i].AGrabbed?
    requires s'.holder == s.holder && !s'.pcs[i].ABridge? && !s'.pcs[i].ABoth? && !Helping(s.pcs[i])
    requires Sleeping(s'.pcs[i]) ==> Sleeping(s.pcs[i])
    requires Lists(s'.pcs, s'.lkchan, IsAAsleep) && Lists(s'.pcs, s'.cvchan, IsCvAsleep)
    requires Lists(s'.pcs, s'.grabbed, IsCvGrabbed)
    ensures Inv(s')
  {
    hide Inv, Lists, LocksOk, WakersOk, NoneLost;
    Parts(s);
    NoneLostKept(s, s', i);
    LocksKept(s, s', i);
    WakersKept(s, s', i);
    Parts(s');
  }

  lemma SleepKeeps(s: State, s': State, i: nat)
    requires Inv(s) && i < |s.pcs| && s.pcs[i].ACommit?
    requires s' == Move(s, i, AAsleep).(lkwc := None, lkchan := s.lkchan + [i])
    ensures Inv(s')
  {
    hide Inv, Lists, LocksOk, WakersOk, NoneLost;
    InvAt(s, i);
    Parts(s);
    ListJoin(s.pcs, s'.pcs, s.lkchan, IsAAsleep, i);
    ListKeptOne(s.pcs, s.cvchan, IsCvAsleep, i, AAsleep);
    ListKeptOne(s.pcs, s.grabbed, IsCvGrabbed, i, AAsleep);
    OneMoved(s, s', i);
  }

  lemma CvSleepKeeps(s: State, s': State, i: nat)
    requires Inv(s) && i < |s.pcs| && s.pcs[i].CvCommit?
    requires s' == Move(s, i, CvAsleep).(cvwc := None, cvchan := s.cvchan + [i])
    ensures Inv(s')
  {
    hide Inv, Lists, LocksOk, WakersOk, NoneLost;
    InvAt(s, i);
    Parts(s);
    ListKeptOne(s.pcs, s.lkchan, IsAAsleep, i, CvAsleep);
    ListJoin(s.pcs, s'.pcs, s.cvchan, IsCvAsleep, i);
    ListKeptOne(s.pcs, s.grabbed, IsCvGrabbed, i, CvAsleep);
    OneMoved(s, s', i);
  }

  lemma GrabbedIs(s: State, k: nat)
    requires Inv(s) && k < |s.grabbed|
    ensures s.grabbed[k] < |s.pcs| && s.pcs[s.grabbed[k]].CvGrabbed?
  {
    assert IsCvGrabbed(s.pcs[s.grabbed[k]]);
  }

  lemma DeliverKeeps(s: State, s': State, k: nat)
    requires Inv(s) && k < |s.grabbed| && s.grabbed[k] < |s.pcs|
    requires s' == Move(s, s.grabbed[k], CvWoken).(grabbed := s.grabbed[..k] + s.grabbed[k + 1..])
    ensures Inv(s')
  {
    hide Inv, Lists, LocksOk, WakersOk, NoneLost;
    var t := s.grabbed[k];
    GrabbedIs(s, k);
    InvAt(s, t);
    Parts(s);
    ListKeptOne(s.pcs, s.lkchan, IsAAsleep, t, CvWoken);
    ListKeptOne(s.pcs, s.cvchan, IsCvAsleep, t, CvWoken);
    ListLeave(s.pcs, s'.pcs, s.grabbed, IsCvGrabbed, k);
    OneMoved(s, s', t);
  }

  lemma SignalLists(s: State, s': State, i: nat, t: nat)
    requires Inv(s) && i < |s.pcs| && s.pcs[i].SigChan? && s.cvchan != [] && t == s.cvchan[0] < |s.pcs|
    requires s'.pcs == s.pcs[t := CvGrabbed][i := Back(s.pcs[i].inside)]
    ensures s.pcs[t].CvAsleep? && Lists(s'.pcs, s.lkchan, IsAAsleep)
    ensures Lists(s'.pcs, s.cvchan[1..], IsCvAsleep) && Lists(s'.pcs, s.grabbed + [t], IsCvGrabbed)
  {
    Parts(s);
    assert IsCvAsleep(s.pcs[t]);
    hide Inv, Lists;
    ListKept(s.pcs, s'.pcs, s.lkchan, IsAAsleep);
    ListLeave(s.pcs, s'.pcs, s.cvchan, IsCvAsleep, 0);
    assert s.cvchan[..0] + s.cvchan[1..] == s.cvchan[1..];
    ListJoin(s.pcs, s'.pcs, s.grabbed, IsCvGrabbed, t);
  }

  lemma SignalKeeps(s: State, s': State, i: nat, t: nat)
    requires Inv(s) && i < |s.pcs| && s.pcs[i].SigChan? && s.cvchan != [] && t == s.cvchan[0] < |s.pcs|
    requires s' == Move(Move(s, t, CvGrabbed), i, Back(s.pcs[i].inside))
                   .(cvwc := None, cvchan := s.cvchan[1..], grabbed := s.grabbed + [t])
    ensures Inv(s')
  {
    hide Inv, Lists, WakersOk, NoneLost, LocksOk;
    InvAt(s, i);
    Parts(s);
    SignalLists(s, s', i, t);
    LocksKeptTwo(s, s', i, t, CvGrabbed, Back(s.pcs[i].inside));
    NoneLostSame(s, s');
    WakersSame(s, s');
    Parts(s');
  }

  lemma WakersSame(s: State, s': State)
    requires WakersOk(s) && |s'.pcs| == |s.pcs| && s'.spin == s.spin
    requires forall k :: 0 <= k < |s.pcs| ==>
               && (s.pcs[k].RelWaker? || s'.pcs[k].RelWaker? || s.pcs[k].AGrabbed? || s'.pcs[k].AGrabbed?
                   ==> s'.pcs[k] == s.pcs[k])
    ensures WakersOk(s')
  {
  }

  lemma ListAll(pcs: seq<Pc>, pcs': seq<Pc>, q: seq<nat>, g: seq<nat>)
    requires Lists(pcs, q, IsCvAsleep) && Lists(pcs, g, IsCvGrabbed) && |pcs'| == |pcs|
    requires forall k :: 0 <= k < |pcs| ==> !pcs'[k].CvAsleep?
    requires forall k :: 0 <= k < |pcs| ==> (pcs'[k].CvGrabbed? <==> pcs[k].CvGrabbed? || pcs[k].CvAsleep?)
    ensures Lists(pcs', [], IsCvAsleep) && Lists(pcs', g + q, IsCvGrabbed)
  {
    forall k | 0 <= k < |pcs'| && IsCvGrabbed(pcs'[k]) ensures k in g + q {
      assert IsCvGrabbed(pcs[k]) || IsCvAsleep(pcs[k]);
      assert k in g || k in q;
    }
    forall k, m | 0 <= k < m < |g + q| ensures (g + q)[k] != (g + q)[m] {
      if k < |g| <= m {
        assert IsCvGrabbed(pcs[g[k]]) && IsCvAsleep(pcs[q[m - |g|]]);
      }
    }
  }

  lemma BroadcastLists(s: State, s': State, i: nat)
    requires Inv(s) && i < |s.pcs| && s.pcs[i].BcChan?
    requires s' == Move(s.(pcs := GrabAll(s.pcs)), i, Back(s.pcs[i].inside))
                   .(cvwc := None, cvchan := [], grabbed := s.grabbed + s.cvchan)
    ensures ListsOk(s')
  {
    hide Inv, Lists, WakersOk, NoneLost, LocksOk, GrabAll;
    Parts(s);
    ListKept(s.pcs, s'.pcs, s.lkchan, IsAAsleep);
    ListAll(s.pcs, s'.pcs, s.cvchan, s.grabbed);
  }

  lemma BroadcastKeeps(s: State, s': State, i: nat)
    requires Inv(s) && i < |s.pcs| && s.pcs[i].BcChan?
    requires s' == Move(s.(pcs := GrabAll(s.pcs)), i, Back(s.pcs[i].inside))
                   .(cvwc := None, cvchan := [], grabbed := s.grabbed + s.cvchan)
    ensures Inv(s')
  {
    hide Inv, Lists, WakersOk, NoneLost, LocksOk, GrabAll;
    InvAt(s, i);
    Parts(s);
    BroadcastLists(s, s', i);
    LocksKept(s, s', i);
    NoneLostSame(s, s');
    WakersSame(s, s');
    Parts(s');
  }

  /** lock_release with nobody on the channel: nobody can be half way onto it either. */
  lemma WakeNobodyKeeps(s: State, s': State, i: nat)
    requires Inv(s) && i < |s.pcs| && s.pcs[i].RelChan? && s.lkchan == []
    requires s' == Move(s, i, RelDone(s.pcs[i].caller)).(lkwc := None)
    ensures Inv(s')
  {
    InvAt(s, i);
    forall k | 0 <= k < |s.pcs| ensures !Sleeping(s.pcs[k]) && !(s.pcs[k].ABridge? || s.pcs[k].ABoth?) {
      assert HoldsSpin(s.pcs[k]) ==> k == i;
      assert HoldsLkwc(s.pcs[k]) ==> k == i;
      assert IsAAsleep(s.pcs[k]) ==> k in s.lkchan;
    }
    assert NoneLost(s');
    hide Inv, NoneLost;
    PlainStep(s, s', i);
  }

  lemma WakeOneLists(s: State, pcs': seq<Pc>, i: nat, t: nat, y: Pc)
    requires Inv(s) && i < |s.pcs| && s.pcs[i].RelChan? && y.RelWaker? && s.lkchan != [] && t == s.lkchan[0] < |s.pcs|
    requires pcs' == s.pcs[t := AGrabbed][i := y]
    ensures s.pcs[t].AAsleep? && Lists(pcs', s.lkchan[1..], IsAAsleep)
    ensures Lists(pcs', s.cvchan, IsCvAsleep) && Lists(pcs', s.grabbed, IsCvGrabbed)
  {
    Parts(s);
    assert IsAAsleep(s.pcs[t]);
    hide Inv, Lists;
    ListLeave(s.pcs, pcs', s.lkchan, IsAAsleep, 0);
    assert s.lkchan[..0] + s.lkchan[1..] == s.lkchan[1..];
    ListKeptOne(s.pcs, s.cvchan, IsCvAsleep, t, AGrabbed);
    ListKeptOne(s.pcs[t := AGrabbed], s.cvchan, IsCvAsleep, i, y);
    ListKeptOne(s.pcs, s.grabbed, IsCvGrabbed, t, AGrabbed);
    ListKeptOne(s.pcs[t := AGrabbed], s.grabbed, IsCvGrabbed, i, y);
  }

  lemma WakeOneKeeps(s: State, s': State, i: nat, t: nat)
    requires Inv(s) && i < |s.pcs| && s.pcs[i].RelChan? && s.lkchan != [] && t == s.lkchan[0] < |s.pcs|
    requires s' == Move(Move(s, t, AGrabbed), i, RelWaker(t, s.pcs[i].caller)).(lkwc := None, lkchan := s.lkchan[1..])
    ensures Inv(s')
  {
    hide Inv, WakersOk, NoneLost, LocksOk, Lists;
    InvAt(s, i);
    Parts(s);
    WakeOneLists(s, s'.pcs, i, t, s'.pcs[i]);
    GrabWakers(s, s', i, t, s.pcs[i].caller);
    LocksKeptTwo(s, s', i, t, AGrabbed, s'.pcs[i]);
    Parts(s');
  }

  lemma GrabWakers(s: State, s': State, i: nat, t: nat, caller: Caller)
    requires LocksOk(s) && WakersOk(s) && i < |s.pcs| && t < |s.pcs| && i != t && s.pcs[i].RelChan?
    requires s'.spin == s.spin && s'.pcs == s.pcs[t := AGrabbed][i := RelWaker(t, caller)]
    ensures WakersOk(s') && NoneLost(s')
  {
    forall k | 0 <= k < |s.pcs| ensures HoldsSpin(s.pcs[k]) <==> s.spin == Some(k) {
    }
    assert Helping(s'.pcs[t]);
  }

  lemma RunnableLists(s: State, i: nat, t: nat, y: Pc)
    requires Inv(s) && i < |s.pcs| && s.pcs[i].RelWaker? && t == s.pcs[i].target < |s.pcs| && y.RelDone?
    ensures s.pcs[t].AGrabbed?
    ensures var pcs' := s.pcs[t := AWoken][i := y];
            Lists(pcs', s.lkchan, IsAAsleep) && Lists(pcs', s.cvchan, IsCvAsleep) && Lists(pcs', s.grabbed, IsCvGrabbed)
  {
    assert s.pcs[t].AGrabbed?;
    Parts(s);
    hide Inv, Lists;
    ListKeptOne(s.pcs, s.lkchan, IsAAsleep, t, AWoken);
    ListKeptOne(s.pcs[t := AWoken], s.lkchan, IsAAsleep, i, y);
    ListKeptOne(s.pcs, s.cvchan, IsCvAsleep, t, AWoken);
    ListKeptOne(s.pcs[t := AWoken], s.cvchan, IsCvAsleep, i, y);
    ListKeptOne(s.pcs, s.grabbed, IsCvGrabbed, t, AWoken);
    ListKeptOne(s.pcs[t := AWoken], s.grabbed, IsCvGrabbed, i, y);
  }

  lemma RunnableKeeps(s: State, s': State, i: nat, t: nat)
    requires Inv(s) && i < |s.pcs| && s.pcs[i].RelWaker? && t == s.pcs[i].target < |s.pcs|
    requires s' == Move(Move(s, t, AWoken), i, RelDone(s.pcs[i].caller))
    ensures Inv(s')
  {
    hide Inv, NoneLost, LocksOk, Lists, WakersOk;
    InvAt(s, i);
    Parts(s);
    RunnableLists(s, i, t, s'.pcs[i]);
    RunnableWakers(s, s', i, s.pcs[i].caller);
    LocksKeptTwo(s, s', i, t, AWoken, s'.pcs[i]);
    Parts(s');
  }

  lemma RunnableWakers(s: State, s': State, i: nat, caller: Caller)
    requires LocksOk(s) && WakersOk(s) && i < |s.pcs| && s.pcs[i].RelWaker?
    requires s'.spin == s.spin && s'.pcs == s.pcs[s.pcs[i].target := AWoken][i := RelDone(caller)]
    ensures WakersOk(s') && NoneLost(s')
  {
    forall k | 0 <= k < |s.pcs| ensures HoldsSpin(s.pcs[k]) <==> s.spin == Some(k) {
    }
    assert Helping(s'.pcs[s.pcs[i].target]);
  }

  lemma ListGo(s: State, i: nat)
    requires Inv(s) && i < |s.pcs| && CanGo(s, i)
    requires s.pcs[i].ACommit? || s.pcs[i].CvCommit? || s.pcs[i].BcChan? || (s.pcs[i].SigChan? && s.cvchan != [])
    ensures Inv(ApplyGo(s, i))
  {
    hide Inv;
    match s.pcs[i]
    case ACommit => SleepKeeps(s, ApplyGo(s, i), i);
    case CvCommit => CvSleepKeeps(s, ApplyGo(s, i), i);
    case SigChan(_) => SignalKeeps(s, ApplyGo(s, i), i, s.cvchan[0]);
    case BcChan(_) => BroadcastKeeps(s, ApplyGo(s, i), i);
  }

  lemma WakeGo(s: State, i: nat)
    requires Inv(s) && i < |s.pcs| && CanGo(s, i) && (s.pcs[i].RelChan? || s.pcs[i].RelWaker?)
    ensures Inv(ApplyGo(s, i))
  {
    hide Inv;
    if s.pcs[i].RelWaker? {
      RunnableKeeps(s, ApplyGo(s, i), i, s.pcs[i].target);
    } else if s.lkchan == [] {
      WakeNobodyKeeps(s, ApplyGo(s, i), i);
    } else {
      WakeOneKeeps(s, ApplyGo(s, i), i, s.lkchan[0]);
    }
  }

  lemma GoKeeps(s: State, i: nat)
    requires Inv(s) && i < |s.pcs| && CanGo(s, i)
    ensures Inv(ApplyGo(s, i))
  {
    hide Inv, ApplyGo;
    match s.pcs[i]
    case ACheck(_) => CheckGo(s, i);
    case ATaken => CheckGo(s, i);
    case Again => CheckGo(s, i);
    case ABridge => BridgeGo(s, i);
    case ABoth => BridgeGo(s, i);
    case ACommit => ListGo(s, i);
    case AWoken => WokenGo(s, i);
    case CvWoken => WokenGo(s, i);
    case RelSpin(_) => ReleaseGo(s, i);
    case RelCleared(_) => ReleaseGo(s, i);
    case RelChan(_) => WakeGo(s, i);
    case RelWaker(_, _) => WakeGo(s, i);
    case RelDone(_) => ReleasedGo(s, i);
    case CvLocked => CvGo(s, i);
    case CvCommit => ListGo(s, i);
    case SigChan(_) =>
      if s.cvchan == [] {
        CvGo(s, i);
      } else {
        ListGo(s, i);
      }
    case BcChan(_) => ListGo(s, i);
  }

  /** Every step of every thread keeps the invariant. */
  lemma StepKeeps(s: State, a: Act)
    requires Inv(s) && Enabled(s, a)
    ensures Inv(Apply(s, a))
  {
    hide Inv, ApplyGo;
    match a
    case Acquire(i) => AcquireCall(s, i);
    case Release(i) => HolderCall(s, a);
    case Wait(i) => HolderCall(s, a);
    case Signal(i) => WakeCall(s, a);
    case Broadcast(i) => WakeCall(s, a);
    case Go(i) => GoKeeps(s, i);
    case Deliver(k) => DeliverKeeps(s, Apply(s, a), k);
  }

  // ---------------------------------------------------------------------------
  // Whole runs
  // ---------------------------------------------------------------------------

  ghost predicate IsRun(r: seq<State>, acts: seq<Act>)
  {
    && |r| == |acts| + 1 && Init(r[0])
    && forall k :: 0 <= k < |acts| ==> Enabled(r[k], acts[k]) && r[k + 1] == Apply(r[k], acts[k])
  }

  lemma {:induction false} RunKeeps(r: seq<State>, acts: seq<Act>, k: nat)
    requires IsRun(r, acts) && k < |r|
    ensures Inv(r[k])
  {
    hide Inv, Apply, Enabled;
    if k == 0 {
      InitHolds(r[0]);
    } else {
      RunKeeps(r, acts, k - 1);
      StepKeeps(r[k - 1], acts[k - 1]);
    }
  }

  /** In every state of every run at most one thread is between acquire and release, and it is
      the one lock_holder names. */
  lemma MutualExclusion(r: seq<State>, acts: seq<Act>, k: nat, i: nat, j: nat)
    requires IsRun(r, acts) && k < |r| && i < |r[k].pcs| && j < |r[k].pcs|
    requires InCs(r[k].pcs[i]) && InCs(r[k].pcs[j])
    ensures i == j && r[k].holder == Some(i)
  {
    hide IsRun;
    RunKeeps(r, acts, k);
    InvAt(r[k], i);
    InvAt(r[k], j);
  }

  /** A free lock that somebody sleeps on, or is committed to sleeping on, has a thread on the
      way: one woken that has not rechecked yet, or a release whose wakeone is still to come. */
  lemma FreeLockHasHelper(r: seq<State>, acts: seq<Act>, k: nat, i: nat)
    requires IsRun(r, acts) && k < |r| && r[k].holder.None?
    requires i < |r[k].pcs| && Sleeping(r[k].pcs[i])
    ensures exists h :: 0 <= h < |r[k].pcs| && Helping(r[k].pcs[h])
  {
    hide IsRun;
    RunKeeps(r, acts, k);
    assert Sleeping(r[k].pcs[i]);
  }

  /** The threads a step can move besides the one that takes it. */
  lemma Targets(s: State)
    requires Inv(s)
    ensures s.lkchan != [] ==> s.lkchan[0] < |s.pcs| && s.pcs[s.lkchan[0]].AAsleep?
    ensures s.cvchan != [] ==> s.cvchan[0] < |s.pcs| && s.pcs[s.cvchan[0]].CvAsleep?
    ensures forall i :: 0 <= i < |s.pcs| && s.pcs[i].RelWaker? ==>
              s.pcs[i].target < |s.pcs| && s.pcs[s.pcs[i].target].AGrabbed?
  {
    assert s.lkchan != [] ==> IsAAsleep(s.pcs[s.lkchan[0]]);
    assert s.cvchan != [] ==> IsCvAsleep(s.pcs[s.cvchan[0]]);
  }

  /** A waiter stays one until a signal or a broadcast takes it off the channel. */
  lemma WaitingGo(s: State, i: nat, w: nat)
    requires Inv(s) && i < |s.pcs| && CanGo(s, i) && w < |s.pcs| && Waiting(s.pcs[w])
    ensures Waiting(ApplyGo(s, i).pcs[w]) || ApplyGo(s, i).pcs[w].CvGrabbed?
  {
    hide Inv, ApplyGo;
    if i == w {
      WaitingOwnGo(s, w);
    } else {
      WaitingOtherGo(s, i, w);
    }
  }

  lemma WaitingOwnGo(s: State, w: nat)
    requires Inv(s) && w < |s.pcs| && CanGo(s, w) && Waiting(s.pcs[w])
    ensures Waiting(ApplyGo(s, w).pcs[w])
  {
    hide Inv;
  }

  lemma WaitingOtherGo(s: State, i: nat, w: nat)
    requires Inv(s) && i < |s.pcs| && CanGo(s, i) && i != w && w < |s.pcs| && Waiting(s.pcs[w])
    ensures ApplyGo(s, i).pcs[w] == s.pcs[w] || (s.pcs[w].CvAsleep? && ApplyGo(s, i).pcs[w].CvGrabbed?)
  {
    hide Inv, ApplyGo;
    if s.pcs[i].RelChan? || s.pcs[i].RelWaker? || s.pcs[i].SigChan? || s.pcs[i].BcChan? {
      WakerGo(s, i, w);
    } else {
      LoneGo(s, i, w);
    }
  }

  /** Only these steps move a thread other than the one that takes them. */
  lemma LoneGo(s: State, i: nat, w: nat)
    requires i < |s.pcs| && CanGo(s, i) && i != w && w < |s.pcs|
    requires !s.pcs[i].RelChan? && !s.pcs[i].RelWaker? && !s.pcs[i].SigChan? && !s.pcs[i].BcChan?
    ensures ApplyGo(s, i).pcs[w] == s.pcs[w]
  {
  }

  lemma WakerGo(s: State, i: nat, w: nat)
    requires Inv(s) && i < |s.pcs| && CanGo(s, i) && i != w && w < |s.pcs| && Waiting(s.pcs[w])
    requires s.pcs[i].RelChan? || s.pcs[i].RelWaker? || s.pcs[i].SigChan? || s.pcs[i].BcChan?
    ensures ApplyGo(s, i).pcs[w] == s.pcs[w] || (s.pcs[w].CvAsleep? && ApplyGo(s, i).pcs[w].CvGrabbed?)
  {
    hide Inv;
    Targets(s);
  }

  lemma WaitingStep(s: State, a: Act, w: nat)
    requires Inv(s) && Enabled(s, a) && w < |s.pcs| && Waiting(s.pcs[w])
    ensures |Apply(s, a).pcs| == |s.pcs|
    ensures Waiting(Apply(s, a).pcs[w]) || Apply(s, a).pcs[w].CvGrabbed?
  {
    hide Inv, ApplyGo;
    if a.Go? {
      WaitingGo(s, a.i, w);
    } else if a.Deliver? {
      GrabbedIs(s, a.i);
    }
  }

  /** A broadcast takes every waiter off the channel, also the ones whose lock_release inside
      cv_wait has only just happened: none can be between its release and the channel. */
  lemma BroadcastFinds(s: State, b: nat, w: nat)
    requires Inv(s) && b < |s.pcs| && s.pcs[b].BcChan? && w < |s.pcs| && Waiting(s.pcs[w])
    ensures w in s.cvchan && Apply(s, Go(b)).pcs[w].CvGrabbed? && w in Apply(s, Go(b)).grabbed
  {
    InvAt(s, w);
    InvAt(s, b);
    assert IsCvAsleep(s.pcs[w]);
  }

  /** A signal with any waiter about takes the one that has been queued longest. */
  lemma SignalFinds(s: State, b: nat, w: nat)
    requires Inv(s) && b < |s.pcs| && s.pcs[b].SigChan? && w < |s.pcs| && Waiting(s.pcs[w])
    ensures w in s.cvchan && s.cvchan[0] < |s.pcs| && Waiting(s.pcs[s.cvchan[0]])
    ensures Apply(s, Go(b)).pcs[s.cvchan[0]].CvGrabbed? && s.cvchan[0] in Apply(s, Go(b)).grabbed
  {
    InvAt(s, w);
    InvAt(s, b);
    assert IsCvAsleep(s.pcs[w]);
    assert IsCvAsleep(s.pcs[s.cvchan[0]]);
  }

  lemma {:induction false} WaitingUntilWoken(r: seq<State>, acts: seq<Act>, a: nat, k: nat, w: nat)
    requires IsRun(r, acts) && a <= k < |r| && w < |r[a].pcs| && Waiting(r[a].pcs[w])
    ensures |r[k].pcs| == |r[a].pcs|
    ensures Waiting(r[k].pcs[w]) || exists m :: a < m <= k && w < |r[m].pcs| && r[m].pcs[w].CvGrabbed?
    decreases k
  {
    hide Inv, Apply, ApplyGo, Enabled;
    if a < k {
      WaitingUntilWoken(r, acts, a, k - 1, w);
      RunKeeps(r, acts, k - 1);
      if Waiting(r[k - 1].pcs[w]) {
        WaitingStep(r[k - 1], acts[k - 1], w);
      }
    }
  }

  /** Over a whole run: a thread that gave up the lock in cv_wait before state a has been woken
      by the time any later broadcast, at step k, is done with the channel. */
  lemma BroadcastReachesWaiter(r: seq<State>, acts: seq<Act>, a: nat, k: nat, w: nat, b: nat)
    requires IsRun(r, acts) && a <= k < |acts| && w < |r[a].pcs| && Waiting(r[a].pcs[w])
    requires acts[k] == Go(b) && b < |r[k].pcs| && r[k].pcs[b].BcChan?
    ensures exists m :: a < m <= k + 1 && w < |r[m].pcs| && r[m].pcs[w].CvGrabbed?
  {
    hide Inv, Apply, ApplyGo, Enabled;
    WaitingUntilWoken(r, acts, a, k, w);
    if Waiting(r[k].pcs[w]) {
      RunKeeps(r, acts, k);
      BroadcastFinds(r[k], b, w);
      assert r[k + 1].pcs[w].CvGrabbed?;
    }
  }

  // ---------------------------------------------------------------------------
  // What an operation has done when it returns
  // ---------------------------------------------------------------------------

  /** Outside every operation. */
  predicate Idle(pc: Pc) { pc.Out? || pc.Holding? }

  predicate InAcquire(pc: Pc)
  {
    pc.ACheck? || pc.ABridge? || pc.ABoth? || pc.ACommit? || pc.AAsleep? || pc.AGrabbed? || pc.AWoken? || pc.ATaken?
    || pc.Again?
  }

  predicate InRelease(pc: Pc) { HasCaller(pc) && pc.caller.Plain? }

  /** cv_wait before it gives up the lock, and after it was taken off the channel; `Waiting` is between. */
  predicate WaitFirst(pc: Pc) { pc.CvLocked? || pc == RelSpin(FromWait) }

  predicate WaitWoken(pc: Pc) { pc.CvGrabbed? || pc.CvWoken? }

  /** How a thread's own step moves it through the operation it is in. */
  lemma OwnGo(s: State, t: nat)
    requires t < |s.pcs| && CanGo(s, t)
    requires s.pcs[t].RelChan? ==> s.lkchan != [] ==> s.lkchan[0] != t
    requires s.pcs[t].RelWaker? ==> s.pcs[t].target != t
    requires s.pcs[t].SigChan? ==> s.cvchan != [] ==> s.cvchan[0] != t
    ensures var pc, pc' := s.pcs[t], ApplyGo(s, t).pcs[t];
            && (InAcquire(pc) ==> InAcquire(pc') || pc'.Holding?)
            && (InRelease(pc) ==> InRelease(pc') || pc'.Out?)
            && (WaitFirst(pc) ==> WaitFirst(pc') || Waiting(pc'))
            && (Waiting(pc) ==> Waiting(pc'))
            && (WaitWoken(pc) ==> WaitWoken(pc') || InAcquire(pc'))
            && (pc.SigChan? || pc.BcChan? ==> pc' == Back(pc.inside))
  {
  }

  /** Another thread's step moves a sleeper along at most. */
  predicate Nudged(pc: Pc, pc': Pc)
  {
    pc' == pc || (pc.AAsleep? && pc'.AGrabbed?) || (pc.AGrabbed? && pc'.AWoken?) || (pc.CvAsleep? && pc'.CvGrabbed?)
  }

  lemma OtherGo(s: State, i: nat, t: nat)
    requires Inv(s) && i < |s.pcs| && CanGo(s, i) && i != t && t < |s.pcs|
    ensures Nudged(s.pcs[t], ApplyGo(s, i).pcs[t])
  {
    hide Inv, ApplyGo;
    if s.pcs[i].RelChan? || s.pcs[i].RelWaker? || s.pcs[i].SigChan? || s.pcs[i].BcChan? {
      NudgeGo(s, i, t);
    } else {
      LoneGo(s, i, t);
    }
  }

  lemma NudgeGo(s: State, i: nat, t: nat)
    requires Inv(s) && i < |s.pcs| && CanGo(s, i) && i != t && t < |s.pcs|
    requires s.pcs[i].RelChan? || s.pcs[i].RelWaker? || s.pcs[i].SigChan? || s.pcs[i].BcChan?
    ensures Nudged(s.pcs[t], ApplyGo(s, i).pcs[t])
  {
    hide Inv;
    Targets(s);
  }

  /** One step seen from a thread inside an operation, or about to enter one. */
  ghost predicate Advances(s: State, a: Act, s': State, t: nat)
    requires t < |s.pcs| == |s'.pcs|
  {
    var pc, pc' := s.pcs[t], s'.pcs[t];
    && (InAcquire(pc) ==> InAcquire(pc') || pc'.Holding?)
    && (InRelease(pc) ==> InRelease(pc') || pc'.Out?)
    && (WaitFirst(pc) ==> WaitFirst(pc') || Waiting(pc'))
    && (Waiting(pc) ==> Waiting(pc') || pc'.CvGrabbed?)
    && (WaitWoken(pc) ==> WaitWoken(pc') || InAcquire(pc'))
    && (pc.SigChan? || pc.BcChan? ==> pc' == pc || pc' == Back(pc.inside))
    && (a == Acquire(t) ==> InAcquire(pc')) && (a == Release(t) ==> InRelease(pc')) && (a == Wait(t) ==> WaitFirst(pc'))
    && (a == Signal(t) ==> pc' == SigChan(pc.Holding?)) && (a == Broadcast(t) ==> pc' == BcChan(pc.Holding?))
  }

  lemma StepAdvances(s: State, a: Act, t: nat)
    requires Inv(s) && Enabled(s, a) && t < |s.pcs|
    ensures Advances(s, a, Apply(s, a), t)
  {
    hide Inv, ApplyGo, CanGo;
    match a {
      case Go(i) =>
        if i == t {
          Targets(s);
          OwnGo(s, t);
        } else {
          OtherGo(s, i, t);
        }
      case Deliver(k) => GrabbedIs(s, k);
      case _ =>
    }
  }

  lemma StepSize(s: State, a: Act)
    requires Enabled(s, a)
    ensures |Apply(s, a).pcs| == |s.pcs| && (!a.Deliver? ==> a.i < |s.pcs|)
  {
  }

  /** Whether thread t is the holder shows at its program point. */
  lemma HolderAt(s: State, t: nat)
    requires Inv(s) && t < |s.pcs|
    ensures s.holder == Some(t) <==> InCs(s.pcs[t])
  {
    InvAt(s, t);
  }

  /** A thread that called lock_acquire is still in it, or has come back as the holder. */
  lemma {:induction false} AcquireReturns(r: seq<State>, acts: seq<Act>, a: nat, k: nat, t: nat)
    requires IsRun(r, acts) && a < k < |r| && acts[a] == Acquire(t)
    requires forall m :: a < m < k ==> t < |r[m].pcs| && !Idle(r[m].pcs[t])
    ensures t < |r[k].pcs| && (InAcquire(r[k].pcs[t]) || (r[k].pcs[t].Holding? && r[k].holder == Some(t)))
    decreases k
  {
    hide Inv, Enabled, Apply;
    RunKeeps(r, acts, k - 1);
    RunKeeps(r, acts, k);
    StepSize(r[k - 1], acts[k - 1]);
    if a < k - 1 {
      AcquireReturns(r, acts, a, k - 1, t);
    }
    StepAdvances(r[k - 1], acts[k - 1], t);
    HolderAt(r[k], t);
  }

  /** A thread that called lock_release is still in it, or has come back without the lock. */
  lemma {:induction false} ReleaseReturns(r: seq<State>, acts: seq<Act>, a: nat, k: nat, t: nat)
    requires IsRun(r, acts) && a < k < |r| && acts[a] == Release(t)
    requires forall m :: a < m < k ==> t < |r[m].pcs| && !Idle(r[m].pcs[t])
    ensures t < |r[k].pcs| && (InRelease(r[k].pcs[t]) || (r[k].pcs[t].Out? && r[k].holder != Some(t)))
    decreases k
  {
    hide Inv, Enabled, Apply;
    RunKeeps(r, acts, k - 1);
    RunKeeps(r, acts, k);
    StepSize(r[k - 1], acts[k - 1]);
    if a < k - 1 {
      ReleaseReturns(r, acts, a, k - 1, t);
    }
    StepAdvances(r[k - 1], acts[k - 1], t);
    HolderAt(r[k], t);
  }

  /** Between a and k the thread has given up the lock and waited. */
  ghost predicate HasWaited(r: seq<State>, a: nat, k: nat, t: nat)
  {
    exists m :: a < m < k < |r| && t < |r[m].pcs| && Waiting(r[m].pcs[t]) && r[m].holder != Some(t)
  }

  /** ... and has been taken off the channel after that. */
  ghost predicate WasWoken(r: seq<State>, a: nat, k: nat, t: nat)
  {
    exists m :: a < m < k < |r| && t < |r[m].pcs| && r[m].pcs[t].CvGrabbed? && HasWaited(r, a, m, t)
  }

  lemma WaitedLonger(r: seq<State>, a: nat, k: nat, t: nat)
    requires 0 < k < |r| && t < |r[k - 1].pcs|
    ensures HasWaited(r, a, k - 1, t) ==> HasWaited(r, a, k, t)
    ensures WasWoken(r, a, k - 1, t) ==> WasWoken(r, a, k, t)
    ensures a < k - 1 && Waiting(r[k - 1].pcs[t]) && r[k - 1].holder != Some(t) ==> HasWaited(r, a, k, t)
    ensures a < k - 1 && r[k - 1].pcs[t].CvGrabbed? && HasWaited(r, a, k - 1, t) ==> WasWoken(r, a, k, t)
  {
    if HasWaited(r, a, k - 1, t) {
      var m :| a < m < k - 1 < |r| && t < |r[m].pcs| && Waiting(r[m].pcs[t]) && r[m].holder != Some(t);
    }
    if WasWoken(r, a, k - 1, t) {
      var m :| a < m < k - 1 < |r| && t < |r[m].pcs| && r[m].pcs[t].CvGrabbed? && HasWaited(r, a, m, t);
    }
  }

  /** How far a call of cv_wait has come at state k. */
  ghost predicate WaitGoesOn(r: seq<State>, a: nat, k: nat, t: nat)
    requires k < |r| && t < |r[k].pcs|
  {
    var pc := r[k].pcs[t];
    || WaitFirst(pc)
    || Waiting(pc)
    || (pc.CvGrabbed? && HasWaited(r, a, k, t))
    || (pc.CvWoken? && WasWoken(r, a, k, t))
    || (InAcquire(pc) && WasWoken(r, a, k, t))
    || (pc.Holding? && r[k].holder == Some(t) && WasWoken(r, a, k, t))
  }

  lemma WaitStep(s: State, a: Act, t: nat)
    requires Inv(s) && Enabled(s, a) && t < |s.pcs|
    ensures s.pcs[t].CvGrabbed? ==> WaitWoken(Apply(s, a).pcs[t])
    ensures s.pcs[t].CvWoken? ==> Apply(s, a).pcs[t].CvWoken? || InAcquire(Apply(s, a).pcs[t])
  {
    hide Inv, ApplyGo;
    match a {
      case Go(i) =>
        if i != t {
          OtherGo(s, i, t);
        } else if s.pcs[t].CvWoken? {
          WokenGoes(s, t);
        }
      case Deliver(k) => GrabbedIs(s, k);
      case _ =>
    }
  }

  lemma WokenGoes(s: State, t: nat)
    requires t < |s.pcs| && CanGo(s, t) && s.pcs[t].CvWoken?
    ensures InAcquire(ApplyGo(s, t).pcs[t])
  {
  }

  /** A thread that called cv_wait comes back only as the holder, and only after it gave up the lock,
      waited, and was taken off the channel by a signal or a broadcast. */
  lemma {:induction false} WaitReturns(r: seq<State>, acts: seq<Act>, a: nat, k: nat, t: nat)
    requires IsRun(r, acts) && a < k < |r| && acts[a] == Wait(t)
    requires forall m :: a < m < k ==> t < |r[m].pcs| && !Idle(r[m].pcs[t])
    ensures t < |r[k].pcs| && WaitGoesOn(r, a, k, t)
    decreases k
  {
    hide Inv, Enabled, Apply, HasWaited, WasWoken;
    RunKeeps(r, acts, k - 1);
    RunKeeps(r, acts, k);
    StepSize(r[k - 1], acts[k - 1]);
    StepAdvances(r[k - 1], acts[k - 1], t);
    if a < k - 1 {
      WaitReturns(r, acts, a, k - 1, t);
      WaitStep(r[k - 1], acts[k - 1], t);
      WaitedLonger(r, a, k, t);
      HolderAt(r[k - 1], t);
      HolderAt(r[k], t);
    }
  }

  /** A signal or broadcast comes back where it was called: as the holder or outside. */
  lemma {:induction false} SignalReturns(r: seq<State>, acts: seq<Act>, a: nat, k: nat, t: nat)
    requires IsRun(r, acts) && a < k < |r| && (acts[a] == Signal(t) || acts[a] == Broadcast(t))
    requires forall m :: a < m < k ==> t < |r[m].pcs| && !Idle(r[m].pcs[t])
    ensures t < |r[a].pcs| && t < |r[k].pcs|
    ensures var pc := r[k].pcs[t];
            ((pc.SigChan? || pc.BcChan?) && pc.inside == r[a].pcs[t].Holding?) || pc == r[a].pcs[t]
    decreases k
  {
    hide Inv, Enabled, Apply;
    RunKeeps(r, acts, k - 1);
    StepSize(r[k - 1], acts[k - 1]);
    if a < k - 1 {
      SignalReturns(r, acts, a, k - 1, t);
    } else {
      SignalCalled(r[a], acts[a], t);
    }
    StepAdvances(r[k - 1], acts[k - 1], t);
    StepSize(r[a], acts[a]);
    SignalCalled(r[a], acts[a], t);
  }

  lemma SignalCalled(s: State, a: Act, t: nat)
    requires Enabled(s, a) && (a == Signal(t) || a == Broadcast(t))
    ensures t < |s.pcs| && Idle(s.pcs[t])
  {
  }

  lemma LocksInRange(s: State)
    requires Inv(s)
    ensures s.spin.Some? ==> s.spin.value < |s.pcs|
    ensures s.lkwc.Some? ==> s.lkwc.value < |s.pcs|
    ensures s.cvwc.Some? ==> s.cvwc.value < |s.pcs|
    ensures s.holder.Some? ==> s.holder.value < |s.pcs|
  {
  }

  /** The locks are taken in the order cv channel, lock_lock, lock channel, so whoever holds the
      last of them that is held can go on. */
  lemma SomebodyCanGo(s: State)
    requires Inv(s) && (s.lkwc.Some? || s.spin.Some? || s.cvwc.Some?)
    ensures exists i :: 0 <= i < |s.pcs| && CanGo(s, i)
  {
    hide Inv;
    Targets(s);
    LocksInRange(s);
    var i := if s.lkwc.Some? then s.lkwc.value else if s.spin.Some? then s.spin.value else s.cvwc.value;
    InvAt(s, i);
    assert CanGo(s, i);
  }

  lemma GrabbedCanGo(s: State)
    requires Inv(s) && s.grabbed != []
    ensures Enabled(s, Deliver(0))
  {
    hide Inv;
    GrabbedIs(s, 0);
  }

  lemma StillAt(s: State, i: nat)
    requires Inv(s) && i < |s.pcs| && !CanGo(s, i)
    requires s.grabbed == [] && s.lkwc.None? && s.spin.None? && s.cvwc.None?
    ensures s.pcs[i].Out? || s.pcs[i].Holding? || s.pcs[i].AAsleep? || s.pcs[i].CvAsleep?
  {
    Targets(s);
    InvAt(s, i);
    assert IsCvGrabbed(s.pcs[i]) ==> i in s.grabbed;
  }

  /** When no thread inside an operation can move, every thread is outside, holds the lock, sleeps
      on a lock that another thread holds, or waits on the condition variable. */
  lemma Quiet(r: seq<State>, acts: seq<Act>, k: nat)
    requires IsRun(r, acts) && k < |r|
    requires forall a: Act :: a.Go? || a.Deliver? ==> !Enabled(r[k], a)
    ensures forall i :: 0 <= i < |r[k].pcs| ==>
              r[k].pcs[i].Out? || r[k].pcs[i].Holding? || r[k].pcs[i].AAsleep? || r[k].pcs[i].CvAsleep?
    ensures forall i :: 0 <= i < |r[k].pcs| && r[k].pcs[i].AAsleep? ==>
              r[k].holder.Some? && r[k].holder.value < |r[k].pcs| && r[k].pcs[r[k].holder.value].Holding?
  {
    hide Inv, IsRun, CanGo;
    var s := r[k];
    RunKeeps(r, acts, k);
    LocksInRange(s);
    forall i | 0 <= i < |s.pcs| ensures !CanGo(s, i) {
      assert !Enabled(s, Go(i));
    }
    if s.grabbed != [] {
      GrabbedCanGo(s);
    }
    if s.lkwc.Some? || s.spin.Some? || s.cvwc.Some? {
      SomebodyCanGo(s);
    }
    forall i | 0 <= i < |s.pcs|
      ensures s.pcs[i].Out? || s.pcs[i].Holding? || s.pcs[i].AAsleep? || s.pcs[i].CvAsleep? {
      StillAt(s, i);
    }
    forall i | 0 <= i < |s.pcs| && s.pcs[i].AAsleep?
      ensures s.holder.Some? && s.pcs[s.holder.value].Holding? {
      if s.holder.None? {
        FreeLockHasHelper(r, acts, k, i);
      } else {
        InvAt(s, s.holder.value);
      }
    }
  }

  // ---------------------------------------------------------------------------
  // Coming to rest
  // ---------------------------------------------------------------------------

  /** How far a thread is from the end of its operation or from sleep. Waking a thread that sleeps on
      the lock sets that one back, which the release that does it has to pay for; a thread waits on the
      condition variable once in an operation. */
  function Rank(pc: Pc): nat
  {
    match pc
    case Out => 0
    case Holding => 0
    case AAsleep => 0
    case ATaken => 1
    case Again => 1
    case ACommit => 7
    case ABoth => 8
    case ABridge => 9
    case ACheck(_) => 10
    case AWoken => 11
    case AGrabbed => 12
    case CvWoken => 11
    case CvGrabbed => 12
    case CvAsleep => 13
    case CvCommit => 14
    case RelDone(_) => 15
    case RelWaker(_, _) => 16
    case RelChan(_) => 29
    case RelCleared(_) => 30
    case RelSpin(_) => 31
    case CvLocked => 32
    case SigChan(_) => 1
    case BcChan(_) => 1
  }

  function Ranks(pcs: seq<Pc>): nat
  {
    if |pcs| == 0 then 0 else Ranks(pcs[..|pcs| - 1]) + Rank(pcs[|pcs| - 1])
  }

  lemma {:induction false} RanksUpdate(pcs: seq<Pc>, i: nat, pc: Pc)
    requires i < |pcs|
    ensures Ranks(pcs[i := pc]) == Ranks(pcs) - Rank(pcs[i]) + Rank(pc)
  {
    hide Rank;
    var n := |pcs| - 1;
    if i == n {
      assert pcs[i := pc][..n] == pcs[..n];
    } else {
      RanksUpdate(pcs[..n], i, pc);
      assert pcs[i := pc][..n] == pcs[..n][i := pc];
    }
  }

  lemma {:induction false} RanksBound(pcs: seq<Pc>)
    ensures Ranks(pcs) <= 32 * |pcs|
  {
    if |pcs| > 0 {
      RanksBound(pcs[..|pcs| - 1]);
    }
  }

  lemma {:induction false} GrabAllRests(pcs: seq<Pc>)
    ensures Ranks(GrabAll(pcs)) <= Ranks(pcs)
  {
    if |pcs| > 0 {
      var n := |pcs| - 1;
      GrabAllRests(pcs[..n]);
      assert GrabAll(pcs)[..n] == GrabAll(pcs[..n]);
    }
  }

  lemma WakerRests(s: State, i: nat)
    requires Inv(s) && i < |s.pcs| && CanGo(s, i) && (s.pcs[i].RelChan? || s.pcs[i].RelWaker?)
    ensures Ranks(ApplyGo(s, i).pcs) < Ranks(s.pcs)
  {
    hide Inv, Ranks;
    Targets(s);
    var s' := ApplyGo(s, i);
    if s.pcs[i].RelWaker? {
      var t := s.pcs[i].target;
      RanksUpdate(s.pcs, t, AWoken);
      RanksUpdate(s.pcs[t := AWoken], i, s'.pcs[i]);
    } else if s.lkchan != [] {
      var t := s.lkchan[0];
      RanksUpdate(s.pcs, t, AGrabbed);
      RanksUpdate(s.pcs[t := AGrabbed], i, s'.pcs[i]);
    } else {
      RanksUpdate(s.pcs, i, s'.pcs[i]);
    }
  }

  lemma SignalRests(s: State, i: nat)
    requires Inv(s) && i < |s.pcs| && CanGo(s, i) && (s.pcs[i].SigChan? || s.pcs[i].BcChan?)
    ensures Ranks(ApplyGo(s, i).pcs) < Ranks(s.pcs)
  {
    hide Inv, Ranks, GrabAll;
    Targets(s);
    var s' := ApplyGo(s, i);
    if s.pcs[i].BcChan? {
      GrabAllRests(s.pcs);
      RanksUpdate(GrabAll(s.pcs), i, s'.pcs[i]);
    } else if s.cvchan != [] {
      var t := s.cvchan[0];
      RanksUpdate(s.pcs, t, CvGrabbed);
      RanksUpdate(s.pcs[t := CvGrabbed], i, s'.pcs[i]);
    } else {
      RanksUpdate(s.pcs, i, s'.pcs[i]);
    }
  }

  lemma LoneRests(s: State, i: nat)
    requires i < |s.pcs| && CanGo(s, i)
    requires !s.pcs[i].RelChan? && !s.pcs[i].RelWaker? && !s.pcs[i].SigChan? && !s.pcs[i].BcChan?
    ensures Ranks(ApplyGo(s, i).pcs) < Ranks(s.pcs)
  {
    hide Ranks;
    var s' := ApplyGo(s, i);
    assert s'.pcs == s.pcs[i := s'.pcs[i]];
    RanksUpdate(s.pcs, i, s'.pcs[i]);
  }

  /** Every step but a new call brings the threads, taken together, nearer to rest. */
  lemma GoRests(s: State, a: Act)
    requires Inv(s) && Enabled(s, a) && (a.Go? || a.Deliver?)
    ensures |Apply(s, a).pcs| == |s.pcs| && Ranks(Apply(s, a).pcs) < Ranks(s.pcs)
  {
    hide Inv, Ranks, ApplyGo;
    if a.Deliver? {
      GrabbedIs(s, a.i);
      RanksUpdate(s.pcs, s.grabbed[a.i], CvWoken);
    } else if s.pcs[a.i].RelChan? || s.pcs[a.i].RelWaker? {
      WakerRests(s, a.i);
    } else if s.pcs[a.i].SigChan? || s.pcs[a.i].BcChan? {
      SignalRests(s, a.i);
    } else {
      LoneRests(s, a.i);
    }
  }

  /** However the threads are scheduled, without new calls there are at most thirty-two steps for each;
      Quiet says what they have come to when there are no more. */
  lemma {:induction false} RestsInTime(r: seq<State>, acts: seq<Act>, a: nat, k: nat)
    requires IsRun(r, acts) && a <= k < |r| && forall m :: a <= m < k ==> acts[m].Go? || acts[m].Deliver?
    ensures |r[k].pcs| == |r[a].pcs| && k - a + Ranks(r[k].pcs) <= Ranks(r[a].pcs) <= 32 * |r[a].pcs|
    decreases k
  {
    hide Inv, Enabled, Apply, Ranks;
    RanksBound(r[a].pcs);
    if a < k {
      RestsInTime(r, acts, a, k - 1);
      RunKeeps(r, acts, k - 1);
      GoRests(r[k - 1], acts[k - 1]);
    }
  }

  lemma AgainGo(s: State, i: nat, t: nat)
    requires Inv(s) && i < |s.pcs| && CanGo(s, i) && t < |s.pcs|
    ensures ApplyGo(s, i).pcs[t] == ACheck(true) <==> if i == t then s.pcs[t].AWoken? else s.pcs[t] == ACheck(true)
  {
    hide Inv;
    if i == t {
      Targets(s);
    } else {
      OtherGo(s, i, t);
      hide ApplyGo;
    }
  }

  /** A thread tests the holder again after a wakeup, and only then. */
  lemma AgainAfterWakeup(s: State, a: Act, t: nat)
    requires Inv(s) && Enabled(s, a) && t < |s.pcs|
    ensures Apply(s, a).pcs[t] == ACheck(true) <==>
            (a == Go(t) && s.pcs[t].AWoken?) || (a != Go(t) && s.pcs[t] == ACheck(true))
  {
    hide Inv, ApplyGo;
    if a.Go? {
      AgainGo(s, a.i, t);
    } else if a.Deliver? {
      GrabbedIs(s, a.i);
    }
  }
}
