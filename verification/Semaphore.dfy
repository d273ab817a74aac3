/** Semaphores (P and V of synch.c) over a spinlock and a wait channel, for any number of
    threads: one step per spinlock operation or list operation, in every interleaving. */
module Semaphore {
  import opened Basics

  datatype Pc =
    | Out                 // in neither P nor V
    | PCheck(again: bool) // holds sem_lock, about to test sem_count; `again` after a wakeup
    | PBridge             // saw zero; holds sem_lock, wants the channel lock
    | PBoth               // holds sem_lock and the channel lock
    | PCommit             // holds only the channel lock, on its way into wchan_sleep
    | PAsleep             // on the channel
    | PGrabbed            // taken off the channel by a V, not yet runnable
    | PWoken              // runnable, wants sem_lock again
    | PTaken              // has decremented, about to release sem_lock
    | VLocked             // holds sem_lock, about to increment
    | VCounted            // has incremented, wants the channel lock
    | VChan               // holds sem_lock and the channel lock
    | VWaker(target: nat) // holds sem_lock, about to make target runnable
    | VDone               // about to release sem_lock

  datatype State = State(pcs: seq<Pc>, semlock: Option<nat>, wclock: Option<nat>, count: int, chan: seq<nat>)

  datatype Act = CallP(i: nat) | CallV(i: nat) | Go(i: nat)

  predicate Enabled(s: State, a: Act)
  {
    a.i < |s.pcs| &&
    match a
    case CallP(i) => s.pcs[i].Out? && s.semlock.None?
    case CallV(i) => s.pcs[i].Out? && s.semlock.None?
    case Go(i) =>
      match s.pcs[i]
      case Out => false
      case PAsleep => false
      case PGrabbed => false
      case PBridge => s.wclock.None?
      case VCounted => s.wclock.None?
      case PWoken => s.semlock.None?
      case VLocked => s.count < INT_MAX
      case VWaker(t) => t < |s.pcs|
      case VChan => s.chan != [] ==> s.chan[0] < |s.pcs|
      case _ => true
  }

  function Move(s: State, i: nat, pc: Pc): State
    requires i < |s.pcs|
  {
    s.(pcs := s.pcs[i := pc])
  }

  function Apply(s: State, a: Act): State
    requires Enabled(s, a)
  {
    match a
    case CallP(i) => Move(s, i, PCheck(false)).(semlock := Some(i))
    case CallV(i) => Move(s, i, VLocked).(semlock := Some(i))
    case Go(i) =>
      match s.pcs[i]
      case PCheck(_) =>
        if s.count == 0 then Move(s, i, PBridge)
        else Move(s, i, PTaken).(count := s.count - 1)
      case PBridge => Move(s, i, PBoth).(wclock := Some(i))
      case PBoth => Move(s, i, PCommit).(semlock := None)
      case PCommit => Move(s, i, PAsleep).(wclock := None, chan := s.chan + [i])
      case PWoken => Move(s, i, PCheck(true)).(semlock := Some(i))
      case PTaken => Move(s, i, Out).(semlock := None)
      case VLocked => Move(s, i, VCounted).(count := s.count + 1)
      case VCounted => Move(s, i, VChan).(wclock := Some(i))
      case VChan =>
        if s.chan == [] then Move(s, i, VDone).(wclock := None)
        else Move(Move(s, s.chan[0], PGrabbed), i, VWaker(s.chan[0])).(wclock := None, chan := s.chan[1..])
      case VWaker(t) => Move(Move(s, t, PWoken), i, VDone)
      case VDone => Move(s, i, Out).(semlock := None)
      case Out => s
      case PAsleep => s
      case PGrabbed => s
  }

  // ---------------------------------------------------------------------------
  // Invariant
  // ---------------------------------------------------------------------------

  predicate HoldsSem(pc: Pc)
  {
    pc.PCheck? || pc.PBridge? || pc.PBoth? || pc.PTaken? || pc.VLocked? || pc.VCounted? || pc.VChan? || pc.VWaker?
      || pc.VDone?
  }

  predicate HoldsChan(pc: Pc) { pc.PBoth? || pc.PCommit? || pc.VChan? }

  /** Asleep, or past the point of no return. */
  predicate Sleeping(pc: Pc) { pc.PBoth? || pc.PCommit? || pc.PAsleep? }

  /** One for each thread woken but not yet rechecking, and for each wakeup still to come. */
  function Help(pc: Pc): nat
  {
    if pc.PGrabbed? || pc.PWoken? || pc == PCheck(true) || pc.VCounted? || pc.VChan? then 1 else 0
  }

  function Helpers(pcs: seq<Pc>): nat
  {
    if |pcs| == 0 then 0 else Helpers(pcs[..|pcs| - 1]) + Help(pcs[|pcs| - 1])
  }

  ghost predicate LocksOk(s: State)
  {
    && (forall i :: 0 <= i < |s.pcs| ==> (HoldsSem(s.pcs[i]) <==> s.semlock == Some(i)))
    && (forall i :: 0 <= i < |s.pcs| ==> (HoldsChan(s.pcs[i]) <==> s.wclock == Some(i)))
    && (s.semlock.Some? ==> s.semlock.value < |s.pcs|)
    && (s.wclock.Some? ==> s.wclock.value < |s.pcs|)
  }

  ghost predicate ChanOk(s: State)
  {
    && (forall k :: 0 <= k < |s.chan| ==> s.chan[k] < |s.pcs| && s.pcs[s.chan[k]].PAsleep?)
    && (forall k, m :: 0 <= k < m < |s.chan| ==> s.chan[k] != s.chan[m])
    && (forall i :: 0 <= i < |s.pcs| && s.pcs[i].PAsleep? ==> i in s.chan)
  }

  /** A grabbed thread belongs to exactly the waker that holds sem_lock. */
  ghost predicate WakersOk(s: State)
  {
    && (forall i :: 0 <= i < |s.pcs| && s.pcs[i].VWaker? ==>
          s.pcs[i].target < |s.pcs| && s.pcs[s.pcs[i].target].PGrabbed?)
    && (forall j :: 0 <= j < |s.pcs| && s.pcs[j].PGrabbed? ==>
          s.semlock.Some? && s.semlock.value < |s.pcs| && s.pcs[s.semlock.value] == VWaker(j))
  }

  ghost predicate CountOk(s: State)
  {
    && 0 <= s.count <= INT_MAX
    && (forall i :: 0 <= i < |s.pcs| && (s.pcs[i].PBridge? || s.pcs[i].PBoth?) ==> s.count == 0)
  }

  /** While anyone sleeps, every unit of the count has somebody on the way to claim it. */
  ghost predicate NoneLost(s: State)
  {
    (exists i :: 0 <= i < |s.pcs| && Sleeping(s.pcs[i])) ==> s.count <= Helpers(s.pcs)
  }

  ghost predicate Inv(s: State)
  {
    LocksOk(s) && ChanOk(s) && WakersOk(s) && CountOk(s) && NoneLost(s)
  }

  ghost predicate Init(s: State)
  {
    && (forall i :: 0 <= i < |s.pcs| ==> s.pcs[i].Out?)
    && s.semlock.None? && s.wclock.None? && s.chan == []
    && 0 <= s.count <= INT_MAX
  }

  // ---------------------------------------------------------------------------
  // Preservation
  // ---------------------------------------------------------------------------

  lemma {:induction false} HelpersUpdate(pcs: seq<Pc>, i: nat, pc: Pc)
    requires i < |pcs|
    ensures Helpers(pcs[i := pc]) + Help(pcs[i]) == Helpers(pcs) + Help(pc)
  {
    var n := |pcs| - 1;
    if i == n {
      assert pcs[i := pc][..n] == pcs[..n];
    } else {
      HelpersUpdate(pcs[..n], i, pc);
      assert pcs[i := pc][..n] == pcs[..n][i := pc];
    }
  }

  /** What a holder does to a lock: keeps it, takes it when free, or gives it up. */
  ghost predicate LockMoves(before: Option<nat>, after: Option<nat>, i: nat, held: bool, holds: bool)
  {
    if held == holds then after == before
    else if holds then before.None? && after == Some(i)
    else after.None?
  }

  /** Two threads may change place at once: the one that steps and the one it wakes. */
  ghost predicate Differ(s: State, s': State, i: nat, j: nat)
  {
    && |s'.pcs| == |s.pcs| && i < |s.pcs| && j < |s.pcs|
    && (forall k :: 0 <= k < |s.pcs| && k != i && k != j ==> s'.pcs[k] == s.pcs[k])
  }

  ghost predicate Passive(pc: Pc) { pc.PAsleep? || pc.PGrabbed? || pc.PWoken? }

  lemma LocksKept(s: State, s': State, i: nat, j: nat)
    requires LocksOk(s) && Differ(s, s', i, j) && (i != j ==> Passive(s.pcs[j]) && Passive(s'.pcs[j]))
    requires LockMoves(s.semlock, s'.semlock, i, HoldsSem(s.pcs[i]), HoldsSem(s'.pcs[i]))
    requires LockMoves(s.wclock, s'.wclock, i, HoldsChan(s.pcs[i]), HoldsChan(s'.pcs[i]))
    ensures LocksOk(s')
  {
  }

  /** Steps that touch neither the channel nor a waker's target. */
  lemma ChanAlone(s: State, s': State, i: nat)
    requires LocksOk(s) && ChanOk(s) && WakersOk(s) && Differ(s, s', i, i) && s'.chan == s.chan
    requires LockMoves(s.semlock, s'.semlock, i, HoldsSem(s.pcs[i]), HoldsSem(s'.pcs[i]))
    requires !s.pcs[i].VWaker? && !s'.pcs[i].VWaker? && !s.pcs[i].PAsleep? && !s'.pcs[i].PAsleep?
    requires !s.pcs[i].PGrabbed? && !s'.pcs[i].PGrabbed?
    ensures ChanOk(s') && WakersOk(s')
  {
  }

  lemma PlainStep(s: State, s': State, i: nat)
    requires Inv(s) && Differ(s, s', i, i) && s'.chan == s.chan
    requires LockMoves(s.semlock, s'.semlock, i, HoldsSem(s.pcs[i]), HoldsSem(s'.pcs[i]))
    requires LockMoves(s.wclock, s'.wclock, i, HoldsChan(s.pcs[i]), HoldsChan(s'.pcs[i]))
    requires !s.pcs[i].VWaker? && !s'.pcs[i].VWaker? && !s.pcs[i].PAsleep? && !s'.pcs[i].PAsleep?
    requires !s.pcs[i].PGrabbed? && !s'.pcs[i].PGrabbed?
    requires CountOk(s') && NoneLost(s')
    ensures Inv(s')
  {
    LocksKept(s, s', i, i);
    ChanAlone(s, s', i);
  }

  /** A step that neither wakes nor puts anyone to sleep, nor lowers the help at hand. */
  lemma NoneLostKept(s: State, s': State, i: nat)
    requires NoneLost(s) && Differ(s, s', i, i)
    requires s'.pcs == s.pcs[i := s'.pcs[i]]
    requires Sleeping(s'.pcs[i]) ==> Sleeping(s.pcs[i]) || s'.count == 0
    requires s'.count <= 0 || s'.count - s.count <= Help(s'.pcs[i]) - Help(s.pcs[i])
    ensures NoneLost(s')
  {
    HelpersUpdate(s.pcs, i, s'.pcs[i]);
    if k :| 0 <= k < |s'.pcs| && Sleeping(s'.pcs[k]) {
      assert s'.count > 0 ==> Sleeping(s.pcs[k]);
    }
  }

  lemma CallKeeps(s: State, a: Act)
    requires Inv(s) && Enabled(s, a) && !a.Go?
    ensures Inv(Apply(s, a))
  {
    NoneLostKept(s, Apply(s, a), a.i);
    PlainStep(s, Apply(s, a), a.i);
  }

  /** Steps of P. */
  lemma PKeeps(s: State, i: nat)
    requires Inv(s) && Enabled(s, Go(i))
    requires var pc := s.pcs[i]; pc.PCheck? || pc.PBridge? || pc.PBoth? || pc.PWoken? || pc.PTaken?
    ensures Inv(Apply(s, Go(i)))
  {
    hide LocksOk, ChanOk, WakersOk;
    var s' := Apply(s, Go(i));
    NoneLostKept(s, s', i);
    assert CountOk(s');
    hide NoneLost, CountOk;
    PlainStep(s, s', i);
  }

  /** wchan_sleep: the channel lock is held until the thread is on the list. */
  lemma SleepKeeps(s: State, i: nat)
    requires Inv(s) && i < |s.pcs| && s.pcs[i].PCommit?
    ensures Inv(Apply(s, Go(i)))
  {
    hide ChanOk;
    var s' := Apply(s, Go(i));
    LocksKept(s, s', i, i);
    JoinChan(s, s', i);
    assert WakersOk(s');
    hide WakersOk, LocksOk;
    NoneLostKept(s, s', i);
  }

  lemma JoinChan(s: State, s': State, i: nat)
    requires ChanOk(s) && i < |s.pcs| && !s.pcs[i].PAsleep?
    requires |s'.pcs| == |s.pcs| && s'.pcs == s.pcs[i := PAsleep] && s'.chan == s.chan + [i]
    ensures ChanOk(s')
  {
    assert i !in s.chan;
    forall k | 0 <= k < |s.pcs| && s'.pcs[k].PAsleep? ensures k in s'.chan {
      assert k == i || k in s.chan;
    }
  }

  lemma VKeeps(s: State, i: nat)
    requires Inv(s) && Enabled(s, Go(i)) && (s.pcs[i].VLocked? || s.pcs[i].VCounted? || s.pcs[i].VDone?)
    ensures Inv(Apply(s, Go(i)))
  {
    hide ChanOk, WakersOk;
    var s' := Apply(s, Go(i));
    NoneLostKept(s, s', i);
    assert CountOk(s');
    hide NoneLost, CountOk;
    PlainStep(s, s', i);
  }

  /** A wakeup that finds the channel empty loses nothing: the channel lock excludes anyone
      who has decided to sleep but is not yet on the list. */
  lemma EmptyWakeKeeps(s: State, i: nat)
    requires Inv(s) && i < |s.pcs| && s.pcs[i].VChan? && s.chan == []
    ensures Inv(Apply(s, Go(i)))
  {
    var s' := Apply(s, Go(i));
    forall k | 0 <= k < |s.pcs| ensures !Sleeping(s'.pcs[k]) {
      assert HoldsChan(s.pcs[k]) ==> k == i;
    }
    PlainStep(s, s', i);
  }

  lemma WakeKeeps(s: State, i: nat)
    requires Inv(s) && i < |s.pcs| && s.pcs[i].VChan? && s.chan != []
    ensures Enabled(s, Go(i)) && Inv(Apply(s, Go(i)))
  {
    var t := s.chan[0];
    var s1, s' := Move(s, t, PGrabbed), Apply(s, Go(i));
    assert t != i;
    LocksKept(s, s', i, t);
    GrabChan(s, s', i, t);
    GrabWaker(s, s', i, t);
    assert CountOk(s');
    hide ChanOk, WakersOk, LocksOk, CountOk;
    HelpersUpdate(s.pcs, t, PGrabbed);
    HelpersUpdate(s1.pcs, i, VWaker(t));
    if k :| 0 <= k < |s'.pcs| && Sleeping(s'.pcs[k]) {
      assert Sleeping(s.pcs[k]);
    }
  }

  ghost predicate Grabs(s: State, s': State, i: nat, t: nat)
  {
    && i < |s.pcs| && s.pcs[i].VChan? && s.chan != [] && t == s.chan[0] && t != i && t < |s.pcs|
    && s' == Move(Move(s, t, PGrabbed), i, VWaker(t)).(wclock := None, chan := s.chan[1..])
  }

  lemma GrabChan(s: State, s': State, i: nat, t: nat)
    requires ChanOk(s) && Grabs(s, s', i, t)
    ensures ChanOk(s')
  {
    forall k | 0 <= k < |s'.chan| ensures s'.chan[k] == s.chan[k + 1] && s.chan[k + 1] != t && s.chan[k + 1] != i {
      assert s.pcs[s.chan[k + 1]].PAsleep?;
    }
    forall k | 0 <= k < |s'.pcs| && s'.pcs[k].PAsleep? ensures k in s'.chan {
      assert k in s.chan && k != t;
      var m :| 0 <= m < |s.chan| && s.chan[m] == k;
      assert s'.chan[m - 1] == k;
    }
  }

  lemma GrabWaker(s: State, s': State, i: nat, t: nat)
    requires LocksOk(s) && WakersOk(s) && Grabs(s, s', i, t)
    ensures WakersOk(s')
  {
    assert HoldsSem(s.pcs[i]);
    forall j | 0 <= j < |s'.pcs| && s'.pcs[j].PGrabbed? ensures j == t {
      assert !s.pcs[j].PGrabbed?;
    }
    forall j | 0 <= j < |s'.pcs| && s'.pcs[j].VWaker? ensures j == i {
      assert HoldsSem(s.pcs[j]) ==> j == i;
    }
  }

  lemma RunnableKeeps(s: State, i: nat)
    requires Inv(s) && i < |s.pcs| && s.pcs[i].VWaker?
    ensures Enabled(s, Go(i)) && Inv(Apply(s, Go(i)))
  {
    var t := s.pcs[i].target;
    var s1, s' := Move(s, t, PWoken), Apply(s, Go(i));
    assert t != i;
    LocksKept(s, s', i, t);
    NoWakersLeft(s, s', i, t);
    assert ChanOk(s');
    assert CountOk(s');
    hide ChanOk, WakersOk, LocksOk, CountOk;
    HelpersUpdate(s.pcs, t, PWoken);
    HelpersUpdate(s1.pcs, i, VDone);
    if k :| 0 <= k < |s'.pcs| && Sleeping(s'.pcs[k]) {
      assert Sleeping(s.pcs[k]);
    }
  }

  lemma NoWakersLeft(s: State, s': State, i: nat, t: nat)
    requires LocksOk(s) && WakersOk(s) && i < |s.pcs| && s.pcs[i] == VWaker(t) && t < |s.pcs| && t != i
    requires s' == Move(Move(s, t, PWoken), i, VDone)
    ensures WakersOk(s')
  {
    assert HoldsSem(s.pcs[i]);
    forall j | 0 <= j < |s'.pcs| ensures !s'.pcs[j].PGrabbed? {
      assert s.pcs[j].PGrabbed? ==> s.pcs[i] == VWaker(j);
    }
    forall j | 0 <= j < |s'.pcs| ensures !s'.pcs[j].VWaker? {
      assert HoldsSem(s.pcs[j]) ==> j == i;
    }
  }

  lemma StepKeeps(s: State, a: Act)
    requires Inv(s) && Enabled(s, a)
    ensures Inv(Apply(s, a))
  {
    hide Inv;
    if !a.Go? {
      CallKeeps(s, a);
    } else {
      match s.pcs[a.i] {
        case PCommit => SleepKeeps(s, a.i);
        case VChan => if s.chan == [] { EmptyWakeKeeps(s, a.i); } else { WakeKeeps(s, a.i); }
        case VWaker(_) => RunnableKeeps(s, a.i);
        case VLocked => VKeeps(s, a.i);
        case VCounted => VKeeps(s, a.i);
        case VDone => VKeeps(s, a.i);
        case _ => PKeeps(s, a.i);
      }
    }
  }

  // ---------------------------------------------------------------------------
  // Every run
  // ---------------------------------------------------------------------------

  ghost predicate IsRun(r: seq<State>, acts: seq<Act>)
  {
    && |r| == |acts| + 1 && Init(r[0])
    && forall i :: 0 <= i < |acts| ==> Enabled(r[i], acts[i]) && r[i + 1] == Apply(r[i], acts[i])
  }

  lemma {:induction false} RunKeeps(r: seq<State>, acts: seq<Act>, i: nat)
    requires IsRun(r, acts) && i < |r|
    ensures Inv(r[i])
  {
    hide Inv, Enabled, Apply;
    if i > 0 {
      RunKeeps(r, acts, i - 1);
      StepKeeps(r[i - 1], acts[i - 1]);
    } else {
      InitHolds(r[0]);
    }
  }

  lemma InitHolds(s: State)
    requires Init(s)
    ensures Inv(s)
  {
  }

  // ---------------------------------------------------------------------------
  // What a call of P or V has done when it returns
  // ---------------------------------------------------------------------------

  /** Inside P, with its decrement still to come. */
  predicate PPending(pc: Pc)
  {
    pc.PCheck? || pc.PBridge? || pc.PBoth? || pc.PCommit? || pc.PAsleep? || pc.PGrabbed? || pc.PWoken?
  }

  /** Inside V, with its increment done. */
  predicate VPast(pc: Pc) { pc.VCounted? || pc.VChan? || pc.VWaker? || pc.VDone? }

  /** The act is thread t's increment, or decrement, in a run. */
  predicate Up(s: State, a: Act, t: nat) { a == Go(t) && t < |s.pcs| && s.pcs[t].VLocked? }

  predicate Down(s: State, a: Act, s': State, t: nat)
  {
    a == Go(t) && t < |s.pcs| && t < |s'.pcs| && s.pcs[t].PCheck? && s'.pcs[t].PTaken?
  }

  /** How often thread t has incremented by state i. */
  ghost function Ups(r: seq<State>, acts: seq<Act>, t: nat, i: nat): nat
    requires i < |r| == |acts| + 1
  {
    if i == 0 then 0 else Ups(r, acts, t, i - 1) + if Up(r[i - 1], acts[i - 1], t) then 1 else 0
  }

  ghost function Downs(r: seq<State>, acts: seq<Act>, t: nat, i: nat): nat
    requires i < |r| == |acts| + 1
  {
    if i == 0 then 0 else Downs(r, acts, t, i - 1) + if Down(r[i - 1], acts[i - 1], r[i], t) then 1 else 0
  }

  /** The same for the threads below n together. */
  ghost function AllUps(r: seq<State>, acts: seq<Act>, n: nat, i: nat): nat
    requires i < |r| == |acts| + 1
  {
    if n == 0 then 0 else AllUps(r, acts, n - 1, i) + Ups(r, acts, n - 1, i)
  }

  ghost function AllDowns(r: seq<State>, acts: seq<Act>, n: nat, i: nat): nat
    requires i < |r| == |acts| + 1
  {
    if n == 0 then 0 else AllDowns(r, acts, n - 1, i) + Downs(r, acts, n - 1, i)
  }

  lemma {:induction false} NoneYet(r: seq<State>, acts: seq<Act>, n: nat)
    requires |r| == |acts| + 1
    ensures AllUps(r, acts, n, 0) == AllDowns(r, acts, n, 0) == 0
  {
    if n > 0 {
      NoneYet(r, acts, n - 1);
    }
  }

  /** One act is at most one thread's increment or decrement. */
  lemma {:induction false} OneMore(r: seq<State>, acts: seq<Act>, n: nat, i: nat)
    requires 0 < i < |r| == |acts| + 1
    ensures var s, a, t := r[i - 1], acts[i - 1], acts[i - 1].i;
            && AllUps(r, acts, n, i) == AllUps(r, acts, n, i - 1) + (if t < n && Up(s, a, t) then 1 else 0)
            && AllDowns(r, acts, n, i) == AllDowns(r, acts, n, i - 1) + (if t < n && Down(s, a, r[i], t) then 1 else 0)
  {
    if n > 0 {
      OneMore(r, acts, n - 1, i);
    }
  }

  lemma StepCounts(s: State, a: Act)
    requires Inv(s) && Enabled(s, a)
    ensures var s' := Apply(s, a);
            && |s'.pcs| == |s.pcs|
            && s'.count == s.count + (if Up(s, a, a.i) then 1 else 0) - (if Down(s, a, s', a.i) then 1 else 0)
  {
  }

  /** In every interleaving sem_count is the count at the start plus the increments, minus the
      decrements, that the threads have come past, and never negative. */
  lemma {:induction false} CountConserved(r: seq<State>, acts: seq<Act>, i: nat)
    requires IsRun(r, acts) && i < |r|
    ensures |r[i].pcs| == |r[0].pcs| && r[i].count >= 0
    ensures r[i].count == r[0].count + AllUps(r, acts, |r[0].pcs|, i) - AllDowns(r, acts, |r[0].pcs|, i)
  {
    hide Inv, Enabled, Apply, AllUps, AllDowns, Up, Down;
    RunKeeps(r, acts, i);
    NeverNegative(r[i]);
    if i == 0 {
      NoneYet(r, acts, |r[0].pcs|);
    } else {
      CountConserved(r, acts, i - 1);
      RunKeeps(r, acts, i - 1);
      StepCounts(r[i - 1], acts[i - 1]);
      OneMore(r, acts, |r[0].pcs|, i);
      InRange(r[i - 1], acts[i - 1]);
    }
  }

  lemma NeverNegative(s: State)
    requires Inv(s)
    ensures 0 <= s.count <= INT_MAX
  {
  }

  lemma InRange(s: State, a: Act)
    requires Enabled(s, a)
    ensures a.i < |s.pcs|
  {
  }

  /** How one step moves a thread that is inside P or V. */
  lemma InsideStep(s: State, a: Act, t: nat)
    requires Inv(s) && Enabled(s, a) && t < |s.pcs|
    ensures var s' := Apply(s, a);
            && |s'.pcs| == |s.pcs|
            && (PPending(s.pcs[t]) ==> PPending(s'.pcs[t]) || (Down(s, a, s', t) && s'.pcs[t].PTaken?))
            && (s.pcs[t].PTaken? ==> s'.pcs[t].PTaken? || s'.pcs[t].Out?)
            && (s.pcs[t].VLocked? ==> if Up(s, a, t) then VPast(s'.pcs[t]) else s'.pcs[t].VLocked?)
            && (VPast(s.pcs[t]) ==> VPast(s'.pcs[t]) || s'.pcs[t].Out?)
            && (Down(s, a, s', t) ==> PPending(s.pcs[t]) && s'.pcs[t].PTaken?)
            && (s.pcs[t].Out? && a != CallP(t) && a != CallV(t) ==> s'.pcs[t].Out?)
            && (a == CallP(t) ==> PPending(s'.pcs[t])) && (a == CallV(t) ==> s'.pcs[t].VLocked?)
  {
    hide NoneLost, CountOk;
    var i := a.i;
    if a.Go? && i != t {
      if s.pcs[i].VChan? && s.chan != [] {
        assert s.pcs[s.chan[0]].PAsleep?;
      }
    }
  }

  /** A call of P that has come back to its caller has decremented once and incremented never. */
  lemma {:induction false} PTakesOne(r: seq<State>, acts: seq<Act>, a: nat, k: nat, t: nat)
    requires IsRun(r, acts) && a < k < |r| && acts[a] == CallP(t)
    requires forall m :: a < m < k ==> t < |r[m].pcs| && !r[m].pcs[t].Out?
    ensures t < |r[k].pcs| && (r[k].pcs[t].Out? || PPending(r[k].pcs[t]) || r[k].pcs[t].PTaken?)
    ensures Ups(r, acts, t, k) == Ups(r, acts, t, a)
    ensures Downs(r, acts, t, k) == Downs(r, acts, t, a) + if PPending(r[k].pcs[t]) then 0 else 1
    decreases k
  {
    hide Inv, Enabled, Apply;
    RunKeeps(r, acts, k - 1);
    if a == k - 1 {
      CallNow(r[a], acts[a], t);
    } else {
      PTakesOne(r, acts, a, k - 1, t);
    }
    InsideStep(r[k - 1], acts[k - 1], t);
  }

  lemma CallNow(s: State, a: Act, t: nat)
    requires Enabled(s, a) && (a == CallP(t) || a == CallV(t))
    ensures t < |s.pcs| && s.pcs[t].Out?
  {
  }

  /** A call of V that has come back has incremented once and decremented never. */
  lemma {:induction false} VAddsOne(r: seq<State>, acts: seq<Act>, a: nat, k: nat, t: nat)
    requires IsRun(r, acts) && a < k < |r| && acts[a] == CallV(t)
    requires forall m :: a < m < k ==> t < |r[m].pcs| && !r[m].pcs[t].Out?
    ensures t < |r[k].pcs| && (r[k].pcs[t].Out? || r[k].pcs[t].VLocked? || VPast(r[k].pcs[t]))
    ensures Downs(r, acts, t, k) == Downs(r, acts, t, a)
    ensures Ups(r, acts, t, k) == Ups(r, acts, t, a) + if r[k].pcs[t].VLocked? then 0 else 1
    decreases k
  {
    hide Inv, Enabled, Apply;
    RunKeeps(r, acts, k - 1);
    if a == k - 1 {
      CallNow(r[a], acts[a], t);
    } else {
      VAddsOne(r, acts, a, k - 1, t);
    }
    InsideStep(r[k - 1], acts[k - 1], t);
  }

  /** Calls by thread t among the acts. */
  function PCalls(acts: seq<Act>, t: nat): nat
  {
    if acts == [] then 0 else PCalls(acts[..|acts| - 1], t) + if acts[|acts| - 1] == CallP(t) then 1 else 0
  }

  function VCalls(acts: seq<Act>, t: nat): nat
  {
    if acts == [] then 0 else VCalls(acts[..|acts| - 1], t) + if acts[|acts| - 1] == CallV(t) then 1 else 0
  }

  lemma CallsStep(s: State, a: Act, t: nat)
    requires Inv(s) && Enabled(s, a) && t < |s.pcs|
    ensures var s' := Apply(s, a);
            && (if PPending(s'.pcs[t]) then 1 else 0) + (if Down(s, a, s', t) then 1 else 0) ==
               (if PPending(s.pcs[t]) then 1 else 0) + (if a == CallP(t) then 1 else 0)
            && (if s'.pcs[t].VLocked? then 1 else 0) + (if Up(s, a, t) then 1 else 0) ==
               (if s.pcs[t].VLocked? then 1 else 0) + (if a == CallV(t) then 1 else 0)
  {
    hide Inv, Enabled, Apply;
    InsideStep(s, a, t);
    if a == CallP(t) || a == CallV(t) {
      CallNow(s, a, t);
    }
  }

  /** Every call is one increment or decrement, done or still to come. */
  lemma {:induction false} CallsExact(r: seq<State>, acts: seq<Act>, i: nat, t: nat)
    requires IsRun(r, acts) && i < |r| && t < |r[0].pcs|
    ensures |r[i].pcs| == |r[0].pcs|
    ensures PCalls(acts[..i], t) == Downs(r, acts, t, i) + if PPending(r[i].pcs[t]) then 1 else 0
    ensures VCalls(acts[..i], t) == Ups(r, acts, t, i) + if r[i].pcs[t].VLocked? then 1 else 0
  {
    hide Inv, Enabled, Apply, Up, Down;
    if i > 0 {
      CallsExact(r, acts, i - 1, t);
      RunKeeps(r, acts, i - 1);
      StepCounts(r[i - 1], acts[i - 1]);
      CallsStep(r[i - 1], acts[i - 1], t);
      assert acts[..i][..i - 1] == acts[..i - 1];
    }
  }

  ghost function AllPCalls(acts: seq<Act>, n: nat): nat
  {
    if n == 0 then 0 else AllPCalls(acts, n - 1) + PCalls(acts, n - 1)
  }

  ghost function AllVCalls(acts: seq<Act>, n: nat): nat
  {
    if n == 0 then 0 else AllVCalls(acts, n - 1) + VCalls(acts, n - 1)
  }

  lemma {:induction false} AllCalls(r: seq<State>, acts: seq<Act>, i: nat, n: nat)
    requires IsRun(r, acts) && i < |r| && n <= |r[0].pcs| == |r[i].pcs|
    requires forall t :: 0 <= t < |r[i].pcs| ==> r[i].pcs[t].Out?
    ensures AllPCalls(acts[..i], n) == AllDowns(r, acts, n, i) && AllVCalls(acts[..i], n) == AllUps(r, acts, n, i)
  {
    hide IsRun, PCalls, VCalls, Ups, Downs;
    if n > 0 {
      AllCalls(r, acts, i, n - 1);
      CallsExact(r, acts, i, n - 1);
    }
  }

  /** When every call has returned, sem_count is the first count plus the calls of V minus those of P. */
  lemma CountAtRest(r: seq<State>, acts: seq<Act>, i: nat)
    requires IsRun(r, acts) && i < |r|
    requires forall t :: 0 <= t < |r[i].pcs| ==> r[i].pcs[t].Out?
    ensures |r[i].pcs| == |r[0].pcs|
    ensures r[i].count == r[0].count + AllVCalls(acts[..i], |r[0].pcs|) - AllPCalls(acts[..i], |r[0].pcs|)
  {
    hide IsRun;
    CountConserved(r, acts, i);
    AllCalls(r, acts, i, |r[0].pcs|);
  }

  /** No wakeup is lost: while a thread is asleep or committed to sleeping, the count does not
      exceed the threads and wakeups already on their way. */
  lemma NoLostWakeup(r: seq<State>, acts: seq<Act>, i: nat, t: nat)
    requires IsRun(r, acts) && i < |r| && t < |r[i].pcs| && Sleeping(r[i].pcs[t])
    ensures r[i].count <= Helpers(r[i].pcs)
  {
    RunKeeps(r, acts, i);
  }

  /** Hence, once nothing is in flight, a thread is asleep only if the count is zero. */
  lemma AsleepOnlyAtZero(r: seq<State>, acts: seq<Act>, i: nat, t: nat)
    requires IsRun(r, acts) && i < |r| && t < |r[i].pcs| && r[i].pcs[t].PAsleep?
    requires forall k :: 0 <= k < |r[i].pcs| ==> r[i].pcs[k].Out? || r[i].pcs[k].PAsleep?
    ensures r[i].count == 0
  {
    RunKeeps(r, acts, i);
    NoHelp(r[i].pcs);
  }

  lemma {:induction false} NoHelp(pcs: seq<Pc>)
    requires forall k :: 0 <= k < |pcs| ==> Help(pcs[k]) == 0
    ensures Helpers(pcs) == 0
  {
    if |pcs| > 0 {
      NoHelp(pcs[..|pcs| - 1]);
    }
  }

  /** The hand-over-hand locking cannot deadlock: while anyone is inside P or V and not
      asleep, somebody inside can step, unless the overflow assertion in V has fired. */
  lemma Progress(r: seq<State>, acts: seq<Act>, i: nat, t: nat) returns (k: nat)
    requires IsRun(r, acts) && i < |r| && t < |r[i].pcs| && !r[i].pcs[t].Out? && !r[i].pcs[t].PAsleep?
    ensures k < |r[i].pcs|
    ensures Enabled(r[i], Go(k)) || (r[i].pcs[k].VLocked? && r[i].count == INT_MAX)
  {
    RunKeeps(r, acts, i);
    hide IsRun;
    var s := r[i];
    if s.wclock.Some? {
      k := s.wclock.value;
      assert HoldsChan(s.pcs[k]);
    } else if s.semlock.Some? {
      k := s.semlock.value;
      assert HoldsSem(s.pcs[k]);
    } else {
      k := t;
      assert !HoldsSem(s.pcs[t]) && !HoldsChan(s.pcs[t]);
    }
  }

  // ---------------------------------------------------------------------------
  // Coming to rest
  // ---------------------------------------------------------------------------

  /** How far a thread is from the end of its call or from sleep. Waking a sleeper sets that one back,
      which the V that does it has to pay for. */
  function Rank(pc: Pc): nat
  {
    match pc
    case Out => 0
    case PAsleep => 0
    case PTaken => 1
    case PCommit => 7
    case PBoth => 8
    case PBridge => 9
    case PCheck(_) => 10
    case PWoken => 11
    case PGrabbed => 12
    case VDone => 1
    case VWaker(_) => 2
    case VChan => 15
    case VCounted => 16
    case VLocked => 17
  }

  function Ranks(pcs: seq<Pc>): nat
  {
    if |pcs| == 0 then 0 else Ranks(pcs[..|pcs| - 1]) + Rank(pcs[|pcs| - 1])
  }

  lemma {:induction false} RanksUpdate(pcs: seq<Pc>, i: nat, pc: Pc)
    requires i < |pcs|
    ensures Ranks(pcs[i := pc]) == Ranks(pcs) - Rank(pcs[i]) + Rank(pc)
  {
    hide Rank;
    var n := |pcs| - 1;
    if i == n {
      assert pcs[i := pc][..n] == pcs[..n];
    } else {
      RanksUpdate(pcs[..n], i, pc);
      assert pcs[i := pc][..n] == pcs[..n][i := pc];
    }
  }

  lemma {:induction false} RanksBound(pcs: seq<Pc>)
    ensures Ranks(pcs) <= 17 * |pcs|
  {
    if |pcs| > 0 {
      RanksBound(pcs[..|pcs| - 1]);
    }
  }

  /** Every step but a new call brings the threads, taken together, nearer to rest. */
  lemma GoRests(s: State, i: nat)
    requires Inv(s) && Enabled(s, Go(i))
    ensures |Apply(s, Go(i)).pcs| == |s.pcs| && Ranks(Apply(s, Go(i)).pcs) < Ranks(s.pcs)
  {
    hide NoneLost, CountOk, Ranks, Inv;
    var s' := Apply(s, Go(i));
    if s.pcs[i].VChan? && s.chan != [] {
      assert s.pcs[s.chan[0]].PAsleep? by { FirstAsleep(s); }
      var pcs := s.pcs[s.chan[0] := PGrabbed];
      RanksUpdate(s.pcs, s.chan[0], PGrabbed);
      RanksUpdate(pcs, i, s'.pcs[i]);
    } else if s.pcs[i].VWaker? {
      var t := s.pcs[i].target;
      assert s.pcs[t].PGrabbed? by { TargetGrabbed(s, i); }
      RanksUpdate(s.pcs, t, PWoken);
      RanksUpdate(s.pcs[t := PWoken], i, s'.pcs[i]);
    } else {
      RanksUpdate(s.pcs, i, s'.pcs[i]);
    }
  }

  lemma FirstAsleep(s: State)
    requires Inv(s) && s.chan != []
    ensures s.chan[0] < |s.pcs| && s.pcs[s.chan[0]].PAsleep?
  {
  }

  lemma TargetGrabbed(s: State, i: nat)
    requires Inv(s) && i < |s.pcs| && s.pcs[i].VWaker?
    ensures s.pcs[i].target < |s.pcs| && s.pcs[s.pcs[i].target].PGrabbed?
  {
  }

  /** However the threads are scheduled, without new calls there are at most seventeen steps for each. */
  lemma {:induction false} RestsInTime(r: seq<State>, acts: seq<Act>, a: nat, k: nat)
    requires IsRun(r, acts) && a <= k < |r| && forall m :: a <= m < k ==> acts[m].Go?
    ensures |r[k].pcs| == |r[a].pcs| && k - a + Ranks(r[k].pcs) <= Ranks(r[a].pcs) <= 17 * |r[a].pcs|
    decreases k
  {
    hide Inv, Enabled, Apply, Ranks;
    RanksBound(r[a].pcs);
    if a < k {
      RestsInTime(r, acts, a, k - 1);
      RunKeeps(r, acts, k - 1);
      GoRests(r[k - 1], acts[k - 1].i);
    }
  }

  /** When no thread can go on, every one is outside or asleep, with count zero if any is asleep,
      unless the overflow assertion in V has fired. */
  lemma AtRest(r: seq<State>, acts: seq<Act>, i: nat)
    requires IsRun(r, acts) && i < |r| && forall k: nat :: k < |r[i].pcs| ==> !Enabled(r[i], Go(k))
    requires forall k :: 0 <= k < |r[i].pcs| ==> !(r[i].pcs[k].VLocked? && r[i].count == INT_MAX)
    ensures forall t :: 0 <= t < |r[i].pcs| ==> r[i].pcs[t].Out? || (r[i].pcs[t].PAsleep? && r[i].count == 0)
  {
    hide IsRun, Enabled;
    forall t | 0 <= t < |r[i].pcs| ensures r[i].pcs[t].Out? || r[i].pcs[t].PAsleep? {
      if !r[i].pcs[t].Out? && !r[i].pcs[t].PAsleep? {
        var k := Progress(r, acts, i, t);
        assert false;
      }
    }
    if t :| 0 <= t < |r[i].pcs| && r[i].pcs[t].PAsleep? {
      AsleepOnlyAtZero(r, acts, i, t);
    }
  }

  /** A thread tests the count again after a wakeup, and only then. */
  lemma AgainAfterWakeup(s: State, a: Act, t: nat)
    requires Inv(s) && Enabled(s, a) && t < |s.pcs|
    ensures Apply(s, a).pcs[t] == PCheck(true) <==>
            (a == Go(t) && s.pcs[t].PWoken?) || (a != Go(t) && s.pcs[t] == PCheck(true))
  {
    hide NoneLost, CountOk;
    if a.Go? && s.pcs[a.i].VChan? && s.chan != [] {
      FirstAsleep(s);
    } else if a.Go? && s.pcs[a.i].VWaker? {
      TargetGrabbed(s, a.i);
    }
  }
}
