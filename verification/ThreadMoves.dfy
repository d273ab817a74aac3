/** Where each step takes each thread: the lives of threads over whole runs of the thread system. */
module ThreadMoves {
  import opened Basics
  import opened Places
  import opened Threads
  import opened ThreadProofs

  // ---------------------------------------------------------------------------
  // One step and one thread
  // ---------------------------------------------------------------------------

  /** Where a thread goes that a CPU puts away. */
  function PutAway(r: Request, c: CpuId): Place
  {
    match r
    case Yield => OnRunQueue(c)
    case SleepOn(w) => OnChannel(w)
    case Exit => OnZombies(c)
  }

  /** Hand h is empty; those after it move up. */
  function HandAfter(p: Place, h: nat): Place { if p.InHand? && p.h > h then InHand(p.h - 1) else p }

  /** Where step e takes thread t from p; None if it is destroyed. */
  ghost function Goes(s: State, e: Step, t: Tid, p: Place): Option<Place>
    requires Enabled(s, e) && IsAt(s, t, p)
  {
    match e
    case SwPlace(c) => Some(if p == OnCpu(c) then PutAway(s.cpus[c].pc.r, c) else p)
    case PickSome(c) => Some(if p == OnRunQueue(c) && t == s.cpus[c].runq[0] then OnCpu(c) else p)
    case ExorciseOne(c) => if p == OnZombies(c) && t == s.cpus[c].zombies[0] then None else Some(p)
    case ForkFail(h) => if p == InHand(h) then None else Some(HandAfter(p, h))
    case WakeOne(w) => Some(if p == OnChannel(w) && t == s.chans[w][0] then InHand(|s.hands|) else p)
    case WakeAll(w) => Some(if p == OnChannel(w) then InHand(|s.hands| + Index(s.chans[w], t)) else p)
    case MakeRunnable(h) =>
      Some(if p == InHand(h) then OnRunQueue(s.hands[h].aim.value) else HandAfter(p, h))
    case MigCollect(c, k) =>
      Some(if p == OnRunQueue(c) && t in s.cpus[c].runq[|s.cpus[c].runq| - k..] then AmongVictims(c) else p)
    case MigSend(c, d) =>
      Some(if p == AmongVictims(c) && t == s.cpus[c].victims[0] && t != s.cpus[c].cur then OnRunQueue(d) else p)
    case MigReturn(c) => Some(if p == AmongVictims(c) && t == s.cpus[c].victims[0] then OnRunQueue(c) else p)
    case _ => Some(p)
  }

  ghost function Index(q: seq<Tid>, t: Tid): (i: nat)
    requires t in q
    ensures i < |q| && q[i] == t
  {
    var i :| 0 <= i < |q| && q[i] == t;
    i
  }

  lemma PutMoves(s: State, c: CpuId, t: Tid, p: Place)
    requires Inv(s) && CanPlace(s, c) && IsAt(s, t, p)
    ensures IsAt(Apply(s, SwPlace(c)), t, if p == OnCpu(c) then PutAway(s.cpus[c].pc.r, c) else p)
  {
    hide Inv;
  }

  lemma PickMoves(s: State, c: CpuId, t: Tid, p: Place)
    requires At(s, c, Picking) && s.cpus[c].runq != [] && IsAt(s, t, p)
    ensures IsAt(Apply(s, PickSome(c)), t, if p == OnRunQueue(c) && t == s.cpus[c].runq[0] then OnCpu(c) else p)
  {
    var q := s.cpus[c].runq;
    assert q == [q[0]] + q[1..];
  }

  /** CPU c has gone on within its switch, with everything it holds. */
  lemma SameLists(s: State, s': State, c: CpuId, x: Cpu, t: Tid, p: Place)
    requires c < |s.cpus| && s'.cpus == s.cpus[c := x] && s'.chans == s.chans && s'.hands == s.hands && IsAt(s, t, p)
    requires x.runq == s.cpus[c].runq && x.zombies == s.cpus[c].zombies && x.victims == s.cpus[c].victims
    requires Owned(x) == Owned(s.cpus[c])
    ensures IsAt(s', t, p)
  {
    hide Owned;
  }

  lemma LockKeeps(s: State, e: Step, t: Tid, p: Place)
    requires Enabled(s, e) && IsAt(s, t, p) && (e.SwLock? || e.SwNothing? || e.MigDone?)
    ensures IsAt(Apply(s, e), t, p)
  {
    hide IsAt;
    SameLists(s, Apply(s, e), e.c, Apply(s, e).cpus[e.c], t, p);
  }

  lemma IdleKeeps(s: State, e: Step, t: Tid, p: Place)
    requires Enabled(s, e) && IsAt(s, t, p) && (e.SwState? || e.PickNone? || e.Unidle?)
    ensures IsAt(Apply(s, e), t, p)
  {
    hide IsAt;
    SameLists(s, Apply(s, e), e.c, Apply(s, e).cpus[e.c], t, p);
  }

  lemma ChooseKeeps(s: State, e: Step, t: Tid, p: Place)
    requires (e.Choose? || e.SwitchFrame?) && Enabled(s, e) && IsAt(s, t, p) && CpuOk(s, e.c)
    ensures IsAt(Apply(s, e), t, p)
  {
    hide IsAt;
    SameLists(s, Apply(s, e), e.c, Apply(s, e).cpus[e.c], t, p);
  }

  lemma OwnsCurrent(x: Cpu)
    requires x.pc.Switched? || x.pc.Unlocking? || x.pc.Exorcising? || x.pc.Running?
    ensures Owned(x) == multiset{x.cur}
  {
  }

  lemma UnlockKeeps(s: State, e: Step, t: Tid, p: Place)
    requires Enabled(s, e) && IsAt(s, t, p) && (e.SetRun? || e.Unlock? || e.ExorciseDone?)
    ensures IsAt(Apply(s, e), t, p)
  {
    hide IsAt, Owned;
    OwnsCurrent(s.cpus[e.c]);
    OwnsCurrent(Apply(s, e).cpus[e.c]);
    SameLists(s, Apply(s, e), e.c, Apply(s, e).cpus[e.c], t, p);
  }

  lemma SameOwner(s: State, e: Step, t: Tid, p: Place)
    requires Inv(s) && Enabled(s, e) && IsAt(s, t, p)
    requires e.SwLock? || e.SwNothing? || e.SwState? || e.PickNone? || e.Unidle? || e.Choose? || e.SwitchFrame?
             || e.SetRun? || e.Unlock? || e.ExorciseDone? || e.Aim? || e.Fork? || e.MigDone?
    ensures IsAt(Apply(s, e), t, p)
  {
    if e.Choose? || e.SwitchFrame? {
      hide AllPlaces, ZombiesMarked, HandOk, IsAt, Apply;
      assert CpuOk(s, e.c);
      ChooseKeeps(s, e, t, p);
    } else {
      hide Inv;
      if e.SetRun? || e.Unlock? || e.ExorciseDone? {
        hide IsAt, Apply;
        UnlockKeeps(s, e, t, p);
      } else if e.SwLock? || e.SwNothing? || e.MigDone? {
        hide IsAt, Apply;
        LockKeeps(s, e, t, p);
      } else if !e.Aim? && !e.Fork? {
        hide IsAt, Apply;
        IdleKeeps(s, e, t, p);
      }
    }
  }

  lemma ZombieMoves(s: State, c: CpuId, t: Tid, p: Place)
    requires At(s, c, Exorcising) && s.cpus[c].zombies != [] && IsAt(s, t, p)
    requires p == OnZombies(c) ==> t != s.cpus[c].zombies[0]
    ensures IsAt(Apply(s, ExorciseOne(c)), t, p)
  {
    var q := s.cpus[c].zombies;
    assert q == [q[0]] + q[1..];
  }

  lemma HandMoves(s: State, s': State, h: nat, t: Tid, p: Place)
    requires h < |s.hands| && IsAt(s, t, p) && p != InHand(h) && s'.hands == s.hands[..h] + s.hands[h + 1..]
    requires p.InHand? || IsAt(s', t, p)
    ensures IsAt(s', t, HandAfter(p, h))
  {
  }

  lemma WakeOneMoves(s: State, w: Chan, t: Tid, p: Place)
    requires w < |s.chans| && s.chans[w] != [] && IsAt(s, t, p)
    ensures IsAt(Apply(s, WakeOne(w)), t, if p == OnChannel(w) && t == s.chans[w][0] then InHand(|s.hands|) else p)
  {
    var q := s.chans[w];
    assert q == [q[0]] + q[1..];
  }

  lemma WakeAllMoves(s: State, w: Chan, t: Tid, p: Place)
    requires w < |s.chans| && IsAt(s, t, p)
    ensures IsAt(Apply(s, WakeAll(w)), t, if p == OnChannel(w) then InHand(|s.hands| + Index(s.chans[w], t)) else p)
  {
    if p == OnChannel(w) {
      assert Grabbed(s.chans[w])[Index(s.chans[w], t)].t == t;
    }
  }

  lemma CollectMoves(s: State, c: CpuId, k: nat, t: Tid, p: Place)
    requires Enabled(s, MigCollect(c, k)) && IsAt(s, t, p)
    ensures IsAt(Apply(s, MigCollect(c, k)), t,
                 if p == OnRunQueue(c) && t in s.cpus[c].runq[|s.cpus[c].runq| - k..] then AmongVictims(c) else p)
  {
    var q, n := s.cpus[c].runq, |s.cpus[c].runq| - k;
    assert q == q[..n] + q[n..];
  }

  lemma SendMoves(s: State, c: CpuId, d: CpuId, t: Tid, p: Place)
    requires CanSend(s, c, d) && IsAt(s, t, p)
    ensures IsAt(Apply(s, MigSend(c, d)), t,
                 if p == AmongVictims(c) && t == s.cpus[c].victims[0] && t != s.cpus[c].cur then OnRunQueue(d) else p)
  {
    var q := s.cpus[c].victims;
    assert q == [q[0]] + q[1..];
    if q[0] == s.cpus[c].cur {
      SkipMoves(s, c, d, t, p);
    } else {
      SentMoves(s, c, d, t, p);
    }
  }

  lemma SkipMoves(s: State, c: CpuId, d: CpuId, t: Tid, p: Place)
    requires CanSend(s, c, d) && IsAt(s, t, p) && s.cpus[c].victims[0] == s.cpus[c].cur
    ensures IsAt(SendVictim(s, c, d), t, p)
  {
    var q := s.cpus[c].victims;
    assert q == [q[0]] + q[1..];
  }

  lemma SentMoves(s: State, c: CpuId, d: CpuId, t: Tid, p: Place)
    requires CanSend(s, c, d) && IsAt(s, t, p) && s.cpus[c].victims[0] != s.cpus[c].cur
    ensures IsAt(SendVictim(s, c, d), t, if p == AmongVictims(c) && t == s.cpus[c].victims[0] then OnRunQueue(d) else p)
  {
    var q := s.cpus[c].victims;
    assert q == [q[0]] + q[1..];
  }

  lemma ReturnMoves(s: State, c: CpuId, t: Tid, p: Place)
    requires Enabled(s, MigReturn(c)) && IsAt(s, t, p)
    ensures IsAt(Apply(s, MigReturn(c)), t,
                 if p == AmongVictims(c) && t == s.cpus[c].victims[0] then OnRunQueue(c) else p)
  {
    var q := s.cpus[c].victims;
    assert q == [q[0]] + q[1..];
  }

  /** Every step takes every thread exactly where Goes says. */
  lemma StepMoves(s: State, e: Step, t: Tid, p: Place)
    requires Inv(s) && Enabled(s, e) && IsAt(s, t, p)
    ensures var p' := Goes(s, e, t, p);
            if p'.Some? then IsAt(Apply(s, e), t, p'.value) else t !in Apply(s, e).tcpu
  {
    hide Inv, IsAt;
    match e {
      case SwPlace(c) => PutMoves(s, c, t, p);
      case PickSome(c) => PickMoves(s, c, t, p);
      case ExorciseOne(c) =>
        if !(p == OnZombies(c) && t == s.cpus[c].zombies[0]) {
          ZombieMoves(s, c, t, p);
        }
      case ForkFail(h) =>
        if p != InHand(h) {
          FailMoves(s, h, t, p);
        } else {
          HandIs(s, h, t);
        }
      case WakeOne(w) => WakeOneMoves(s, w, t, p);
      case WakeAll(w) => WakeAllMoves(s, w, t, p);
      case MakeRunnable(h) => RunnableMoves(s, h, t, p);
      case MigCollect(c, k) => CollectMoves(s, c, k, t, p);
      case MigSend(c, d) => SendMoves(s, c, d, t, p);
      case MigReturn(c) => ReturnMoves(s, c, t, p);
      case _ => SameOwner(s, e, t, p);
    }
  }

  lemma HandIs(s: State, h: nat, t: Tid)
    requires IsAt(s, t, InHand(h))
    ensures h < |s.hands| && s.hands[h].t == t
  {
  }

  lemma FailMoves(s: State, h: nat, t: Tid, p: Place)
    requires Enabled(s, ForkFail(h)) && IsAt(s, t, p) && p != InHand(h)
    ensures IsAt(Apply(s, ForkFail(h)), t, HandAfter(p, h))
  {
    HandMoves(s, Apply(s, ForkFail(h)), h, t, p);
  }

  lemma RunnableMoves(s: State, h: nat, t: Tid, p: Place)
    requires Enabled(s, MakeRunnable(h)) && IsAt(s, t, p)
    ensures IsAt(Apply(s, MakeRunnable(h)), t,
                 if p == InHand(h) then OnRunQueue(s.hands[h].aim.value) else HandAfter(p, h))
  {
    if p != InHand(h) {
      HandMoves(s, Apply(s, MakeRunnable(h)), h, t, p);
    }
  }

  /** Threads come into being only by fork, in the forker's hands. */
  lemma StepMakes(s: State, e: Step, t: Tid)
    requires Inv(s) && Enabled(s, e) && t !in s.tcpu
    ensures t in Apply(s, e).tcpu <==> e.Fork? && e.t == t
    ensures e.Fork? && e.t == t ==> IsAt(Apply(s, e), t, InHand(|s.hands|))
  {
    hide AllPlaces, CpuOk, ZombiesMarked, HandOk;
    if e.MigSend? {
      SentIsKnown(s, e.c, e.d);
    }
  }

  lemma SentIsKnown(s: State, c: CpuId, d: CpuId)
    requires Inv(s) && CanSend(s, c, d)
    ensures s.cpus[c].victims[0] in s.tcpu
  {
    hide AllPlaces;
    assert CpuOk(s, c);
  }

  // ---------------------------------------------------------------------------
  // Over whole runs
  // ---------------------------------------------------------------------------

  /** A thread is in one place only, so being there is being nowhere else. */
  lemma NowhereElse(r: seq<State>, es: seq<Step>, i: nat, t: Tid, p: Place, q: Place)
    requires IsRun(r, es) && i < |r| && IsAt(r[i], t, p) && q != p
    ensures !IsAt(r[i], t, q)
  {
    hide IsRun, IsAt;
    ExactlyOnePlace(r, es, i, t);
  }

  /** An exit at step a: CPU c puts its current thread t away for good. */
  ghost predicate Exits(r: seq<State>, es: seq<Step>, a: nat, c: CpuId, t: Tid)
  {
    a < |es| && a < |r| && es[a] == SwPlace(c) && At(r[a], c, Locked(Exit)) && r[a].cpus[c].cur == t
  }

  /** exorcise destroys thread t on CPU c at step m. */
  ghost predicate Destroyed(r: seq<State>, es: seq<Step>, m: nat, c: CpuId, t: Tid)
  {
    && m < |es| && m + 1 < |r| && es[m] == ExorciseOne(c) && c < |r[m].cpus| && r[m].cpus[c].zombies != []
    && r[m].cpus[c].zombies[0] == t && t !in r[m + 1].tcpu
  }

  /** A thread that has exited is on its CPU's zombie list until exorcise destroys it. So it is on no
      queue, channel or other list, in no hand, and no CPU runs it or picks it again. */
  lemma {:induction false} ExitIsFinal(r: seq<State>, es: seq<Step>, a: nat, k: nat, c: CpuId, t: Tid)
    requires IsRun(r, es) && a < k < |r| && Exits(r, es, a, c, t)
    ensures (exists m :: a < m < k && Destroyed(r, es, m, c, t)) ||
            (IsAt(r[k], t, OnZombies(c)) && forall q :: q != OnZombies(c) ==> !IsAt(r[k], t, q))
    decreases k
  {
    hide Inv, Apply, Enabled, IsAt;
    if !(exists m :: a < m < k && Destroyed(r, es, m, c, t)) {
      RunKeeps(r, es, k - 1);
      if a == k - 1 {
        ExitPlaces(r[a], c, t);
      } else {
        ExitIsFinal(r, es, a, k - 1, c, t);
        assert !Destroyed(r, es, k - 1, c, t);
        StepMoves(r[k - 1], es[k - 1], t, OnZombies(c));
        StaysZombie(r[k - 1], es[k - 1], c, t);
      }
      forall q | q != OnZombies(c) ensures !IsAt(r[k], t, q) {
        NowhereElse(r, es, k, t, OnZombies(c), q);
      }
    }
  }

  lemma ExitPlaces(s: State, c: CpuId, t: Tid)
    requires Inv(s) && At(s, c, Locked(Exit)) && s.cpus[c].cur == t
    ensures Enabled(s, SwPlace(c)) && IsAt(Apply(s, SwPlace(c)), t, OnZombies(c))
  {
    hide Inv;
    assert IsAt(s, t, OnCpu(c));
    StepMoves(s, SwPlace(c), t, OnCpu(c));
  }

  lemma StaysZombie(s: State, e: Step, c: CpuId, t: Tid)
    requires Enabled(s, e) && IsAt(s, t, OnZombies(c))
    ensures Goes(s, e, t, OnZombies(c)) == Some(OnZombies(c)) ||
            (e == ExorciseOne(c) && c < |s.cpus| && s.cpus[c].zombies != [] && s.cpus[c].zombies[0] == t
             && t !in Apply(s, e).tcpu)
  {
  }

  /** And what is on a zombie list got there by an exit, and has been there since. */
  lemma {:induction false} ZombieExited(r: seq<State>, es: seq<Step>, k: nat, c: CpuId, t: Tid) returns (a: nat)
    requires IsRun(r, es) && k < |r| && IsAt(r[k], t, OnZombies(c))
    ensures a < k && Exits(r, es, a, c, t) && forall m :: a < m <= k ==> IsAt(r[m], t, OnZombies(c))
  {
    hide Inv, Apply, Enabled, IsAt, Init;
    if k == 0 {
      NoZombies(r[0], c, t);
    } else {
      RunKeeps(r, es, k - 1);
      NewZombie(r[k - 1], es[k - 1], c, t);
      if IsAt(r[k - 1], t, OnZombies(c)) {
        a := ZombieExited(r, es, k - 1, c, t);
      } else {
        a := k - 1;
      }
    }
  }

  lemma NoZombies(s: State, c: CpuId, t: Tid)
    requires Init(s)
    ensures !IsAt(s, t, OnZombies(c))
  {
  }

  lemma NewZombie(s: State, e: Step, c: CpuId, t: Tid)
    requires Enabled(s, e) && IsAt(Apply(s, e), t, OnZombies(c))
    ensures IsAt(s, t, OnZombies(c)) || (e == SwPlace(c) && At(s, c, Locked(Exit)) && s.cpus[c].cur == t)
  {
    if !e.SwPlace? && !e.ExorciseOne? {
      SameZombies(s, e, c);
    }
  }

  lemma SameZombies(s: State, e: Step, c: CpuId)
    requires Enabled(s, e) && !e.SwPlace? && !e.ExorciseOne?
    ensures |Apply(s, e).cpus| == |s.cpus| && (c < |s.cpus| ==> Apply(s, e).cpus[c].zombies == s.cpus[c].zombies)
  {
  }

  /** A thread that goes to sleep on a channel is there until a wakeup on that channel takes it. */
  lemma {:induction false} SleepsUntilWoken(r: seq<State>, es: seq<Step>, a: nat, k: nat, c: CpuId, w: Chan, t: Tid)
    requires IsRun(r, es) && a < k < |r| && es[a] == SwPlace(c) && At(r[a], c, Locked(SleepOn(w)))
    requires r[a].cpus[c].cur == t && forall m :: a < m < k ==> es[m] != WakeOne(w) && es[m] != WakeAll(w)
    ensures IsAt(r[k], t, OnChannel(w))
    decreases k
  {
    hide Inv, Apply, Enabled, IsAt;
    RunKeeps(r, es, k - 1);
    if a == k - 1 {
      SleepPlaces(r[a], c, w, t);
    } else {
      SleepsUntilWoken(r, es, a, k - 1, c, w, t);
      StepMoves(r[k - 1], es[k - 1], t, OnChannel(w));
    }
  }

  lemma SleepPlaces(s: State, c: CpuId, w: Chan, t: Tid)
    requires Inv(s) && At(s, c, Locked(SleepOn(w))) && s.cpus[c].cur == t && Enabled(s, SwPlace(c))
    ensures IsAt(Apply(s, SwPlace(c)), t, OnChannel(w))
  {
    hide Inv;
    assert IsAt(s, t, OnCpu(c));
    StepMoves(s, SwPlace(c), t, OnCpu(c));
  }

  /** wchan_wakeall leaves the channel empty, and every thread that was on it in the waker's hands. */
  lemma WakeAllEmpties(r: seq<State>, es: seq<Step>, i: nat, w: Chan)
    requires IsRun(r, es) && i < |es| && es[i] == WakeAll(w)
    ensures w < |r[i].chans| == |r[i + 1].chans| && r[i + 1].chans[w] == []
    ensures |r[i + 1].hands| == |r[i].hands| + |r[i].chans[w]|
    ensures forall j :: 0 <= j < |r[i].chans[w]| ==>
              r[i + 1].hands[|r[i].hands| + j] == Held(r[i].chans[w][j], None, false)
  {
    assert Enabled(r[i], es[i]) && r[i + 1] == Apply(r[i], es[i]);
  }

  /** A thread in a waker's or forker's hands stays there until it is queued or the fork fails. */
  lemma HandKept(s: State, e: Step, t: Tid, h: nat)
    requires Inv(s) && Enabled(s, e) && IsAt(s, t, InHand(h)) && e != MakeRunnable(h) && e != ForkFail(h)
    ensures exists j: nat :: j <= h && IsAt(Apply(s, e), t, InHand(j))
  {
    hide Inv, IsAt;
    StepMoves(s, e, t, InHand(h));
    assert IsAt(Apply(s, e), t, HandAfter(InHand(h), if e.MakeRunnable? || e.ForkFail? then e.h else h));
  }

  // ---------------------------------------------------------------------------
  // Order on queues and channels
  // ---------------------------------------------------------------------------

  /** What is left of q after i threads have gone from its front and j from its end is the front of
      q', so that those who joined are behind it. */
  ghost predicate InOrder(q: seq<Tid>, q': seq<Tid>, i: nat, j: nat)
  {
    i + j <= |q| && q[i..|q| - j] <= q'
  }

  lemma MigrationOrder(s: State, e: Step, c: CpuId)
    requires Enabled(s, e) && c < |s.cpus| && (e.MigCollect? || e.MigSend? || e.MigReturn?)
    ensures |Apply(s, e).cpus| == |s.cpus|
    ensures InOrder(s.cpus[c].runq, Apply(s, e).cpus[c].runq, 0, if e.MigCollect? && e.c == c then e.k else 0)
  {
  }

  lemma OtherOrder(s: State, e: Step, c: CpuId)
    requires Enabled(s, e) && c < |s.cpus| && (e.SwPlace? || e.PickSome? || e.MakeRunnable?)
    ensures |Apply(s, e).cpus| == |s.cpus|
    ensures InOrder(s.cpus[c].runq, Apply(s, e).cpus[c].runq, if e == PickSome(c) then 1 else 0, 0)
  {
  }

  lemma SameQueue(s: State, e: Step, c: CpuId)
    requires Enabled(s, e) && c < |s.cpus| && !e.MigCollect? && !e.MigSend? && !e.MigReturn?
    requires !e.SwPlace? && !e.PickSome? && !e.MakeRunnable?
    ensures |Apply(s, e).cpus| == |s.cpus| && Apply(s, e).cpus[c].runq == s.cpus[c].runq
  {
  }

  /** Run queues are served in order: only picking takes the first, only migration takes the last. */
  lemma QueueOrder(s: State, e: Step, c: CpuId)
    requires Enabled(s, e) && c < |s.cpus|
    ensures |Apply(s, e).cpus| == |s.cpus|
    ensures InOrder(s.cpus[c].runq, Apply(s, e).cpus[c].runq,
                    if e == PickSome(c) then 1 else 0, if e.MigCollect? && e.c == c then e.k else 0)
  {
    hide Apply, Enabled;
    if e.MigCollect? || e.MigSend? || e.MigReturn? {
      MigrationOrder(s, e, c);
    } else if e.SwPlace? || e.PickSome? || e.MakeRunnable? {
      OtherOrder(s, e, c);
    } else {
      SameQueue(s, e, c);
    }
  }

  /** Victims are dealt with in turn, the current thread again and again until it is put back, and newly
      collected ones come before the others. */
  ghost predicate InTurn(v: seq<Tid>, v': seq<Tid>, e: Step, c: CpuId)
  {
    if e.MigCollect? && e.c == c then |v'| == |v| + e.k && v'[e.k..] == v
    else if (e.MigSend? || e.MigReturn?) && e.c == c then v != [] && v[1..] <= v'
    else v' == v
  }

  predicate Leaving(e: Step) { e.SwLock? || e.SwNothing? || e.SwPlace? || e.SwState? || e.PickSome? || e.PickNone? }

  predicate Arriving(e: Step)
  {
    e.Unidle? || e.Choose? || e.SwitchFrame? || e.SetRun? || e.Unlock? || e.ExorciseOne? || e.ExorciseDone?
  }

  lemma LeavingVictims(s: State, e: Step, c: CpuId)
    requires Enabled(s, e) && c < |s.cpus| && Leaving(e)
    ensures c < |Apply(s, e).cpus| && Apply(s, e).cpus[c].victims == s.cpus[c].victims
    ensures Apply(s, e).cpus[c].migrating <==> s.cpus[c].migrating && e != MigDone(c)
  {
  }

  lemma ArrivingVictims(s: State, e: Step, c: CpuId)
    requires Enabled(s, e) && c < |s.cpus| && Arriving(e)
    ensures c < |Apply(s, e).cpus| && Apply(s, e).cpus[c].victims == s.cpus[c].victims
    ensures Apply(s, e).cpus[c].migrating <==> s.cpus[c].migrating && e != MigDone(c)
  {
  }

  lemma OtherVictims(s: State, e: Step, c: CpuId)
    requires Enabled(s, e) && c < |s.cpus| && !Leaving(e) && !Arriving(e)
    requires !e.MigCollect? && !e.MigSend? && !e.MigReturn?
    ensures c < |Apply(s, e).cpus| && Apply(s, e).cpus[c].victims == s.cpus[c].victims
    ensures Apply(s, e).cpus[c].migrating <==> s.cpus[c].migrating && e != MigDone(c)
  {
  }

  /** ... and a CPU is migrating from collecting victims until it is done. */
  lemma VictimOrder(s: State, e: Step, c: CpuId)
    requires Enabled(s, e) && c < |s.cpus|
    ensures c < |Apply(s, e).cpus| && InTurn(s.cpus[c].victims, Apply(s, e).cpus[c].victims, e, c)
    ensures Apply(s, e).cpus[c].migrating <==>
            (e.MigCollect? && e.c == c) || (s.cpus[c].migrating && e != MigDone(c))
  {
    if !e.MigCollect? && !e.MigSend? && !e.MigReturn? {
      hide Apply, Enabled;
      if Leaving(e) {
        LeavingVictims(s, e, c);
      } else if Arriving(e) {
        ArrivingVictims(s, e, c);
      } else {
        OtherVictims(s, e, c);
      }
    }
  }

  lemma SameChannel(s: State, e: Step, w: Chan)
    requires Enabled(s, e) && w < |s.chans| && !e.SwPlace? && !e.WakeOne? && !e.WakeAll?
    ensures Apply(s, e).chans == s.chans
  {
  }

  /** So are channels. */
  lemma ChannelOrder(s: State, e: Step, w: Chan)
    requires Enabled(s, e) && w < |s.chans|
    ensures |Apply(s, e).chans| == |s.chans|
    ensures InOrder(s.chans[w], Apply(s, e).chans[w],
                    if e == WakeOne(w) then 1 else if e == WakeAll(w) then |s.chans[w]| else 0, 0)
  {
    if !e.SwPlace? && !e.WakeOne? && !e.WakeAll? {
      hide Apply, Enabled;
      SameChannel(s, e, w);
    }
  }

  // ---------------------------------------------------------------------------
  // States and progress
  // ---------------------------------------------------------------------------

  /** t_state says what was last done with a thread: made, put away in one of three ways, or run. */
  lemma StepStates(s: State, e: Step, t: Tid)
    requires Inv(s) && Enabled(s, e) && t in Apply(s, e).tstate
    ensures e.SwState? && s.cpus[e.c].cur == t ==>
              Apply(s, e).tstate[t] == match s.cpus[e.c].pc.r
                                       case Yield => S_READY
                                       case SleepOn(_) => S_SLEEP
                                       case Exit => S_ZOMBIE
    ensures e.SetRun? && s.cpus[e.c].cur == t ==> Apply(s, e).tstate[t] == S_RUN
    ensures e.Fork? && e.t == t ==> Apply(s, e).tstate[t] == S_READY
    ensures !(e.SwState? && s.cpus[e.c].cur == t) && !(e.SetRun? && s.cpus[e.c].cur == t) && !(e.Fork? && e.t == t) ==>
              t in s.tstate && Apply(s, e).tstate[t] == s.tstate[t]
  {
    hide Inv;
  }

  /** The step CPU c takes next inside thread_switch. */
  function NextStep(p: Cpu, c: CpuId): Step
    requires !p.pc.Running? && !p.pc.Idling?
  {
    match p.pc
    case Locked(r) => if r.Yield? && p.runq == [] then SwNothing(c) else SwPlace(c)
    case Placed(_) => SwState(c)
    case Picking => if p.runq == [] then PickNone(c) else PickSome(c)
    case Picked(_) => Choose(c)
    case Chosen(_) => SwitchFrame(c)
    case Switched => SetRun(c)
    case Unlocking => Unlock(c)
    case Exorcising => if p.zombies == [] then ExorciseDone(c) else ExorciseOne(c)
  }

  /** How much of it is left: twice the points still to come, and the zombies to be destroyed. */
  function ToDo(p: Cpu): nat
  {
    match p.pc
    case Running => 0
    case Idling => 0
    case Exorcising => 2 + |p.zombies|
    case Unlocking => 4 + |p.zombies|
    case Switched => 6 + |p.zombies|
    case Chosen(_) => 8 + |p.zombies|
    case Picked(_) => 10 + |p.zombies|
    case Picking => 12 + |p.zombies|
    case Placed(_) => 14 + |p.zombies|
    case Locked(_) => 16 + |p.zombies|
  }

  /** Every CPU inside thread_switch can take its next step, which brings it closer to running a
      thread or being idle, whatever the others do. */
  lemma SwitchProgress(s: State, c: CpuId)
    requires c < |s.cpus| && !s.cpus[c].pc.Running? && !s.cpus[c].pc.Idling?
    requires s.cpus[c].pc.Locked? && s.cpus[c].pc.r.SleepOn? ==> s.cpus[c].pc.r.wc < |s.chans|
    ensures Enabled(s, NextStep(s.cpus[c], c))
    ensures var s' := Apply(s, NextStep(s.cpus[c], c)); c < |s'.cpus| && ToDo(s'.cpus[c]) < ToDo(s.cpus[c])
  {
    hide Enabled, Apply, NextStep, ToDo;
    var pc := s.cpus[c].pc;
    if pc.Locked? || pc.Placed? || pc.Picking? {
      FirstProgress(s, c);
    } else {
      LastProgress(s, c);
    }
  }

  lemma FirstProgress(s: State, c: CpuId)
    requires c < |s.cpus| && (s.cpus[c].pc.Locked? || s.cpus[c].pc.Placed? || s.cpus[c].pc.Picking?)
    requires s.cpus[c].pc.Locked? && s.cpus[c].pc.r.SleepOn? ==> s.cpus[c].pc.r.wc < |s.chans|
    ensures Enabled(s, NextStep(s.cpus[c], c))
    ensures var s' := Apply(s, NextStep(s.cpus[c], c)); c < |s'.cpus| && ToDo(s'.cpus[c]) < ToDo(s.cpus[c])
  {
  }

  lemma LastProgress(s: State, c: CpuId)
    requires c < |s.cpus| && !s.cpus[c].pc.Running? && !s.cpus[c].pc.Idling?
    requires !s.cpus[c].pc.Locked? && !s.cpus[c].pc.Placed? && !s.cpus[c].pc.Picking?
    ensures Enabled(s, NextStep(s.cpus[c], c))
    ensures var s' := Apply(s, NextStep(s.cpus[c], c)); c < |s'.cpus| && ToDo(s'.cpus[c]) < ToDo(s.cpus[c])
  {
  }

  /** A CPU only ever goes to sleep on a channel there is. */
  lemma {:induction false} SleepsOnAChannel(r: seq<State>, es: seq<Step>, i: nat, c: CpuId)
    requires IsRun(r, es) && i < |r| && c < |r[i].cpus| && r[i].cpus[c].pc.Locked? && r[i].cpus[c].pc.r.SleepOn?
    ensures r[i].cpus[c].pc.r.wc < |r[i].chans|
  {
    hide Inv, Apply, Enabled, Init;
    if i == 0 {
      BootRuns(r[0], c);
    } else {
      NewRequest(r[i - 1], es[i - 1], c);
      if r[i - 1].cpus[c].pc == r[i].cpus[c].pc {
        SleepsOnAChannel(r, es, i - 1, c);
      }
    }
  }

  lemma BootRuns(s: State, c: CpuId)
    requires Init(s) && c < |s.cpus|
    ensures s.cpus[c].pc.Running?
  {
  }

  lemma NewRequest(s: State, e: Step, c: CpuId)
    requires Enabled(s, e) && c < |Apply(s, e).cpus|
    ensures c < |s.cpus| && |Apply(s, e).chans| == |s.chans|
    ensures var pc := Apply(s, e).cpus[c].pc;
            pc.Locked? ==> s.cpus[c].pc == pc || (e == SwLock(c, pc.r) && (pc.r.SleepOn? ==> pc.r.wc < |s.chans|))
  {
    if !e.SwLock? {
      hide Apply, Enabled;
      if Leaving(e) {
        LeavingRequest(s, e, c);
      } else if Arriving(e) {
        ArrivingRequest(s, e, c);
      } else {
        OtherRequest(s, e, c);
      }
    }
  }

  lemma LeavingRequest(s: State, e: Step, c: CpuId)
    requires Enabled(s, e) && c < |Apply(s, e).cpus| && Leaving(e) && !e.SwLock?
    ensures c < |s.cpus| && |Apply(s, e).chans| == |s.chans|
    ensures Apply(s, e).cpus[c].pc == s.cpus[c].pc || !Apply(s, e).cpus[c].pc.Locked?
  {
  }

  lemma ArrivingRequest(s: State, e: Step, c: CpuId)
    requires Enabled(s, e) && c < |Apply(s, e).cpus| && Arriving(e)
    ensures c < |s.cpus| && |Apply(s, e).chans| == |s.chans|
    ensures Apply(s, e).cpus[c].pc == s.cpus[c].pc || !Apply(s, e).cpus[c].pc.Locked?
  {
  }

  lemma OtherRequest(s: State, e: Step, c: CpuId)
    requires Enabled(s, e) && c < |Apply(s, e).cpus| && !Leaving(e) && !Arriving(e)
    ensures c < |s.cpus| && |Apply(s, e).chans| == |s.chans|
    ensures Apply(s, e).cpus[c].pc == s.cpus[c].pc || !Apply(s, e).cpus[c].pc.Locked?
  {
  }

  /** Outside thread_switch a CPU running a thread can switch, an idle one can look for a thread, and a
      migration can go on and end. */
  lemma CpuProgress(s: State, c: CpuId)
    requires c < |s.cpus|
    ensures s.cpus[c].pc.Running? && !s.cpus[c].migrating ==>
              Enabled(s, SwLock(c, Yield)) && Enabled(s, SwLock(c, Exit))
    ensures s.cpus[c].pc.Idling? && !s.cpus[c].migrating ==> Enabled(s, Unidle(c))
    ensures s.cpus[c].migrating ==> Enabled(s, if s.cpus[c].victims == [] then MigDone(c) else MigReturn(c))
  {
  }

  /** A thread in a hand gets its CPU and, unless that CPU's run queue is locked, its place there. */
  lemma HandProgress(s: State, h: nat)
    requires Inv(s) && h < |s.hands|
    ensures s.hands[h].aim.None? ==> Enabled(s, Aim(h))
    ensures s.hands[h].aim.Some? ==>
              s.hands[h].aim.value < |s.cpus| && (Enabled(s, MakeRunnable(h)) <==> !s.cpus[s.hands[h].aim.value].locked)
  {
    hide Inv;
    HandHome(s, h);
  }

  lemma HandHome(s: State, h: nat)
    requires Inv(s) && h < |s.hands|
    ensures s.hands[h].t in s.tcpu && (s.hands[h].aim.Some? ==> s.hands[h].aim.value < |s.cpus|)
  {
    assert IsAt(s, s.hands[h].t, InHand(h));
    ListedIsKnown(s, s.hands[h].t, InHand(h));
  }
}
