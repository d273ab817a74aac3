/** What the calls of spl.c and spinlock.c and the two ends of mips_trap have done when they return,
    over whole runs of the interrupt model. */
module InterruptPairs {
  import opened Basics
  import opened Interrupts

  // ---------------------------------------------------------------------------
  // One step
  // ---------------------------------------------------------------------------

  /** The frames a step adds to the stack of the thread that takes it. */
  function Pushed(e: Step): int
  {
    match e
    case Splhigh(_) => 1
    case TrapSync(_) => 1
    case IntEnter(_) => 1
    case TrapEnter(_) => 1
    case SplRestore(_) => -1
    case IntExit(_) => -1
    case TrapReturn(_) => -1
    case _ => 0
  }

  /** The CPU that takes a step. Create and Launch work on a thread that no CPU is running. */
  function Actor(e: Step): Option<CpuId>
  {
    if e.Create? || e.Launch? then None else Some(e.c)
  }

  predicate Takes(s: State, e: Step, t: Tid)
  {
    Actor(e).Some? && Actor(e).value < |s.cpus| && s.cpus[Actor(e).value].cur == t
  }

  /** Spinlocks come to a CPU and leave it by its own steps only. */
  lemma StepHeld(s: State, e: Step, c: CpuId)
    requires Inv(s) && Enabled(s, e) && c < |s.cpus|
    ensures Held(Apply(s, e), c) ==
            if e == AcqHolder(c) then Held(s, c) + {s.cpus[c].phase.l}
            else if e.RelHolder? && e.c == c then Held(s, c) - {e.l}
            else Held(s, c)
  {
    if e.AcqHolder? {
      LockInHand(s, e.c);
    }
    hide Inv;
  }

  /** CPU c has changed its own record and its current thread's. */
  ghost predicate OwnChange(s: State, s': State, c: CpuId)
    requires c < |s.cpus|
  {
    && |s'.cpus| == |s.cpus| && s'.threads.Keys == s.threads.Keys
    && (forall d :: 0 <= d < |s.cpus| && d != c ==> s'.cpus[d] == s.cpus[d])
    && (forall t :: t in s.threads && t != s.cpus[c].cur ==> s'.threads[t] == s.threads[t])
  }

  predicate OnLevel(e: Step) { e.Splhigh? || e.SplRestore? || e.Spl0? || e.TrapSync? }

  predicate OnSpinlock(e: Step)
  {
    e.AcqRaise? || e.AcqTestAndSet? || e.AcqHolder? || e.RelHolder? || e.RelData? || e.RelLower?
  }

  /** The last call of f is over, or one more has begun, or none. */
  ghost predicate Stacks(f: seq<Frame>, f': seq<Frame>, d: int) { |f'| == |f| + d && (f <= f' || f' <= f) }

  lemma SpinlockOwn(s: State, e: Step)
    requires Enabled(s, e) && OnSpinlock(e)
    ensures e.c < |s.cpus| && OwnChange(s, Apply(s, e), e.c)
  {
  }

  lemma ActorOwn(s: State, e: Step)
    requires Enabled(s, e) && Actor(e).Some? && !OnLevel(e) && !OnSpinlock(e) && (e.TrapReturn? ==> Inv(s))
    ensures e.c < |s.cpus| && OwnChange(s, Apply(s, e), e.c)
  {
    if e.TrapReturn? {
      At(s, e.c);
    }
    hide Inv, Nested, Unadjusted;
  }

  /** CPU c has changed whether its interrupts are off, and its current thread's record. */
  ghost predicate LevelChange(s: State, s': State, c: CpuId)
    requires c < |s.cpus|
  {
    && OwnChange(s, s', c) && s.cpus[c].cur in s.threads
    && s'.cpus[c].(phase := Calm, irqOff := false) == s.cpus[c].(phase := Calm, irqOff := false)
  }

  lemma SplxChange(s: State, c: CpuId, spl: int)
    requires c < |s.cpus| && s.cpus[c].cur in s.threads
    ensures var s' := Splx(s, c, spl);
            LevelChange(s, s', c) && Current(s', c).frames == Current(s, c).frames && Current(s', c).curspl == spl
  {
  }

  lemma LevelStep(s: State, e: Step)
    requires Enabled(s, e) && OnLevel(e)
    ensures e.c < |s.cpus| && LevelChange(s, Apply(s, e), e.c)
    ensures Stacks(Current(s, e.c).frames, Current(Apply(s, e), e.c).frames, Pushed(e))
  {
    hide Splx;
    var c := e.c;
    if e.SplRestore? {
      SplxChange(Pop(s, c), c, TopFrame(s, c).spl);
    } else if e.Spl0? {
      SplxChange(s, c, IPL_NONE);
    } else {
      SplxChange(Push(s, c, Saved(Current(s, c).curspl)), c, IPL_HIGH);
    }
  }

  lemma StepOwn(s: State, e: Step)
    requires Inv(s) && Enabled(s, e) && Actor(e).Some?
    ensures e.c < |s.cpus| && OwnChange(s, Apply(s, e), e.c)
  {
    hide Inv, Apply, Enabled, OwnChange;
    if OnLevel(e) {
      LevelStep(s, e);
    } else if OnSpinlock(e) {
      SpinlockOwn(s, e);
    } else {
      ActorOwn(s, e);
    }
  }

  lemma OwnStack(s: State, e: Step)
    requires Enabled(s, e) && Actor(e).Some? && !OnLevel(e) && e.c < |s.cpus| && CpuOk(s, e.c)
    ensures var t := s.cpus[e.c].cur;
            && t in s.threads && t in Apply(s, e).threads
            && Stacks(s.threads[t].frames, Apply(s, e).threads[t].frames, Pushed(e))
  {
    hide Nested, Unadjusted, ThreadOk, IrqOk, WindowOk;
  }

  /** A step leaves every stack alone but the one of the thread that takes it, and changes that one at
      its end. */
  lemma StepStack(s: State, e: Step, t: Tid)
    requires Inv(s) && Enabled(s, e) && t in s.threads
    ensures t in Apply(s, e).threads
    ensures Stacks(s.threads[t].frames, Apply(s, e).threads[t].frames, if Takes(s, e, t) then Pushed(e) else 0)
  {
    hide Inv, CpuOk;
    if Actor(e).Some? {
      StepOwn(s, e);
      At(s, e.c);
      if t == s.cpus[e.c].cur {
        if OnLevel(e) {
          LevelStep(s, e);
        } else {
          OwnStack(s, e);
        }
      }
      hide Apply, Enabled;
    }
  }

  /** A step of another CPU, or of none, leaves a CPU, its current thread and its spinlocks alone. */
  lemma StepOthers(s: State, e: Step, c: CpuId)
    requires Inv(s) && Enabled(s, e) && c < |s.cpus| && Actor(e) != Some(c)
    ensures var s' := Apply(s, e);
            && |s'.cpus| == |s.cpus| && s'.cpus[c] == s.cpus[c]
            && s.cpus[c].cur in s.threads && s.cpus[c].cur in s'.threads
            && Current(s', c) == Current(s, c) && Held(s', c) == Held(s, c)
  {
    hide Inv, Nested, Unadjusted;
    At(s, c);
    StepHeld(s, e, c);
    hide Held;
    if Actor(e).Some? {
      StepOwn(s, e);
      hide Apply, Enabled;
    }
  }

  /** Which thread a CPU runs, whether it is idle and whether it is in cpu_idle's window change at the
      steps that say so. */
  lemma StepRoles(s: State, e: Step, c: CpuId)
    requires Inv(s) && Enabled(s, e) && c < |s.cpus|
    ensures var s' := Apply(s, e);
            && |s'.cpus| == |s.cpus|
            && s'.cpus[c].cur == (if e.SwitchTo? && e.c == c then e.next else s.cpus[c].cur)
            && (s'.cpus[c].isidle <==> e == BeginPick(c) || (s.cpus[c].isidle && !(e.SwitchTo? && e.c == c)))
            && (s'.cpus[c].window.Shut? <==> e == CloseWindow(c) || (s.cpus[c].window.Shut? && e != OpenWindow(c)))
  {
    hide Inv, Nested, Unadjusted;
    if Actor(e) != Some(c) {
      StepOthers(s, e, c);
    } else if OnLevel(e) {
      LevelStep(s, e);
      hide Apply, Enabled;
    } else if OnSpinlock(e) {
      SpinlockRoles(s, e);
      hide Apply, Enabled;
    } else {
      At(s, c);
    }
  }

  lemma SpinlockRoles(s: State, e: Step)
    requires Enabled(s, e) && OnSpinlock(e)
    ensures var p, p' := s.cpus[e.c], Apply(s, e).cpus[e.c];
            p'.cur == p.cur && p'.isidle == p.isidle && p'.window == p.window
  {
  }

  /** A thread appears by Create and is launched by Launch, and neither is ever undone. */
  lemma StepThreads(s: State, e: Step, t: Tid)
    requires Inv(s) && Enabled(s, e)
    ensures t in Apply(s, e).threads <==> t in s.threads || e == Create(t)
    ensures t in Apply(s, e).threads ==>
              (Apply(s, e).threads[t].launched <==> e == Launch(t) || (t in s.threads && s.threads[t].launched))
  {
    hide Inv, Nested, Unadjusted;
    if Actor(e).Some? {
      StepOwn(s, e);
      At(s, e.c);
      if t == s.cpus[e.c].cur {
        StepKeeps(s, e);
        StillLaunched(s, e);
      }
      hide Apply, Enabled;
    }
  }

  lemma StillLaunched(s: State, e: Step)
    requires Inv(s) && Enabled(s, e) && Actor(e).Some? && Inv(Apply(s, e)) && e.c < |s.cpus|
    ensures var t := s.cpus[e.c].cur; t in Apply(s, e).threads && Apply(s, e).threads[t].launched
  {
    At(s, e.c);
    hide Inv, Nested, Unadjusted;
  }

  // ---------------------------------------------------------------------------
  // spinlock_acquire and spinlock_release
  // ---------------------------------------------------------------------------

  /** What is left of a CPU's call. */
  function ToDo(p: Phase): nat
  {
    match p
    case Raised(_) => 2
    case Cleared(_) => 2
    case Calm => 0
    case _ => 1
  }

  /** The step a CPU inside a call takes next. */
  function NextStep(p: Phase, c: CpuId): Step
    requires !p.Calm?
  {
    match p
    case Raised(_) => AcqTestAndSet(c)
    case Got(_) => AcqHolder(c)
    case Cleared(_) => RelData(c)
    case Freed => RelLower(c)
    case Entering => TrapSync(c)
    case Leaving => TrapReturn(c)
  }

  /** A CPU inside a call can take its next step, unless that is to win a spinlock whose word is set. */
  lemma CallGoesOn(s: State, c: CpuId)
    requires Inv(s) && c < |s.cpus| && !s.cpus[c].phase.Calm?
    ensures var p := s.cpus[c].phase;
            Enabled(s, NextStep(p, c)) <==> !(p.Raised? && p.l < |s.locks| && s.locks[p.l].bit)
  {
    At(s, c);
    hide Inv, Nested, Unadjusted;
  }

  /** It takes no other step, and each brings the call nearer its end. */
  lemma CallProgress(s: State, e: Step, c: CpuId)
    requires c < |s.cpus| && !s.cpus[c].phase.Calm? && Enabled(s, e) && Actor(e) == Some(c)
    ensures e == NextStep(s.cpus[c].phase, c)
    ensures c < |Apply(s, e).cpus| && ToDo(Apply(s, e).cpus[c].phase) < ToDo(s.cpus[c].phase)
  {
  }

  /** CPU c is within a call from state i on, up to state k. */
  ghost predicate Within(r: seq<State>, i: nat, k: nat, c: CpuId)
  {
    i < k < |r| && forall j :: i < j < k ==> c < |r[j].cpus| && !r[j].cpus[c].phase.Calm?
  }

  /** A CPU is on with the same thread, at the same level, with the same calls to undo. */
  ghost predicate SameWork(s: State, s': State, c: CpuId)
  {
    && c < |s.cpus| && c < |s'.cpus| && s.cpus[c].cur == s'.cpus[c].cur
    && s.cpus[c].cur in s.threads && s.cpus[c].cur in s'.threads
    && Current(s', c).curspl == Current(s, c).curspl && Current(s', c).frames == Current(s, c).frames
  }

  lemma CallStep(s: State, e: Step, c: CpuId)
    requires Inv(s) && Enabled(s, e) && c < |s.cpus|
    requires Actor(e) == Some(c) ==> OnSpinlock(e)
    ensures SameWork(s, Apply(s, e), c)
    ensures Actor(e) != Some(c) ==> Apply(s, e).cpus[c].phase == s.cpus[c].phase && Held(Apply(s, e), c) == Held(s, c)
  {
    hide Inv, Nested, Unadjusted;
    At(s, c);
    if Actor(e) != Some(c) {
      StepOthers(s, e, c);
      hide Apply, Enabled, Held;
    }
  }

  lemma AcquireStep(s: State, e: Step, c: CpuId)
    requires Inv(s) && Enabled(s, e) && c < |s.cpus| && Actor(e) == Some(c)
    requires e.AcqRaise? || s.cpus[c].phase.Raised? || s.cpus[c].phase.Got?
    ensures OnSpinlock(e) && c < |Apply(s, e).cpus|
    ensures var p, p' := s.cpus[c].phase, Apply(s, e).cpus[c].phase;
            && (e.AcqRaise? ==> p.Calm? && e.l !in Held(s, c) && p' == Raised(e.l)
                                && Held(Apply(s, e), c) == Held(s, c))
            && (p.Raised? ==> p' == Got(p.l) && Held(Apply(s, e), c) == Held(s, c))
            && (p.Got? ==> p' == Calm && Held(Apply(s, e), c) == Held(s, c) + {p.l})
  {
    StepHeld(s, e, c);
    hide Inv;
  }

  /** A step of a run, between reachable states. */
  lemma RunStep(r: seq<State>, es: seq<Step>, i: nat)
    requires IsRun(r, es) && i < |es|
    ensures |r| == |es| + 1 && Enabled(r[i], es[i]) && r[i + 1] == Apply(r[i], es[i])
    ensures Inv(r[i]) && Inv(r[i + 1])
  {
    hide Inv, Enabled, Apply;
    RunKeeps(r, es, i);
    RunKeeps(r, es, i + 1);
  }

  /** Since state s0, CPU c is acquiring l, or has done so. */
  ghost predicate Acquired(s0: State, s: State, c: CpuId, l: LockId)
  {
    && SameWork(s0, s, c)
    && var p := s.cpus[c].phase;
    && (p == Raised(l) || p == Got(l) || p.Calm?)
    && Held(s, c) == Held(s0, c) + if p.Calm? then {l} else {}
  }

  lemma AcquiredStep(s0: State, s: State, e: Step, c: CpuId, l: LockId)
    requires Inv(s) && Enabled(s, e) && Acquired(s0, s, c, l) && !s.cpus[c].phase.Calm?
    ensures Acquired(s0, Apply(s, e), c, l)
  {
    hide Inv, Apply, Enabled, Held;
    if Actor(e) == Some(c) {
      AcquireStep(s, e, c);
    }
    CallStep(s, e, c);
  }

  lemma AcquiredFirst(s: State, c: CpuId, l: LockId)
    requires Inv(s) && Enabled(s, AcqRaise(c, l))
    ensures Acquired(s, Apply(s, AcqRaise(c, l)), c, l) && l !in Held(s, c)
  {
    var e := AcqRaise(c, l);
    assert c < |s.cpus|;
    hide Inv, Apply, Enabled, Held;
    AcquireStep(s, e, c);
    CallStep(s, e, c);
  }

  lemma {:induction false} Acquiring(r: seq<State>, es: seq<Step>, i: nat, k: nat, c: CpuId, l: LockId)
    requires IsRun(r, es) && i < |es| && es[i] == AcqRaise(c, l) && Within(r, i, k, c) && k <= |es|
    ensures Acquired(r[i], r[k], c, l)
  {
    hide IsRun, Inv, Apply, Enabled, Acquired;
    RunStep(r, es, k - 1);
    if k == i + 1 {
      AcquiredFirst(r[i], c, l);
    } else {
      Acquiring(r, es, i, k - 1, c, l);
      AcquiredStep(r[i], r[k - 1], es[k - 1], c, l);
    }
  }

  /** spinlock_acquire returns with the lock, and with nothing else changed but the release it owes. */
  lemma AcquireReturns(r: seq<State>, es: seq<Step>, i: nat, j: nat, c: CpuId, l: LockId)
    requires IsRun(r, es) && i < |es| && es[i] == AcqRaise(c, l) && Within(r, i, j, c)
    requires c < |r[j].cpus| && r[j].cpus[c].phase.Calm?
    ensures l !in Held(r[i], c) && Held(r[j], c) == Held(r[i], c) + {l}
    ensures SameWork(r[i], r[j], c)
    ensures Current(r[j], c).count == Current(r[i], c).count + 1 && r[j].cpus[c].irqOff
  {
    Acquiring(r, es, i, j, c, l);
    RunStep(r, es, i);
    AcquiredFirst(r[i], c, l);
    CountExact(r, es, i, c);
    CountExact(r, es, j, c);
    hide IsRun, Inv, Apply, Held;
  }

  lemma ReleaseStep(s: State, e: Step, c: CpuId)
    requires Inv(s) && Enabled(s, e) && c < |s.cpus| && Actor(e) == Some(c)
    requires e.RelHolder? || s.cpus[c].phase.Cleared? || s.cpus[c].phase.Freed?
    ensures OnSpinlock(e) && c < |Apply(s, e).cpus|
    ensures var p, p' := s.cpus[c].phase, Apply(s, e).cpus[c].phase;
            && (e.RelHolder? ==> p.Calm? && e.l in Held(s, c) && p' == Cleared(e.l)
                                 && Held(Apply(s, e), c) == Held(s, c) - {e.l})
            && (p.Cleared? ==> p' == Freed && Held(Apply(s, e), c) == Held(s, c) && !Apply(s, e).locks[p.l].bit)
            && (p.Freed? ==> p' == Calm && Held(Apply(s, e), c) == Held(s, c))
  {
    StepHeld(s, e, c);
    hide Inv;
  }

  /** Since state s0, CPU c is releasing l, or has done so. */
  ghost predicate Released(s0: State, s: State, c: CpuId, l: LockId)
  {
    && SameWork(s0, s, c) && Held(s, c) == Held(s0, c) - {l}
    && var p := s.cpus[c].phase; p == Cleared(l) || p == Freed || p.Calm?
  }

  lemma ReleasedStep(s0: State, s: State, e: Step, c: CpuId, l: LockId)
    requires Inv(s) && Enabled(s, e) && Released(s0, s, c, l) && !s.cpus[c].phase.Calm?
    ensures Released(s0, Apply(s, e), c, l)
  {
    hide Inv, Apply, Enabled, Held;
    if Actor(e) == Some(c) {
      ReleaseStep(s, e, c);
    }
    CallStep(s, e, c);
  }

  lemma ReleasedFirst(s: State, c: CpuId, l: LockId)
    requires Inv(s) && Enabled(s, RelHolder(c, l))
    ensures Released(s, Apply(s, RelHolder(c, l)), c, l) && l in Held(s, c)
  {
    var e := RelHolder(c, l);
    assert c < |s.cpus|;
    hide Inv, Apply, Enabled, Held;
    ReleaseStep(s, e, c);
    CallStep(s, e, c);
  }

  lemma {:induction false} Releasing(r: seq<State>, es: seq<Step>, i: nat, k: nat, c: CpuId, l: LockId)
    requires IsRun(r, es) && i < |es| && es[i] == RelHolder(c, l) && Within(r, i, k, c) && k <= |es|
    ensures Released(r[i], r[k], c, l)
  {
    hide IsRun, Inv, Apply, Enabled, Released;
    RunStep(r, es, k - 1);
    if k == i + 1 {
      ReleasedFirst(r[i], c, l);
    } else {
      Releasing(r, es, i, k - 1, c, l);
      ReleasedStep(r[i], r[k - 1], es[k - 1], c, l);
    }
  }

  /** spinlock_release returns without the lock and with one release less to owe. */
  lemma ReleaseReturns(r: seq<State>, es: seq<Step>, i: nat, j: nat, c: CpuId, l: LockId)
    requires IsRun(r, es) && i < |es| && es[i] == RelHolder(c, l) && Within(r, i, j, c)
    requires c < |r[j].cpus| && r[j].cpus[c].phase.Calm?
    ensures l in Held(r[i], c) && Held(r[j], c) == Held(r[i], c) - {l}
    ensures SameWork(r[i], r[j], c)
    ensures Current(r[j], c).count == Current(r[i], c).count - 1
  {
    Releasing(r, es, i, j, c, l);
    RunStep(r, es, i);
    ReleasedFirst(r[i], c, l);
    CountExact(r, es, i, c);
    CountExact(r, es, j, c);
    hide IsRun, Inv, Apply, Held;
  }

  // ---------------------------------------------------------------------------
  // Calls that match: splhigh and splx, an interrupt or exception and the return from it
  // ---------------------------------------------------------------------------

  /** Thread t enters a call at step i, and step j is the first to bring its stack back to what it was. */
  ghost predicate Matched(r: seq<State>, i: nat, j: nat, t: Tid)
  {
    && i < j < |r| - 1 && t in r[i].threads && t in r[j + 1].threads
    && |r[j + 1].threads[t].frames| <= |r[i].threads[t].frames|
    && forall k :: i < k <= j ==> t in r[k].threads && |r[k].threads[t].frames| > |r[i].threads[t].frames|
  }

  lemma StillBelow(base: seq<Frame>, f: seq<Frame>, f': seq<Frame>, d: int)
    requires base <= f && Stacks(f, f', d) && |base| <= |f'|
    ensures base <= f'
  {
  }

  lemma {:induction false} StackKept(r: seq<State>, es: seq<Step>, i: nat, k: nat, j: nat, t: Tid)
    requires IsRun(r, es) && Matched(r, i, j, t) && i < k <= j < |es|
    ensures r[i + 1].threads[t].frames <= r[k].threads[t].frames
    ensures |r[i + 1].threads[t].frames| == |r[i].threads[t].frames| + 1
    ensures r[i].threads[t].frames <= r[i + 1].threads[t].frames
  {
    hide IsRun, Inv, Apply, Enabled, Takes;
    if k == i + 1 {
      RunStep(r, es, i);
      StepStack(r[i], es[i], t);
    } else {
      StackKept(r, es, i, k - 1, j, t);
      RunStep(r, es, k - 1);
      var s, e := r[k - 1], es[k - 1];
      StepStack(s, e, t);
      StillBelow(r[i + 1].threads[t].frames, s.threads[t].frames, r[k].threads[t].frames,
                 if Takes(s, e, t) then Pushed(e) else 0);
    }
  }

  /** What the call pushed is what its end pops, and the thread whose stack it is takes both steps. */
  lemma Popped(r: seq<State>, es: seq<Step>, i: nat, j: nat, t: Tid)
    requires IsRun(r, es) && Matched(r, i, j, t) && j < |es|
    ensures r[j].threads[t].frames == r[i + 1].threads[t].frames
    ensures r[j + 1].threads[t].frames == r[i].threads[t].frames
    ensures Takes(r[i], es[i], t) && Pushed(es[i]) == 1 && Takes(r[j], es[j], t) && Pushed(es[j]) == -1
  {
    hide IsRun, Inv, Apply, Enabled;
    StackKept(r, es, i, j, j, t);
    RunStep(r, es, i);
    StepStack(r[i], es[i], t);
    RunStep(r, es, j);
    StepStack(r[j], es[j], t);
  }

  /** What each entry leaves for its end to undo. */
  lemma EntryPushes(s: State, e: Step)
    requires Inv(s) && Enabled(s, e) && Pushed(e) == 1
    ensures e.c < |s.cpus| && s.cpus[e.c].cur in s.threads && s.cpus[e.c].cur in Apply(s, e).threads
    ensures var p, t, t' := s.cpus[e.c], Current(s, e.c), Apply(s, e).threads[s.cpus[e.c].cur];
            Innermost(t'.frames) == match e
                                    case IntEnter(_) => Handler(t.curspl == IPL_NONE)
                                    case TrapEnter(_) => Trap(p.irqOff, |Held(s, e.c)|)
                                    case _ => Saved(t.curspl)
  {
    hide Inv;
    if OnLevel(e) {
      hide Splx;
      SplxChange(Push(s, e.c, Saved(Current(s, e.c).curspl)), e.c, IPL_HIGH);
    }
  }

  /** What a call's end finds on top is what its entry left: so it is the end of that kind of call. */
  lemma EndsMatch(r: seq<State>, es: seq<Step>, i: nat, j: nat, t: Tid)
    requires IsRun(r, es) && Matched(r, i, j, t) && j < |es|
    ensures Pushed(es[i]) == 1 && Pushed(es[j]) == -1
    ensures es[i].c < |r[i].cpus| && r[i].cpus[es[i].c].cur == t
    ensures es[j].c < |r[j].cpus| && r[j].cpus[es[j].c].cur == t
    ensures r[j + 1].threads[t].frames == r[i].threads[t].frames
    ensures TopFrame(r[j], es[j].c) == match es[i]
                                       case IntEnter(c) => Handler(r[i].threads[t].curspl == IPL_NONE)
                                       case TrapEnter(c) => Trap(r[i].cpus[c].irqOff, |Held(r[i], c)|)
                                       case _ => Saved(r[i].threads[t].curspl)
    ensures es[j].IntExit? <==> es[i].IntEnter?
    ensures es[j].TrapReturn? <==> es[i].TrapEnter?
  {
    hide IsRun, Inv, Apply, Held;
    Popped(r, es, i, j, t);
    RunStep(r, es, i);
    EntryPushes(r[i], es[i]);
    RunStep(r, es, j);
  }

  /** The level to be restored when the call with frame f ends, if it is at level now. */
  function Under(f: Frame, level: int): int
  {
    match f
    case Saved(v) => v
    case Handler(adjusted) => if adjusted then IPL_NONE else IPL_HIGH
    case Trap(_, _) => level
  }

  /** The level a thread will be back at when only n of its calls are left. */
  function LevelAt(frames: seq<Frame>, level: int, n: nat): int
  {
    if |frames| <= n then level else LevelAt(frames[..|frames| - 1], Under(Innermost(frames), level), n)
  }

  /** A call begins or ends, or neither; what it has to restore is as it was. */
  ghost predicate Nests(f: seq<Frame>, level: int, f': seq<Frame>, level': int)
  {
    || (f' == f && level' == level)
    || (f' != [] && f'[..|f'| - 1] == f && Under(Innermost(f'), level') == level)
    || (f != [] && f[..|f| - 1] == f' && Under(Innermost(f), level) == level')
  }

  lemma LevelNests(s: State, e: Step)
    requires Enabled(s, e) && OnLevel(e) && !e.Spl0?
    ensures e.c < |s.cpus| && s.cpus[e.c].cur in s.threads && s.cpus[e.c].cur in Apply(s, e).threads
    ensures var t, t' := Current(s, e.c), Apply(s, e).threads[s.cpus[e.c].cur];
            Nests(t.frames, t.curspl, t'.frames, t'.curspl)
  {
    hide Splx;
    var c := e.c;
    if e.SplRestore? {
      SplxChange(Pop(s, c), c, TopFrame(s, c).spl);
    } else {
      SplxChange(Push(s, c, Saved(Current(s, c).curspl)), c, IPL_HIGH);
    }
  }

  lemma InterruptNests(s: State, e: Step)
    requires e.IntEnter?
    requires Enabled(s, e) && e.c < |s.cpus| && CpuOk(s, e.c)
    ensures s.cpus[e.c].cur in s.threads && s.cpus[e.c].cur in Apply(s, e).threads
    ensures var t, t' := Current(s, e.c), Apply(s, e).threads[s.cpus[e.c].cur];
            Nests(t.frames, t.curspl, t'.frames, t'.curspl)
  {
    hide Unadjusted, IrqOk, WindowOk, Nested, Held;
    var t, t' := Current(s, e.c), Apply(s, e).threads[s.cpus[e.c].cur];
    assert t'.frames[..|t.frames|] == t.frames;
  }

  lemma HandlerNests(s: State, e: Step)
    requires e.IntExit?
    requires Enabled(s, e) && e.c < |s.cpus| && CpuOk(s, e.c)
    ensures s.cpus[e.c].cur in s.threads && s.cpus[e.c].cur in Apply(s, e).threads
    ensures var t, t' := Current(s, e.c), Apply(s, e).threads[s.cpus[e.c].cur];
            Nests(t.frames, t.curspl, t'.frames, t'.curspl)
  {
    hide Unadjusted, IrqOk, WindowOk, Held;
    assert Current(s, e.c).curspl == IPL_HIGH;
    hide Nested;
  }

  lemma ExceptionNests(s: State, e: Step)
    requires e.TrapEnter? || e.TrapReturn?
    requires Enabled(s, e) && e.c < |s.cpus| && CpuOk(s, e.c)
    ensures s.cpus[e.c].cur in s.threads && s.cpus[e.c].cur in Apply(s, e).threads
    ensures var t, t' := Current(s, e.c), Apply(s, e).threads[s.cpus[e.c].cur];
            Nests(t.frames, t.curspl, t'.frames, t'.curspl)
  {
    hide Nested, Unadjusted, IrqOk, WindowOk, ThreadOk, Held;
  }

  lemma OwnNests(s: State, e: Step)
    requires Enabled(s, e) && Actor(e).Some? && !OnLevel(e) && !OnSpinlock(e) && e.c < |s.cpus| && CpuOk(s, e.c)
    requires !e.IntEnter? && !e.IntExit? && !e.TrapEnter? && !e.TrapReturn?
    ensures s.cpus[e.c].cur in s.threads && s.cpus[e.c].cur in Apply(s, e).threads
    ensures var t, t' := Current(s, e.c), Apply(s, e).threads[s.cpus[e.c].cur];
            Nests(t.frames, t.curspl, t'.frames, t'.curspl)
  {
    hide Nested, Unadjusted, IrqOk, WindowOk;
  }

  lemma StepNests(s: State, e: Step, t: Tid)
    requires Inv(s) && Enabled(s, e) && t in s.threads && !(e.Spl0? && Takes(s, e, t))
    ensures t in Apply(s, e).threads
    ensures var x, x' := s.threads[t], Apply(s, e).threads[t]; Nests(x.frames, x.curspl, x'.frames, x'.curspl)
  {
    hide Inv, CpuOk;
    if Actor(e).Some? {
      StepOwn(s, e);
      At(s, e.c);
      if t == s.cpus[e.c].cur {
        if OnLevel(e) {
          LevelNests(s, e);
        } else if OnSpinlock(e) {
          CallStep(s, e, e.c);
        } else if e.IntEnter? {
          InterruptNests(s, e);
        } else if e.IntExit? {
          HandlerNests(s, e);
        } else if e.TrapEnter? || e.TrapReturn? {
          ExceptionNests(s, e);
        } else {
          OwnNests(s, e);
        }
      }
      hide Apply, Enabled;
    }
  }

  lemma SameLevelAt(f: seq<Frame>, level: int, f': seq<Frame>, level': int, n: nat)
    requires Nests(f, level, f', level') && n <= |f| && n <= |f'|
    ensures LevelAt(f', level', n) == LevelAt(f, level, n)
  {
  }

  lemma {:induction false} LevelKept(r: seq<State>, es: seq<Step>, i: nat, k: nat, j: nat, t: Tid)
    requires IsRun(r, es) && Matched(r, i, j, t) && i <= k <= j + 1 && j < |es|
    requires |r[j + 1].threads[t].frames| == |r[i].threads[t].frames|
    ensures var x, x' := r[i].threads[t], r[k].threads[t];
            LevelAt(x'.frames, x'.curspl, |x.frames|) == x.curspl
  {
    hide IsRun, Inv, Apply, Nests;
    if k > i {
      LevelKept(r, es, i, k - 1, j, t);
      RunStep(r, es, k - 1);
      var s, e := r[k - 1], es[k - 1];
      if e.Spl0? && Takes(s, e, t) {
        assert s.threads[t].frames == [];
        Popped(r, es, i, j, t);
        assert false;
      }
      hide Enabled, Takes;
      StepNests(s, e, t);
      SameLevelAt(s.threads[t].frames, s.threads[t].curspl, r[k].threads[t].frames, r[k].threads[t].curspl,
                  |r[i].threads[t].frames|);
    }
  }

  /** Whatever the call was, and whatever happened in it, the thread leaves it at the level at which it
      entered it, with the same calls to undo. */
  lemma LevelRestored(r: seq<State>, es: seq<Step>, i: nat, j: nat, t: Tid)
    requires IsRun(r, es) && Matched(r, i, j, t) && j < |es|
    ensures r[j + 1].threads[t].frames == r[i].threads[t].frames
    ensures r[j + 1].threads[t].curspl == r[i].threads[t].curspl
  {
    Popped(r, es, i, j, t);
    LevelKept(r, es, i, j + 1, j, t);
  }

  lemma EndCalm(s: State, e: Step)
    requires Inv(s) && Enabled(s, e) && Pushed(e) == -1
    ensures e.c < |s.cpus| && e.c < |Apply(s, e).cpus| && Apply(s, e).cpus[e.c].cur == s.cpus[e.c].cur
    ensures Apply(s, e).cpus[e.c].phase.Calm? && Held(Apply(s, e), e.c) == Held(s, e.c)
    ensures e.SplRestore? ==> !Apply(s, e).cpus[e.c].window.Open?
    ensures e.IntExit? ==> Held(s, e.c) == {} && !Apply(s, e).cpus[e.c].irqOff
    ensures e.TrapReturn? ==> TopFrame(s, e.c).Trap? && Apply(s, e).cpus[e.c].irqOff == TopFrame(s, e.c).was
  {
    StepHeld(s, e, e.c);
    StepRoles(s, e, e.c);
    hide Inv, Held;
    if e.SplRestore? {
      LevelStep(s, e);
      hide Splx;
    }
  }

  /** The splx that matches a splhigh, wherever the thread is running by then, gives back the level and
      the count less the spinlocks acquired in between; with as many held as before, interrupts are on
      again exactly if they were on. */
  lemma SplxRestores(r: seq<State>, es: seq<Step>, i: nat, j: nat, t: Tid)
    requires IsRun(r, es) && Matched(r, i, j, t) && j < |es| && (es[i].Splhigh? || es[i].TrapSync?)
    ensures es[j].SplRestore? && es[i].c < |r[i].cpus| && es[j].c < |r[j + 1].cpus|
    ensures r[i].cpus[es[i].c].cur == t && r[j + 1].cpus[es[j].c].cur == t
    ensures var x, x' := r[i].threads[t], r[j + 1].threads[t];
            && x'.curspl == x.curspl && x'.frames == x.frames
            && x'.count - |Held(r[j + 1], es[j].c)| == x.count - |Held(r[i], es[i].c)|
    ensures es[i].Splhigh? && |Held(r[j + 1], es[j].c)| == |Held(r[i], es[i].c)| ==>
              r[j + 1].cpus[es[j].c].irqOff == r[i].cpus[es[i].c].irqOff
  {
    assert |r| == |es| + 1;
    hide IsRun, Inv, Held;
    EndsMatch(r, es, i, j, t);
    LevelRestored(r, es, i, j, t);
    RunStep(r, es, i);
    RunStep(r, es, j);
    EndCalm(r[j], es[j]);
    hide Apply;
    CountExact(r, es, i, es[i].c);
    CountExact(r, es, j + 1, es[j].c);
  }

  /** Returning from an interrupt, the thread has the level, the count and the rest of its stack with
      which it took the interrupt; interrupts are on, and the CPU is in cpu_idle's window if the one
      that took it was. */
  lemma InterruptReturns(r: seq<State>, es: seq<Step>, i: nat, j: nat, t: Tid)
    requires IsRun(r, es) && Matched(r, i, j, t) && j < |es| && es[i].IntEnter?
    ensures es[j].IntExit? && es[i].c < |r[i].cpus| && es[j].c < |r[j + 1].cpus|
    ensures r[i].cpus[es[i].c].cur == t && r[j + 1].cpus[es[j].c].cur == t
    ensures var x, x' := r[i].threads[t], r[j + 1].threads[t];
            x'.curspl == x.curspl && x'.frames == x.frames && x'.count == x.count
    ensures var p, p' := r[i].cpus[es[i].c], r[j + 1].cpus[es[j].c];
            !p.irqOff && !p'.irqOff && (p'.window.Open? <==> p.window.Open?)
    ensures Held(r[i], es[i].c) == {} && Held(r[j + 1], es[j].c) == {}
  {
    assert |r| == |es| + 1;
    hide IsRun, Inv, Held;
    EndsMatch(r, es, i, j, t);
    LevelRestored(r, es, i, j, t);
    RunStep(r, es, i);
    RunStep(r, es, j);
    EndCalm(r[j], es[j]);
    hide Apply;
    CountExact(r, es, i, es[i].c);
    CountExact(r, es, j + 1, es[j].c);
    TrapAssertions(r, es, i, es[i].c);
    TrapAssertions(r, es, j + 1, es[j].c);
  }

  /** Returning from any other exception, the thread has the level, the count and the stack with which
      it took it, and interrupts are on exactly if they were on. */
  lemma ExceptionReturns(r: seq<State>, es: seq<Step>, i: nat, j: nat, t: Tid)
    requires IsRun(r, es) && Matched(r, i, j, t) && j < |es| && es[i].TrapEnter?
    ensures es[j].TrapReturn? && es[i].c < |r[i].cpus| && es[j].c < |r[j + 1].cpus|
    ensures r[i].cpus[es[i].c].cur == t && r[j + 1].cpus[es[j].c].cur == t
    ensures var x, x' := r[i].threads[t], r[j + 1].threads[t];
            x'.curspl == x.curspl && x'.frames == x.frames && x'.count == x.count
    ensures r[j + 1].cpus[es[j].c].irqOff == r[i].cpus[es[i].c].irqOff
  {
    assert |r| == |es| + 1;
    hide IsRun, Inv, Held;
    EndsMatch(r, es, i, j, t);
    LevelRestored(r, es, i, j, t);
    RunStep(r, es, i);
    RunStep(r, es, j);
    EndCalm(r[j], es[j]);
    At(r[j], es[j].c);
    hide Apply;
    CountExact(r, es, i, es[i].c);
    CountExact(r, es, j + 1, es[j].c);
  }

  /** While mips_trap handles an exception other than an interrupt, after its splx, interrupts are on
      exactly if they were on where the exception was taken. */
  lemma ExceptionInSync(r: seq<State>, es: seq<Step>, i: nat, c: CpuId)
    requires IsRun(r, es) && i < |r| && Awake(r[i], c) && TopFrame(r[i], c).Trap?
    requires |Held(r[i], c)| == TopFrame(r[i], c).held
    ensures r[i].cpus[c].irqOff == TopFrame(r[i], c).was
  {
    hide IsRun, Inv, Held;
    RunKeeps(r, es, i);
    At(r[i], c);
  }

  /** After spl0 the level is IPL_NONE, and interrupts are on exactly if the CPU holds no spinlock. */
  lemma Spl0Lowers(r: seq<State>, es: seq<Step>, i: nat, c: CpuId)
    requires IsRun(r, es) && i < |es| && es[i] == Spl0(c)
    ensures c < |r[i + 1].cpus| && r[i + 1].cpus[c].cur == r[i].cpus[c].cur && r[i + 1].cpus[c].cur in r[i + 1].threads
    ensures Current(r[i + 1], c).curspl == IPL_NONE && Current(r[i + 1], c).count == |Held(r[i + 1], c)|
    ensures !r[i + 1].cpus[c].irqOff <==> Held(r[i + 1], c) == {}
  {
    hide Inv, Held;
    RunStep(r, es, i);
    StepRoles(r[i], es[i], c);
    SplxChange(r[i], c, IPL_NONE);
    hide Splx;
    CountExact(r, es, i + 1, c);
  }

  /** After splhigh the level is IPL_HIGH and interrupts are off, until the splx that gives back the
      level splhigh found. */
  lemma SplhighRaises(r: seq<State>, es: seq<Step>, i: nat, c: CpuId)
    requires IsRun(r, es) && i < |es| && (es[i] == Splhigh(c) || es[i] == TrapSync(c))
    ensures c < |r[i].cpus| && c < |r[i + 1].cpus| && r[i + 1].cpus[c].cur == r[i].cpus[c].cur
    ensures r[i].cpus[c].cur in r[i].threads && r[i + 1].cpus[c].cur in r[i + 1].threads
    ensures Current(r[i + 1], c).curspl == IPL_HIGH && r[i + 1].cpus[c].irqOff
    ensures |Current(r[i + 1], c).frames| == |Current(r[i], c).frames| + 1
  {
    hide Inv, Held;
    RunStep(r, es, i);
    At(r[i], c);
    LevelStep(r[i], es[i]);
    SplxChange(Push(r[i], c, Saved(Current(r[i], c).curspl)), c, IPL_HIGH);
    hide Splx;
    CountExact(r, es, i + 1, c);
  }

  // ---------------------------------------------------------------------------
  // A run through all of it
  // ---------------------------------------------------------------------------

  /** A thread lowers its level, takes an interrupt, raises its level and restores it, and takes an
      exception. */
  function CallStates(): (r: seq<State>)
    ensures |r| == 11
  {
    var p, k := Cpu(0, true, Calm, false, Shut), Lock(false, None);
    var on, t, low := p.(irqOff := false), Thread(IPL_HIGH, 1, true, []), Thread(IPL_NONE, 0, true, []);
    [OneCpu(p, t, k),
     OneCpu(on, low, k),
     OneCpu(p, t.(frames := [Handler(true)]), k),
     OneCpu(on, low, k),
     OneCpu(p, t.(frames := [Saved(IPL_NONE)]), k),
     OneCpu(on, low, k),
     OneCpu(p.(phase := Entering), low.(frames := [Trap(false, 0)]), k),
     OneCpu(p, t.(frames := [Trap(false, 0), Saved(IPL_NONE)]), k),
     OneCpu(on, low.(frames := [Trap(false, 0)]), k),
     OneCpu(p.(phase := Leaving), low.(frames := [Trap(false, 0)]), k),
     OneCpu(on, low, k)]
  }

  function CallSteps(): (es: seq<Step>)
    ensures |es| == 10
  {
    [Spl0(0), IntEnter(0), IntExit(0), Splhigh(0), SplRestore(0), TrapEnter(0), TrapSync(0), SplRestore(0), TrapDone(0),
     TrapReturn(0)]
  }

  lemma CallsMatch(r: seq<State>)
    requires r == CallStates()
    ensures Matched(r, 1, 2, 0) && Matched(r, 3, 4, 0) && Matched(r, 5, 9, 0) && Matched(r, 6, 7, 0)
  {
  }

  ghost predicate CallTaken(i: nat)
    requires i < 10
  {
    var s, e := CallStates()[i], CallSteps()[i];
    Enabled(s, e) && Apply(s, e) == CallStates()[i + 1]
  }

  lemma CallSpl0()
    ensures CallTaken(0)
  {
    var s := CallStates()[0];
    OneHeld(s.cpus[0], s.threads[0], s.locks[0]);
    var s', n := Apply(s, CallSteps()[0]), CallStates()[1];
    assert s'.cpus == n.cpus && s'.locks == n.locks;
    assert s'.threads[0].frames == n.threads[0].frames;
    assert s'.threads == n.threads;
  }

  lemma CallIntEnter()
    ensures CallTaken(1)
  {
    var s := CallStates()[1];
    OneHeld(s.cpus[0], s.threads[0], s.locks[0]);
    var s', n := Apply(s, CallSteps()[1]), CallStates()[2];
    assert s'.cpus == n.cpus && s'.locks == n.locks;
    assert s'.threads[0].frames == n.threads[0].frames;
    assert s'.threads == n.threads;
  }

  lemma CallIntExit()
    ensures CallTaken(2)
  {
    var s := CallStates()[2];
    OneHeld(s.cpus[0], s.threads[0], s.locks[0]);
    var s', n := Apply(s, CallSteps()[2]), CallStates()[3];
    assert s'.cpus == n.cpus && s'.locks == n.locks;
    assert s'.threads[0].frames == n.threads[0].frames;
    assert s'.threads == n.threads;
  }

  lemma CallSplhigh()
    ensures CallTaken(3)
  {
    var s := CallStates()[3];
    OneHeld(s.cpus[0], s.threads[0], s.locks[0]);
    var s', n := Apply(s, CallSteps()[3]), CallStates()[4];
    assert s'.cpus == n.cpus && s'.locks == n.locks;
    assert s'.threads[0].frames == n.threads[0].frames;
    assert s'.threads == n.threads;
  }

  lemma CallSplx()
    ensures CallTaken(4)
  {
    var s := CallStates()[4];
    OneHeld(s.cpus[0], s.threads[0], s.locks[0]);
    var s', n := Apply(s, CallSteps()[4]), CallStates()[5];
    assert s'.cpus == n.cpus && s'.locks == n.locks;
    assert s'.threads[0].frames == n.threads[0].frames;
    assert s'.threads == n.threads;
  }

  lemma CallTrapEnter()
    ensures CallTaken(5)
  {
    var s := CallStates()[5];
    OneHeld(s.cpus[0], s.threads[0], s.locks[0]);
    var s', n := Apply(s, CallSteps()[5]), CallStates()[6];
    assert s'.cpus == n.cpus && s'.locks == n.locks;
    assert s'.threads[0].frames == n.threads[0].frames;
    assert s'.threads == n.threads;
  }

  lemma CallTrapSync()
    ensures CallTaken(6)
  {
    var s := CallStates()[6];
    OneHeld(s.cpus[0], s.threads[0], s.locks[0]);
    var s', n := Apply(s, CallSteps()[6]), CallStates()[7];
    assert s'.cpus == n.cpus && s'.locks == n.locks;
    assert s'.threads[0].frames == n.threads[0].frames;
    assert s'.threads == n.threads;
  }

  lemma CallTrapSplx()
    ensures CallTaken(7)
  {
    var s := CallStates()[7];
    OneHeld(s.cpus[0], s.threads[0], s.locks[0]);
    var s', n := Apply(s, CallSteps()[7]), CallStates()[8];
    assert s'.cpus == n.cpus && s'.locks == n.locks;
    assert s'.threads[0].frames == n.threads[0].frames;
    assert s'.threads == n.threads;
  }

  lemma CallTrapEnds(i: nat)
    requires 8 <= i < 10
    ensures CallTaken(i)
  {
    var s := CallStates()[i];
    OneHeld(s.cpus[0], s.threads[0], s.locks[0]);
    var s', n := Apply(s, CallSteps()[i]), CallStates()[i + 1];
    assert s'.cpus == n.cpus && s'.locks == n.locks;
    assert s'.threads[0].frames == n.threads[0].frames;
    assert s'.threads == n.threads;
  }

  lemma CallsTaken(i: nat)
    requires i < 10
    ensures CallTaken(i)
  {
    hide CallTaken;
    if i == 0 {
      CallSpl0();
    } else if i == 1 {
      CallIntEnter();
    } else if i == 2 {
      CallIntExit();
    } else if i == 3 {
      CallSplhigh();
    } else if i == 4 {
      CallSplx();
    } else if i == 5 {
      CallTrapEnter();
    } else if i == 6 {
      CallTrapSync();
    } else if i == 7 {
      CallTrapSplx();
    } else {
      CallTrapEnds(i);
    }
  }

  /** From boot, a CPU comes to have interrupts on with count zero outside cpu_idle's window, and takes
      an interrupt there that mips_trap adjusts for. */
  lemma InterruptTaken() returns (r: seq<State>, es: seq<Step>)
    ensures IsRun(r, es) && |r| == 11
    ensures |r[1].cpus| == 1 && r[1].cpus[0].cur in r[1].threads && es[1] == IntEnter(0)
    ensures !r[1].cpus[0].irqOff && r[1].cpus[0].window.Shut? && Current(r[1], 0).count == 0
    ensures |r[2].cpus| == 1 && r[2].cpus[0].cur in r[2].threads && TopFrame(r[2], 0) == Handler(true)
    ensures Matched(r, 1, 2, 0) && Matched(r, 3, 4, 0) && Matched(r, 5, 9, 0) && Matched(r, 6, 7, 0)
  {
    r, es := CallStates(), CallSteps();
    CallsMatch(r);
    assert r[0].cpus[0].cur == 0;
    assert IsCurrent(r[0], 0);
    hide Apply, Enabled;
    forall i | 0 <= i < |es| ensures Enabled(r[i], es[i]) && r[i + 1] == Apply(r[i], es[i]) {
      CallsTaken(i);
    }
  }

  /** The CPU of IdleStates returns from the interrupt, shuts the window, locks its run queue and leaves
      the search, having found its own thread there. */
  function BackStates(): (r: seq<State>)
    ensures |r| == 7
  {
    var p, t, k := Cpu(0, true, Calm, true, Shut), Thread(IPL_HIGH, 1, true, []), Lock(false, None);
    [OneCpu(p.(window := Handling), t.(frames := [Handler(false)]), k),
     OneCpu(p.(irqOff := false, window := Open), t, k),
     OneCpu(p, t, k),
     OneCpu(p.(phase := Raised(0)), t.(count := 2), k),
     OneCpu(p.(phase := Got(0)), t.(count := 2), Lock(true, None)),
     OneCpu(p, t.(count := 2), Lock(true, Some(0))),
     OneCpu(p.(isidle := false), t.(count := 2), Lock(true, Some(0)))]
  }

  function BackSteps(): (es: seq<Step>)
    ensures |es| == 6
  {
    [IntExit(0), CloseWindow(0), AcqRaise(0, 0), AcqTestAndSet(0), AcqHolder(0), SwitchTo(0, 0)]
  }

  ghost predicate BackTaken(i: nat)
    requires i < 6
  {
    var s, e := BackStates()[i], BackSteps()[i];
    Enabled(s, e) && Apply(s, e) == BackStates()[i + 1]
  }

  lemma BackWindow(i: nat)
    requires i < 3
    ensures BackTaken(i)
  {
    var s := BackStates()[i];
    OneHeld(s.cpus[0], s.threads[0], s.locks[0]);
    var s', n := Apply(s, BackSteps()[i]), BackStates()[i + 1];
    assert s'.cpus == n.cpus && s'.locks == n.locks;
    assert s'.threads[0].frames == n.threads[0].frames;
    assert s'.threads == n.threads;
  }

  lemma BackLock(i: nat)
    requires 3 <= i < 6
    ensures BackTaken(i)
  {
    var s := BackStates()[i];
    OneHeld(s.cpus[0], s.threads[0], s.locks[0]);
    var s', n := Apply(s, BackSteps()[i]), BackStates()[i + 1];
    assert s'.cpus == n.cpus && s'.locks == n.locks && s'.threads == n.threads;
  }

  lemma BackStarts()
    ensures BackStates()[0] == IdleStates()[9]
  {
  }

  /** The idle loop ends: a run from boot through the window and an interrupt in it, and out again. */
  lemma WindowLeft() returns (r: seq<State>, es: seq<Step>)
    ensures IsRun(r, es) && |r| == 16 && r[9] == IdleStates()[9] && r[15] == BackStates()[6]
    ensures |r[15].cpus| == 1 && !r[15].cpus[0].isidle && r[15].cpus[0].window.Shut? && r[15].cpus[0].irqOff
  {
    r, es := IdleStates() + BackStates()[1..], IdleSteps() + BackSteps();
    BackStarts();
    assert Init(r[0]) by { IdleBoots(); }
    forall i | 0 <= i < |es| ensures Enabled(r[i], es[i]) && r[i + 1] == Apply(r[i], es[i]) {
      if i < 9 {
        IdleTaken(i);
      } else if i < 12 {
        BackWindow(i - 9);
      } else {
        BackLock(i - 9);
      }
    }
  }
}
