/** Interrupt-disable counting (spl.c), spinlocks (spinlock.c) and their interplay with context
    switches and idling (thread.c, cpu.c) and with interrupts and exceptions (trap.c), one step per
    memory access that another CPU can see. */
module Interrupts {
  import opened Basics

  type Tid = nat
  type CpuId = nat
  type LockId = nat

  const IPL_NONE := 0
  const IPL_HIGH := 1

  /** What a thread's call stack still has to undo. */
  datatype Frame =
    | Saved(spl: int)              // splhigh() returned spl, for the splx to come
    | Handler(adjusted: bool)      // mips_trap in an interrupt, with its `doadjust`
    | Trap(was: bool, held: nat)   // mips_trap in any other exception: interrupts off before, locks held before

  /** t_curspl and t_iplhigh_count; `launched` once thread_fork has charged the new thread
      for the run-queue lock it will have to release. */
  datatype Thread = Thread(curspl: int, count: int, launched: bool, frames: seq<Frame>)

  /** Where a CPU is inside spinlock_acquire, spinlock_release or the two ends of mips_trap. */
  datatype Phase =
    | Calm
    | Raised(l: LockId)   // splraise done, spinning
    | Got(l: LockId)      // test-and-set won, lk_holder not yet written
    | Cleared(l: LockId)  // lk_holder cleared, lk_lock still set
    | Freed               // lk_lock cleared, spllower still to come
    | Entering            // in an exception, splhigh() still to come
    | Leaving             // at mips_trap's `done`, cpu_irqoff() done, not yet returned

  /** cpu_idle's moment with interrupts on: over or to come, there, or interrupted. */
  datatype Window = Shut | Open | Handling

  datatype Cpu = Cpu(cur: Tid, irqOff: bool, phase: Phase, isidle: bool, window: Window)

  datatype Lock = Lock(bit: bool, holder: Option<CpuId>)

  /** Lock `c` is CPU c's run-queue lock; the others are any other spinlocks. */
  datatype State = State(cpus: seq<Cpu>, threads: map<Tid, Thread>, locks: seq<Lock>)

  datatype Step =
    | AcqRaise(c: CpuId, l: LockId)
    | AcqTestAndSet(c: CpuId)
    | AcqHolder(c: CpuId)
    | RelHolder(c: CpuId, l: LockId)
    | RelData(c: CpuId)
    | RelLower(c: CpuId)
    | Splhigh(c: CpuId)          // spl = splhigh()
    | SplRestore(c: CpuId)       // splx(spl)
    | Spl0(c: CpuId)             // spl0(), at the start of a thread
    | IntEnter(c: CpuId)
    | IntExit(c: CpuId)
    | TrapEnter(c: CpuId)
    | TrapSync(c: CpuId)         // the splhigh() of mips_trap
    | TrapDone(c: CpuId)
    | TrapReturn(c: CpuId)
    | BeginPick(c: CpuId)        // c_isidle = true, run queue locked
    | OpenWindow(c: CpuId)       // cpu_irqonoff: on
    | CloseWindow(c: CpuId)      // cpu_irqonoff: off
    | Create(t: Tid)
    | Launch(t: Tid)
    | SwitchTo(c: CpuId, next: Tid)

  predicate CalmAt(s: State, c: CpuId)
  {
    c < |s.cpus| && s.cpus[c].phase.Calm? && s.cpus[c].cur in s.threads
  }

  /** Calm, and not between the two halves of cpu_irqonoff. */
  predicate Awake(s: State, c: CpuId)
  {
    CalmAt(s, c) && !s.cpus[c].window.Open?
  }

  predicate IsCurrent(s: State, t: Tid)
  {
    exists c :: 0 <= c < |s.cpus| && s.cpus[c].cur == t
  }

  /** The spinlocks a CPU holds, by their lk_holder fields. */
  function Held(s: State, c: CpuId): set<LockId>
  {
    set l | 0 <= l < |s.locks| && s.locks[l].holder == Some(c)
  }

  function Current(s: State, c: CpuId): Thread
    requires c < |s.cpus| && s.cpus[c].cur in s.threads
  {
    s.threads[s.cpus[c].cur]
  }

  /** The innermost frame; Saved(-1), which nothing pushes, stands for none. */
  function TopFrame(s: State, c: CpuId): Frame
    requires c < |s.cpus| && s.cpus[c].cur in s.threads
  {
    Innermost(Current(s, c).frames)
  }

  function Innermost(frames: seq<Frame>): Frame { if frames == [] then Saved(-1) else frames[|frames| - 1] }

  predicate Enabled(s: State, e: Step)
  {
    match e
    case AcqRaise(c, l) => Awake(s, c) && l < |s.locks| && s.locks[l].holder != Some(c)
    case AcqTestAndSet(c) =>
      && c < |s.cpus| && s.cpus[c].phase.Raised?
      && s.cpus[c].phase.l < |s.locks| && !s.locks[s.cpus[c].phase.l].bit
    case AcqHolder(c) => c < |s.cpus| && s.cpus[c].phase.Got? && s.cpus[c].phase.l < |s.locks|
    case RelHolder(c, l) => Awake(s, c) && l < |s.locks| && s.locks[l].holder == Some(c)
    case RelData(c) => c < |s.cpus| && s.cpus[c].phase.Cleared? && s.cpus[c].phase.l < |s.locks|
    case RelLower(c) => c < |s.cpus| && s.cpus[c].phase.Freed? && s.cpus[c].cur in s.threads
    case Splhigh(c) => Awake(s, c)
    case SplRestore(c) => Awake(s, c) && Current(s, c).frames != [] && TopFrame(s, c).Saved?
    case Spl0(c) => Awake(s, c) && Current(s, c).frames == []
    case IntEnter(c) => CalmAt(s, c) && !s.cpus[c].irqOff
    case IntExit(c) => Awake(s, c) && TopFrame(s, c).Handler? && Held(s, c) == {}
    case TrapEnter(c) => Awake(s, c)
    case TrapSync(c) => c < |s.cpus| && s.cpus[c].phase.Entering? && s.cpus[c].cur in s.threads
    case TrapDone(c) =>
      && Awake(s, c) && TopFrame(s, c).Trap?
      && |Held(s, c)| == TopFrame(s, c).held
    case TrapReturn(c) =>
      && c < |s.cpus| && s.cpus[c].phase.Leaving? && s.cpus[c].cur in s.threads
      && TopFrame(s, c).Trap?
    case BeginPick(c) => Awake(s, c) && !s.cpus[c].isidle && Current(s, c).curspl == IPL_HIGH && c in Held(s, c)
    case OpenWindow(c) =>
      && CalmAt(s, c) && s.cpus[c].isidle && s.cpus[c].window.Shut?
      && Current(s, c).curspl == IPL_HIGH && Held(s, c) == {}
    case CloseWindow(c) => CalmAt(s, c) && s.cpus[c].window.Open?
    case Create(t) => t !in s.threads
    case Launch(t) => t in s.threads && !s.threads[t].launched
    case SwitchTo(c, next) => CanSwitch(s, c, next) && Held(s, c) == {c}
  }

  /** thread_switch with the run queue locked and a thread to switch to: a launched one that no CPU
      is using, or the old one again. A handler cannot get here while c_isidle is set. */
  predicate CanSwitch(s: State, c: CpuId, next: Tid)
  {
    && CalmAt(s, c) && s.cpus[c].window.Shut? && s.cpus[c].isidle
    && Current(s, c).curspl == IPL_HIGH && c in Held(s, c)
    && next in s.threads && (next == s.cpus[c].cur || (s.threads[next].launched && !IsCurrent(s, next)))
  }

  // ---------------------------------------------------------------------------
  // What the steps do
  // ---------------------------------------------------------------------------

  /** Replaces CPU c's record and its current thread's. */
  function Put(s: State, c: CpuId, p: Cpu, t: Thread): State
    requires c < |s.cpus|
  {
    s.(cpus := s.cpus[c := p], threads := s.threads[s.cpus[c].cur := t])
  }

  /** splraise and spllower on the current thread: interrupts go off on the first raise and
      on again on the last lower. */
  function Raise(s: State, c: CpuId): State
    requires c < |s.cpus| && s.cpus[c].cur in s.threads
  {
    var t := Current(s, c);
    Put(s, c, s.cpus[c].(irqOff := s.cpus[c].irqOff || t.count == 0), t.(count := t.count + 1))
  }

  function Lower(s: State, c: CpuId): State
    requires c < |s.cpus| && s.cpus[c].cur in s.threads
  {
    var t := Current(s, c);
    Put(s, c, s.cpus[c].(irqOff := s.cpus[c].irqOff && t.count - 1 != 0), t.(count := t.count - 1))
  }

  function SetSpl(s: State, c: CpuId, spl: int): State
    requires c < |s.cpus| && s.cpus[c].cur in s.threads
  {
    Put(s, c, s.cpus[c], Current(s, c).(curspl := spl))
  }

  /** splx */
  function Splx(s: State, c: CpuId, spl: int): State
    requires c < |s.cpus| && s.cpus[c].cur in s.threads
  {
    if Current(s, c).curspl < spl then SetSpl(Raise(s, c), c, spl)
    else if Current(s, c).curspl > spl then Lower(SetSpl(s, c, spl), c)
    else s
  }

  function Push(s: State, c: CpuId, f: Frame): State
    requires c < |s.cpus| && s.cpus[c].cur in s.threads
  {
    Put(s, c, s.cpus[c], Current(s, c).(frames := Current(s, c).frames + [f]))
  }

  function Pop(s: State, c: CpuId): State
    requires c < |s.cpus| && s.cpus[c].cur in s.threads && Current(s, c).frames != []
  {
    var fs := Current(s, c).frames;
    Put(s, c, s.cpus[c], Current(s, c).(frames := fs[..|fs| - 1]))
  }

  function SetPhase(s: State, c: CpuId, p: Phase): State
    requires c < |s.cpus|
  {
    s.(cpus := s.cpus[c := s.cpus[c].(phase := p)])
  }

  function SetIrq(s: State, c: CpuId, off: bool, w: Window): State
    requires c < |s.cpus|
  {
    s.(cpus := s.cpus[c := s.cpus[c].(irqOff := off, window := w)])
  }

  function SetLock(s: State, l: LockId, k: Lock): State
    requires l < |s.locks|
  {
    s.(locks := s.locks[l := k])
  }

  function Apply(s: State, e: Step): State
    requires Enabled(s, e)
  {
    match e
    case AcqRaise(c, l) => SetPhase(Raise(s, c), c, Raised(l))
    case AcqTestAndSet(c) =>
      var l := s.cpus[c].phase.l;
      SetPhase(SetLock(s, l, s.locks[l].(bit := true)), c, Got(l))
    case AcqHolder(c) =>
      var l := s.cpus[c].phase.l;
      SetPhase(SetLock(s, l, s.locks[l].(holder := Some(c))), c, Calm)
    case RelHolder(c, l) => SetPhase(SetLock(s, l, s.locks[l].(holder := None)), c, Cleared(l))
    case RelData(c) =>
      var l := s.cpus[c].phase.l;
      SetPhase(SetLock(s, l, s.locks[l].(bit := false)), c, Freed)
    case RelLower(c) => SetPhase(Lower(s, c), c, Calm)
    case Splhigh(c) => Splx(Push(s, c, Saved(Current(s, c).curspl)), c, IPL_HIGH)
    case SplRestore(c) => Splx(Pop(s, c), c, TopFrame(s, c).spl)
    case Spl0(c) => Splx(s, c, IPL_NONE)
    case IntEnter(c) => EnterInterrupt(s, c)
    case IntExit(c) => ExitInterrupt(s, c)
    case TrapEnter(c) =>
      SetPhase(SetIrq(Push(s, c, Trap(s.cpus[c].irqOff, |Held(s, c)|)), c, true, s.cpus[c].window), c, Entering)
    case TrapSync(c) => SetPhase(Splx(Push(s, c, Saved(Current(s, c).curspl)), c, IPL_HIGH), c, Calm)
    case TrapDone(c) => SetPhase(SetIrq(s, c, true, s.cpus[c].window), c, Leaving)
    case TrapReturn(c) => SetPhase(SetIrq(Pop(s, c), c, TopFrame(s, c).was, s.cpus[c].window), c, Calm)
    case BeginPick(c) => s.(cpus := s.cpus[c := s.cpus[c].(isidle := true)])
    case OpenWindow(c) => SetIrq(s, c, false, Open)
    case CloseWindow(c) => SetIrq(s, c, true, Shut)
    case Create(t) => s.(threads := s.threads[t := Thread(IPL_HIGH, 1, false, [])])
    case Launch(t) => s.(threads := s.threads[t := s.threads[t].(count := s.threads[t].count + 1, launched := true)])
    case SwitchTo(c, next) => Switch(s, c, next)
  }

  /** The processor turns interrupts off. mips_trap adjusts the recorded level to match, unless it
      says that they were off all along, which cpu_idle leaves it saying. */
  function EnterInterrupt(s: State, c: CpuId): State
    requires c < |s.cpus| && s.cpus[c].cur in s.threads
  {
    var p, t := s.cpus[c], Current(s, c);
    if t.curspl == IPL_NONE then
      Put(s, c, p.(irqOff := true),
          t.(curspl := IPL_HIGH, count := t.count + 1, frames := t.frames + [Handler(true)]))
    else
      Put(s, c, p.(irqOff := true, window := if p.window.Open? then Handling else p.window),
          t.(frames := t.frames + [Handler(false)]))
  }

  /** mips_trap undoes its adjustment, and returning from the interrupt turns interrupts on again. */
  function ExitInterrupt(s: State, c: CpuId): State
    requires c < |s.cpus| && s.cpus[c].cur in s.threads && Current(s, c).frames != []
  {
    var p, t := s.cpus[c], Pop(s, c).threads[s.cpus[c].cur];
    if TopFrame(s, c) == Handler(true) then
      Put(s, c, p.(irqOff := false), t.(curspl := IPL_NONE, count := t.count - 1))
    else
      Put(s, c, p.(irqOff := false, window := if p.window.Handling? then Open else p.window), t)
  }

  function Switch(s: State, c: CpuId, next: Tid): State
    requires c < |s.cpus|
  {
    s.(cpus := s.cpus[c := s.cpus[c].(cur := next, isidle := false)])
  }

  // ---------------------------------------------------------------------------
  // Invariant
  // ---------------------------------------------------------------------------

  /** A CPU owns lock `l` from winning the test-and-set until it clears the lock word. */
  ghost predicate Owns(s: State, c: CpuId, l: LockId)
    requires c < |s.cpus| && l < |s.locks|
  {
    s.locks[l].holder == Some(c) || s.cpus[c].phase == Got(l) || s.cpus[c].phase == Cleared(l)
  }

  /** Owing a spllower outside the locks held: acquiring but not there, or nearly released. */
  function Transit(p: Phase): int { if p.Raised? || p.Got? || p.Cleared? || p.Freed? then 1 else 0 }

  /** Each frame was pushed at the level the frames below it leave: inside a handler, and after
      splhigh(), that is IPL_HIGH. */
  ghost predicate Nested(frames: seq<Frame>, level: int)
  {
    frames == [] ||
    (var n := |frames| - 1;
     match frames[n]
     case Saved(v) => level == IPL_HIGH && (v == IPL_NONE || v == IPL_HIGH) && Nested(frames[..n], v)
     case Handler(adj) => level == IPL_HIGH && Nested(frames[..n], if adj then IPL_NONE else IPL_HIGH)
     case Trap(was, held) => (was <==> level + held > 0) && Nested(frames[..n], level))
  }

  /** The handlers that found the recorded level high. */
  ghost function Unadjusted(frames: seq<Frame>): nat
  {
    if frames == [] then 0
    else Unadjusted(frames[..|frames| - 1]) + if frames[|frames| - 1] == Handler(false) then 1 else 0
  }

  /** The processor and the count agree, except in cpu_idle's window and at mips_trap's two ends. */
  ghost predicate IrqOk(p: Cpu, count: int)
  {
    if p.window.Open? then !p.irqOff
    else if p.phase.Entering? || p.phase.Leaving? then p.irqOff
    else p.irqOff <==> count > 0
  }

  ghost predicate WindowOk(p: Cpu, t: Thread, held: nat)
  {
    && (p.window.Open? ==> p.phase.Calm? && t.curspl == IPL_HIGH && held == 0)
    && (!p.window.Shut? ==> p.isidle)
    && Unadjusted(t.frames) == (if p.window.Handling? then 1 else 0)
  }

  ghost predicate TrapOk(p: Cpu, t: Thread, held: nat)
  {
    p.phase.Leaving? ==> t.frames != [] && Innermost(t.frames).Trap? && Innermost(t.frames).held == held
  }

  ghost predicate ThreadOk(t: Thread)
  {
    (t.curspl == IPL_NONE || t.curspl == IPL_HIGH) && Nested(t.frames, t.curspl)
  }

  /** The heart of it: the count is the spl contribution plus the releases still owed. */
  ghost predicate CpuOk(s: State, c: CpuId)
    requires c < |s.cpus|
  {
    var p := s.cpus[c];
    && p.cur in s.threads
    && var t := s.threads[p.cur];
    && ThreadOk(t) && t.launched
    && t.count == t.curspl + |Held(s, c)| + Transit(p.phase)
    && IrqOk(p, t.count) && WindowOk(p, t, |Held(s, c)|) && TrapOk(p, t, |Held(s, c)|)
    && (p.phase.Raised? || p.phase.Got? || p.phase.Cleared? ==> p.phase.l < |s.locks| && p.phase.l !in Held(s, c))
  }

  /** A thread that is not running has spl high and, once launched, owes one release: the
      run-queue lock of whichever CPU switches to it. */
  ghost predicate OffCpuOk(s: State, t: Tid)
    requires t in s.threads
  {
    && ThreadOk(s.threads[t]) && s.threads[t].curspl == IPL_HIGH && Unadjusted(s.threads[t].frames) == 0
    && s.threads[t].count == if s.threads[t].launched then 2 else 1
  }

  ghost predicate LockOk(s: State, l: LockId)
    requires l < |s.locks|
  {
    && (forall c, d :: 0 <= c < |s.cpus| && 0 <= d < |s.cpus| && Owns(s, c, l) && Owns(s, d, l) ==> c == d)
    && (s.locks[l].bit <==> exists c :: 0 <= c < |s.cpus| && Owns(s, c, l))
    && (s.locks[l].holder.Some? ==> s.locks[l].holder.value < |s.cpus|)
  }

  ghost predicate Inv(s: State)
  {
    && (forall c :: 0 <= c < |s.cpus| ==> CpuOk(s, c))
    && (forall c, d :: 0 <= c < d < |s.cpus| ==> s.cpus[c].cur != s.cpus[d].cur)
    && (forall t :: t in s.threads && !IsCurrent(s, t) ==> OffCpuOk(s, t))
    && (forall l :: 0 <= l < |s.locks| ==> LockOk(s, l))
  }

  /** Boot: one thread per CPU, spl high, interrupts off, all spinlocks free. */
  ghost predicate Init(s: State)
  {
    && |s.cpus| <= |s.locks|
    && (forall c :: 0 <= c < |s.cpus| ==>
          s.cpus[c] == Cpu(s.cpus[c].cur, true, Calm, false, Shut) && s.cpus[c].cur in s.threads
          && s.threads[s.cpus[c].cur] == Thread(IPL_HIGH, 1, true, []))
    && (forall c, d :: 0 <= c < d < |s.cpus| ==> s.cpus[c].cur != s.cpus[d].cur)
    && (forall t :: t in s.threads ==> IsCurrent(s, t))
    && (forall l :: 0 <= l < |s.locks| ==> s.locks[l] == Lock(false, None))
  }

  // ---------------------------------------------------------------------------
  // Preservation
  // ---------------------------------------------------------------------------

  lemma InitHolds(s: State)
    requires Init(s)
    ensures Inv(s)
  {
    forall c | 0 <= c < |s.cpus| ensures Held(s, c) == {} {
    }
  }

  lemma At(s: State, c: CpuId)
    requires Inv(s) && c < |s.cpus|
    ensures CpuOk(s, c)
    ensures forall d :: 0 <= d < |s.cpus| && d != c ==> s.cpus[d].cur != s.cpus[c].cur && CpuOk(s, d)
  {
  }

  /** A step that changes only CPU `c` and its current thread, not the locks it owns. */
  lemma Local(s: State, s': State, c: CpuId)
    requires Inv(s) && c < |s.cpus| && s'.locks == s.locks
    requires |s'.cpus| == |s.cpus| && s'.cpus == s.cpus[c := s'.cpus[c]] && s'.cpus[c].cur == s.cpus[c].cur
    requires s'.threads.Keys == s.threads.Keys
    requires forall t :: t in s.threads && t != s.cpus[c].cur ==> s'.threads[t] == s.threads[t]
    requires forall l :: 0 <= l < |s.locks| ==> (Owns(s', c, l) <==> Owns(s, c, l))
    requires CpuOk(s', c)
    ensures Inv(s')
  {
    At(s, c);
    forall d | 0 <= d < |s.cpus| ensures CpuOk(s', d) {
      assert Held(s', d) == Held(s, d);
    }
    forall t | t in s'.threads && !IsCurrent(s', t) ensures OffCpuOk(s', t) {
      SameCurrents(s, s', t);
    }
    forall l | 0 <= l < |s.locks| ensures LockOk(s', l) {
      SameOwners(s, s', l);
    }
  }

  lemma SameCurrents(s: State, s': State, t: Tid)
    requires |s'.cpus| == |s.cpus| && forall d :: 0 <= d < |s.cpus| ==> s'.cpus[d].cur == s.cpus[d].cur
    ensures IsCurrent(s', t) <==> IsCurrent(s, t)
  {
    if IsCurrent(s, t) {
      var d :| 0 <= d < |s.cpus| && s.cpus[d].cur == t;
      assert s'.cpus[d].cur == t;
    }
  }

  lemma SameOwners(s: State, s': State, l: LockId)
    requires |s'.cpus| == |s.cpus| && s'.locks == s.locks && l < |s.locks| && LockOk(s, l)
    requires forall d :: 0 <= d < |s.cpus| ==> (Owns(s', d, l) <==> Owns(s, d, l))
    ensures LockOk(s', l)
  {
    if d :| 0 <= d < |s.cpus| && Owns(s, d, l) {
      assert Owns(s', d, l);
    }
  }

  // Steps of one CPU on its own level and frames: the new current thread and CPU record are in order.

  lemma NestedPush(frames: seq<Frame>, f: Frame, level: int, level': int)
    requires Nested(frames, level)
    requires match f
             case Saved(v) => level' == IPL_HIGH && v == level && (v == IPL_NONE || v == IPL_HIGH)
             case Handler(adj) => level' == IPL_HIGH && level == if adj then IPL_NONE else IPL_HIGH
             case Trap(was, held) => level' == level && (was <==> level + held > 0)
    ensures Nested(frames + [f], level') && Innermost(frames + [f]) == f
    ensures Unadjusted(frames + [f]) == Unadjusted(frames) + if f == Handler(false) then 1 else 0
  {
    assert (frames + [f])[..|frames|] == frames;
  }

  /** A step of CPU c alone whose outcome is the CPU record p and the current thread t. */
  lemma PutKeeps(s: State, c: CpuId, p: Cpu, t: Thread)
    requires Inv(s) && c < |s.cpus| && s.cpus[c].cur in s.threads && p.cur == s.cpus[c].cur
    requires !p.phase.Got? && !p.phase.Cleared? && !s.cpus[c].phase.Got? && !s.cpus[c].phase.Cleared?
    requires ThreadOk(t) && t.launched && t.count == t.curspl + |Held(s, c)| + Transit(p.phase)
    requires IrqOk(p, t.count) && WindowOk(p, t, |Held(s, c)|) && TrapOk(p, t, |Held(s, c)|)
    requires p.phase.Raised? ==> p.phase.l < |s.locks| && p.phase.l !in Held(s, c)
    ensures Inv(Put(s, c, p, t))
  {
    hide ThreadOk, WindowOk, TrapOk, IrqOk;
    var s' := Put(s, c, p, t);
    assert Held(s', c) == Held(s, c);
    assert CpuOk(s', c);
    hide Inv, CpuOk;
    Local(s, s', c);
  }

  lemma AcqRaiseStep(s: State, c: CpuId, l: LockId)
    requires Inv(s) && Enabled(s, AcqRaise(c, l))
    ensures Inv(Apply(s, AcqRaise(c, l)))
  {
    hide Inv;
    At(s, c);
    var s' := Apply(s, AcqRaise(c, l));
    assert s' == Put(s, c, s'.cpus[c], s'.threads[s.cpus[c].cur]);
    hide Nested, Unadjusted, Apply, Enabled;
    PutKeeps(s, c, s'.cpus[c], s'.threads[s.cpus[c].cur]);
  }

  lemma RelLowerStep(s: State, c: CpuId)
    requires Inv(s) && Enabled(s, RelLower(c))
    ensures Inv(Apply(s, RelLower(c)))
  {
    hide Inv;
    At(s, c);
    var s' := Apply(s, RelLower(c));
    assert s' == Put(s, c, s'.cpus[c], s'.threads[s.cpus[c].cur]);
    hide Nested, Unadjusted, Apply, Enabled;
    PutKeeps(s, c, s'.cpus[c], s'.threads[s.cpus[c].cur]);
  }

  lemma SplhighStep(s: State, c: CpuId)
    requires Inv(s) && Enabled(s, Splhigh(c))
    ensures Inv(Apply(s, Splhigh(c)))
  {
    hide Inv;
    At(s, c);
    var s' := Apply(s, Splhigh(c));
    NestedPush(Current(s, c).frames, Saved(Current(s, c).curspl), Current(s, c).curspl, IPL_HIGH);
    assert s' == Put(s, c, s'.cpus[c], s'.threads[s.cpus[c].cur]);
    hide Nested, Unadjusted, Apply, Enabled;
    PutKeeps(s, c, s'.cpus[c], s'.threads[s.cpus[c].cur]);
  }

  lemma SplRestoreStep(s: State, c: CpuId)
    requires Inv(s) && Enabled(s, SplRestore(c))
    ensures Inv(Apply(s, SplRestore(c)))
  {
    hide Inv;
    At(s, c);
    var s' := Apply(s, SplRestore(c));
    assert s' == Put(s, c, s'.cpus[c], s'.threads[s.cpus[c].cur]);
    hide Nested, Unadjusted, Apply, Enabled;
    PutKeeps(s, c, s'.cpus[c], s'.threads[s.cpus[c].cur]);
  }

  lemma Spl0Step(s: State, c: CpuId)
    requires Inv(s) && Enabled(s, Spl0(c))
    ensures Inv(Apply(s, Spl0(c)))
  {
    hide Inv;
    At(s, c);
    var s' := Apply(s, Spl0(c));
    assert s' == Put(s, c, s'.cpus[c], s'.threads[s.cpus[c].cur]);
    hide Nested, Unadjusted, Apply, Enabled;
    PutKeeps(s, c, s'.cpus[c], s'.threads[s.cpus[c].cur]);
  }

  lemma IntEnterStep(s: State, c: CpuId)
    requires Inv(s) && Enabled(s, IntEnter(c))
    ensures Inv(Apply(s, IntEnter(c)))
  {
    hide Inv;
    At(s, c);
    var s' := Apply(s, IntEnter(c));
    NestedPush(Current(s, c).frames, Handler(Current(s, c).curspl == IPL_NONE), Current(s, c).curspl, IPL_HIGH);
    assert s' == Put(s, c, s'.cpus[c], s'.threads[s.cpus[c].cur]);
    hide Nested, Unadjusted, Apply, Enabled;
    PutKeeps(s, c, s'.cpus[c], s'.threads[s.cpus[c].cur]);
  }

  lemma IntExitStep(s: State, c: CpuId)
    requires Inv(s) && Enabled(s, IntExit(c))
    ensures Inv(Apply(s, IntExit(c)))
  {
    hide Inv;
    At(s, c);
    var s' := Apply(s, IntExit(c));
    assert s' == Put(s, c, s'.cpus[c], s'.threads[s.cpus[c].cur]);
    hide Nested, Unadjusted, Apply, Enabled;
    PutKeeps(s, c, s'.cpus[c], s'.threads[s.cpus[c].cur]);
  }

  lemma TrapEnterStep(s: State, c: CpuId)
    requires Inv(s) && Enabled(s, TrapEnter(c))
    ensures Inv(Apply(s, TrapEnter(c)))
  {
    hide Inv;
    At(s, c);
    var s' := Apply(s, TrapEnter(c));
    NestedPush(Current(s, c).frames, Trap(s.cpus[c].irqOff, |Held(s, c)|), Current(s, c).curspl, Current(s, c).curspl);
    assert s' == Put(s, c, s'.cpus[c], s'.threads[s.cpus[c].cur]);
    hide Nested, Unadjusted, Apply, Enabled;
    PutKeeps(s, c, s'.cpus[c], s'.threads[s.cpus[c].cur]);
  }

  lemma TrapSyncStep(s: State, c: CpuId)
    requires Inv(s) && Enabled(s, TrapSync(c))
    ensures Inv(Apply(s, TrapSync(c)))
  {
    hide Inv;
    At(s, c);
    var s' := Apply(s, TrapSync(c));
    NestedPush(Current(s, c).frames, Saved(Current(s, c).curspl), Current(s, c).curspl, IPL_HIGH);
    assert s' == Put(s, c, s'.cpus[c], s'.threads[s.cpus[c].cur]);
    hide Nested, Unadjusted, Apply, Enabled;
    PutKeeps(s, c, s'.cpus[c], s'.threads[s.cpus[c].cur]);
  }

  lemma TrapDoneStep(s: State, c: CpuId)
    requires Inv(s) && Enabled(s, TrapDone(c))
    ensures Inv(Apply(s, TrapDone(c)))
  {
    hide Inv;
    At(s, c);
    var s' := Apply(s, TrapDone(c));
    assert s' == Put(s, c, s'.cpus[c], s'.threads[s.cpus[c].cur]);
    hide Nested, Unadjusted, Apply, Enabled;
    PutKeeps(s, c, s'.cpus[c], s'.threads[s.cpus[c].cur]);
  }

  lemma TrapReturnStep(s: State, c: CpuId)
    requires Inv(s) && Enabled(s, TrapReturn(c))
    ensures Inv(Apply(s, TrapReturn(c)))
  {
    hide Inv;
    At(s, c);
    var s' := Apply(s, TrapReturn(c));
    assert s' == Put(s, c, s'.cpus[c], s'.threads[s.cpus[c].cur]);
    hide Nested, Unadjusted, Apply, Enabled;
    PutKeeps(s, c, s'.cpus[c], s'.threads[s.cpus[c].cur]);
  }

  lemma BeginPickStep(s: State, c: CpuId)
    requires Inv(s) && Enabled(s, BeginPick(c))
    ensures Inv(Apply(s, BeginPick(c)))
  {
    hide Inv;
    At(s, c);
    var s' := Apply(s, BeginPick(c));
    assert s' == Put(s, c, s'.cpus[c], s'.threads[s.cpus[c].cur]);
    hide Nested, Unadjusted, Apply, Enabled;
    PutKeeps(s, c, s'.cpus[c], s'.threads[s.cpus[c].cur]);
  }

  lemma OpenWindowStep(s: State, c: CpuId)
    requires Inv(s) && Enabled(s, OpenWindow(c))
    ensures Inv(Apply(s, OpenWindow(c)))
  {
    hide Inv;
    At(s, c);
    var s' := Apply(s, OpenWindow(c));
    assert s' == Put(s, c, s'.cpus[c], s'.threads[s.cpus[c].cur]);
    hide Nested, Unadjusted, Apply, Enabled;
    PutKeeps(s, c, s'.cpus[c], s'.threads[s.cpus[c].cur]);
  }

  lemma CloseWindowStep(s: State, c: CpuId)
    requires Inv(s) && Enabled(s, CloseWindow(c))
    ensures Inv(Apply(s, CloseWindow(c)))
  {
    hide Inv;
    At(s, c);
    var s' := Apply(s, CloseWindow(c));
    assert s' == Put(s, c, s'.cpus[c], s'.threads[s.cpus[c].cur]);
    hide Nested, Unadjusted, Apply, Enabled;
    PutKeeps(s, c, s'.cpus[c], s'.threads[s.cpus[c].cur]);
  }

  /** A step of CPU `c` on lock `l` that leaves the threads alone. */
  lemma OnLock(s: State, s': State, c: CpuId, l: LockId)
    requires Inv(s) && c < |s.cpus| && l < |s.locks| && s'.threads == s.threads
    requires |s'.cpus| == |s.cpus| && s'.cpus == s.cpus[c := s.cpus[c].(phase := s'.cpus[c].phase)]
    requires |s'.locks| == |s.locks| && s'.locks == s.locks[l := s'.locks[l]]
    requires forall k :: 0 <= k < |s.locks| && k != l ==> (Owns(s', c, k) <==> Owns(s, c, k))
    requires forall d :: 0 <= d < |s.cpus| && d != c ==> Held(s', d) == Held(s, d)
    requires CpuOk(s', c) && LockOk(s', l)
    ensures Inv(s')
  {
    At(s, c);
    forall d | 0 <= d < |s.cpus| ensures CpuOk(s', d) {
    }
    forall t | t in s'.threads && !IsCurrent(s', t) ensures OffCpuOk(s', t) {
      SameCurrents(s, s', t);
    }
    forall k | 0 <= k < |s.locks| ensures LockOk(s', k) {
      if k != l {
        assert LockOk(s, k);
        OtherLock(s, s', k);
      }
    }
  }

  lemma OtherLock(s: State, s': State, k: LockId)
    requires |s'.cpus| == |s.cpus| && k < |s.locks| && k < |s'.locks| && s'.locks[k] == s.locks[k] && LockOk(s, k)
    requires forall d :: 0 <= d < |s.cpus| ==> (Owns(s', d, k) <==> Owns(s, d, k))
    ensures LockOk(s', k)
  {
    if d :| 0 <= d < |s.cpus| && Owns(s, d, k) {
      assert Owns(s', d, k);
    }
  }

  /** Winning the test-and-set: nobody else can own the lock. */
  lemma TestAndSetStep(s: State, c: CpuId)
    requires Inv(s) && Enabled(s, AcqTestAndSet(c))
    ensures Inv(Apply(s, AcqTestAndSet(c)))
  {
    var s', l := Apply(s, AcqTestAndSet(c)), s.cpus[c].phase.l;
    hide Apply, Enabled, ThreadOk, Unadjusted;
    At(s, c);
    NobodyElse(s, c, l);
    hide Inv;
    forall d | 0 <= d < |s.cpus| ensures Held(s', d) == Held(s, d) {
    }
    assert Owns(s', c, l);
    forall d | 0 <= d < |s.cpus| && d != c ensures !Owns(s', d, l) {
      assert !Owns(s, d, l);
    }
    SameDebt(s, s', c, Got(l));
    hide CpuOk;
    OnLock(s, s', c, l);
  }

  /** A step inside spinlock_acquire or spinlock_release keeps the sum of locks held and owed. */
  lemma SameDebt(s: State, s': State, c: CpuId, ph: Phase)
    requires c < |s.cpus| && CpuOk(s, c) && |s'.locks| == |s.locks| && s'.threads == s.threads
    requires |s'.cpus| == |s.cpus| && s'.cpus[c] == s.cpus[c].(phase := ph) && !s.cpus[c].window.Open?
    requires !s.cpus[c].phase.Entering? && !s.cpus[c].phase.Leaving? && !ph.Entering? && !ph.Leaving?
    requires |Held(s', c)| + Transit(ph) == |Held(s, c)| + Transit(s.cpus[c].phase)
    requires ph.Raised? || ph.Got? || ph.Cleared? ==> ph.l < |s.locks| && ph.l !in Held(s', c)
    ensures CpuOk(s', c)
  {
    hide ThreadOk, Held, Unadjusted;
  }

  /** Who owns a lock that is free, or that CPU c owns. */
  lemma NobodyElse(s: State, c: CpuId, l: LockId)
    requires Inv(s) && c < |s.cpus| && l < |s.locks| && (!s.locks[l].bit || Owns(s, c, l))
    ensures forall d :: 0 <= d < |s.cpus| && d != c ==> !Owns(s, d, l)
    ensures !s.locks[l].bit ==> !Owns(s, c, l)
    ensures s.locks[l].holder.Some? ==> s.locks[l].holder.value < |s.cpus| && Owns(s, s.locks[l].holder.value, l)
  {
    assert LockOk(s, l);
  }

  lemma LockInHand(s: State, c: CpuId)
    requires Inv(s) && c < |s.cpus| && (s.cpus[c].phase.Got? || s.cpus[c].phase.Cleared?)
    ensures var l := s.cpus[c].phase.l;
            l < |s.locks| && l !in Held(s, c) && s.locks[l].holder.None? && s.locks[l].bit && Owns(s, c, l)
    ensures !s.cpus[c].window.Open?
  {
    hide ThreadOk, Unadjusted;
    assert CpuOk(s, c);
    NobodyElse(s, c, s.cpus[c].phase.l);
    assert LockOk(s, s.cpus[c].phase.l);
  }

  lemma HolderStep(s: State, c: CpuId)
    requires Inv(s) && Enabled(s, AcqHolder(c))
    ensures Inv(Apply(s, AcqHolder(c)))
  {
    hide Inv, CpuOk, LockOk;
    var s', l := Apply(s, AcqHolder(c)), s.cpus[c].phase.l;
    hide Apply, Enabled;
    LockInHand(s, c);
    NobodyElse(s, c, l);
    assert Held(s', c) == Held(s, c) + {l};
    forall d | 0 <= d < |s.cpus| && d != c ensures Held(s', d) == Held(s, d) && !Owns(s', d, l) {
      assert !Owns(s, d, l);
    }
    assert CpuOk(s, c) by { At(s, c); }
    SameDebt(s, s', c, Calm);
    StillOwned(s', c, l);
    OnLock(s, s', c, l);
  }

  /** One CPU owns the lock and its word is set. */
  lemma StillOwned(s: State, c: CpuId, l: LockId)
    requires c < |s.cpus| && l < |s.locks| && Owns(s, c, l) && s.locks[l].bit
    requires s.locks[l].holder.Some? ==> s.locks[l].holder.value < |s.cpus|
    requires forall d :: 0 <= d < |s.cpus| && d != c ==> !Owns(s, d, l)
    ensures LockOk(s, l)
  {
  }

  lemma HolderOwns(s: State, c: CpuId, l: LockId)
    requires Inv(s) && c < |s.cpus| && l in Held(s, c)
    ensures s.locks[l].bit && Owns(s, c, l)
  {
    assert LockOk(s, l) && Owns(s, c, l);
  }

  lemma ClearStep(s: State, c: CpuId, l: LockId)
    requires Inv(s) && Enabled(s, RelHolder(c, l))
    ensures Inv(Apply(s, RelHolder(c, l)))
  {
    hide Inv, CpuOk, LockOk;
    var s' := Apply(s, RelHolder(c, l));
    hide Apply, Enabled;
    HolderOwns(s, c, l);
    NobodyElse(s, c, l);
    assert l in Held(s, c) && Held(s', c) == Held(s, c) - {l};
    forall d | 0 <= d < |s.cpus| && d != c ensures Held(s', d) == Held(s, d) && !Owns(s', d, l) {
      assert !Owns(s, d, l);
    }
    assert CpuOk(s, c) by { At(s, c); }
    SameDebt(s, s', c, Cleared(l));
    StillOwned(s', c, l);
    OnLock(s, s', c, l);
  }

  lemma DataStep(s: State, c: CpuId)
    requires Inv(s) && Enabled(s, RelData(c))
    ensures Inv(Apply(s, RelData(c)))
  {
    var s', l := Apply(s, RelData(c)), s.cpus[c].phase.l;
    hide Apply, Enabled, ThreadOk, Unadjusted;
    At(s, c);
    assert Owns(s, c, l);
    NobodyElse(s, c, l);
    hide Inv;
    assert l !in Held(s, c) && s.locks[l].holder.None?;
    forall d | 0 <= d < |s.cpus| ensures Held(s', d) == Held(s, d) {
    }
    forall d | 0 <= d < |s.cpus| ensures !Owns(s', d, l) {
      assert d != c ==> !Owns(s, d, l);
    }
    SameDebt(s, s', c, Freed);
    hide CpuOk;
    OnLock(s, s', c, l);
  }

  lemma NewThreadSteps(s: State, e: Step)
    requires Inv(s) && Enabled(s, e) && (e.Create? || e.Launch?)
    ensures Inv(Apply(s, e))
  {
    var s' := Apply(s, e);
    forall c | 0 <= c < |s.cpus| ensures CpuOk(s', c) {
      assert CpuOk(s, c) && Held(s', c) == Held(s, c);
    }
    forall t | t in s'.threads && !IsCurrent(s', t) ensures OffCpuOk(s', t) {
      assert !IsCurrent(s, t);
    }
    forall l | 0 <= l < |s.locks| ensures LockOk(s', l) {
      assert LockOk(s, l);
      SameOwners(s, s', l);
    }
  }

  lemma OneOrMore(held: set<LockId>, c: LockId)
    requires c in held
    ensures |held| == 1 <==> held == {c}
  {
    assert held == (held - {c}) + {c};
  }

  /** The context switch hands the run-queue lock to the incoming thread. It keeps the invariant
      exactly when that lock is the only spinlock the CPU holds, or the thread stays the same. */
  lemma SwitchExact(s: State, c: CpuId, next: Tid)
    requires Inv(s) && CanSwitch(s, c, next)
    ensures Inv(Switch(s, c, next)) <==> next == s.cpus[c].cur || Held(s, c) == {c}
  {
    var s' := Switch(s, c, next);
    OneOrMore(Held(s, c), c);
    At(s, c);
    hide Nested, Unadjusted;
    assert next != s.cpus[c].cur ==> OffCpuOk(s, next);
    assert forall d :: 0 <= d < |s.cpus| ==> Held(s', d) == Held(s, d);
    if next == s.cpus[c].cur {
      assert s' == Put(s, c, s'.cpus[c], Current(s, c));
      PutKeeps(s, c, s'.cpus[c], Current(s, c));
    } else if Held(s, c) == {c} {
      SwitchKeeps(s, c, next);
    } else {
      assert !CpuOk(s', c);
    }
  }

  lemma SwitchKeeps(s: State, c: CpuId, next: Tid)
    requires Inv(s) && CanSwitch(s, c, next) && |Held(s, c)| == 1 && next != s.cpus[c].cur
    ensures Inv(Switch(s, c, next))
  {
    hide Nested, Unadjusted;
    var s', old' := Switch(s, c, next), s.cpus[c].cur;
    At(s, c);
    assert OffCpuOk(s, next);
    forall d | 0 <= d < |s.cpus| ensures CpuOk(s', d) {
      assert Held(s', d) == Held(s, d) && CpuOk(s, d);
    }
    forall d | 0 <= d < |s.cpus| && d != c ensures s.cpus[d].cur != next {
      assert !IsCurrent(s, next);
    }
    forall t | t in s'.threads && !IsCurrent(s', t) ensures OffCpuOk(s', t) {
      if t != old' {
        forall d | 0 <= d < |s.cpus| ensures s.cpus[d].cur != t {
          assert s'.cpus[d].cur != t;
        }
      }
    }
    forall l | 0 <= l < |s.locks| ensures LockOk(s', l) {
      assert LockOk(s, l);
      SameOwners(s, s', l);
    }
  }

  lemma StepKeeps(s: State, e: Step)
    requires Inv(s) && Enabled(s, e)
    ensures Inv(Apply(s, e))
  {
    hide Inv;
    match e {
      case AcqRaise(c, l) => AcqRaiseStep(s, c, l);
      case RelLower(c) => RelLowerStep(s, c);
      case Splhigh(c) => SplhighStep(s, c);
      case SplRestore(c) => SplRestoreStep(s, c);
      case Spl0(c) => Spl0Step(s, c);
      case IntEnter(c) => IntEnterStep(s, c);
      case IntExit(c) => IntExitStep(s, c);
      case TrapEnter(c) => TrapEnterStep(s, c);
      case TrapSync(c) => TrapSyncStep(s, c);
      case TrapDone(c) => TrapDoneStep(s, c);
      case TrapReturn(c) => TrapReturnStep(s, c);
      case BeginPick(c) => BeginPickStep(s, c);
      case OpenWindow(c) => OpenWindowStep(s, c);
      case CloseWindow(c) => CloseWindowStep(s, c);
      case AcqTestAndSet(c) => TestAndSetStep(s, c);
      case AcqHolder(c) => HolderStep(s, c);
      case RelHolder(c, l) => ClearStep(s, c, l);
      case RelData(c) => DataStep(s, c);
      case Create(_) => NewThreadSteps(s, e);
      case Launch(_) => NewThreadSteps(s, e);
      case SwitchTo(c, next) => SwitchExact(s, c, next);
    }
  }

  ghost predicate IsRun(r: seq<State>, es: seq<Step>)
  {
    && |r| == |es| + 1 && Init(r[0])
    && forall i :: 0 <= i < |es| ==> Enabled(r[i], es[i]) && r[i + 1] == Apply(r[i], es[i])
  }

  lemma {:induction false} RunKeeps(r: seq<State>, es: seq<Step>, i: nat)
    requires IsRun(r, es) && i < |r|
    ensures Inv(r[i])
  {
    hide Inv, Init, Enabled, Apply;
    if i == 0 {
      InitHolds(r[0]);
    } else {
      RunKeeps(r, es, i - 1);
      StepKeeps(r[i - 1], es[i - 1]);
    }
  }

  // ---------------------------------------------------------------------------
  // What follows for every run
  // ---------------------------------------------------------------------------

  /** The moments at which the processor and the count disagree: interrupts are on with a positive
      count in cpu_idle's window, and off with count zero at the two ends of an exception. */
  predicate Apart(p: Cpu, count: int)
  {
    p.window.Open? || ((p.phase.Entering? || p.phase.Leaving?) && count == 0)
  }

  /** The count of a running thread is its spl contribution plus the spinlock releases it still
      owes. Interrupts are off exactly while it is positive, except at those moments and only then;
      a CPU that holds a spinlock always has them off. */
  lemma CountExact(r: seq<State>, es: seq<Step>, i: nat, c: CpuId)
    requires IsRun(r, es) && i < |r| && c < |r[i].cpus|
    ensures r[i].cpus[c].cur in r[i].threads
    ensures var p, t := r[i].cpus[c], r[i].threads[r[i].cpus[c].cur];
            && t.count == t.curspl + |Held(r[i], c)| + Transit(p.phase) && t.count >= 0
            && ((p.irqOff <==> t.count > 0) <==> !Apart(p, t.count))
            && (p.window.Open? ==> !p.irqOff && t.curspl == IPL_HIGH && t.count == 1)
            && (Held(r[i], c) != {} ==> p.irqOff)
  {
    hide Inv, IsRun, Nested, Unadjusted;
    RunKeeps(r, es, i);
    At(r[i], c);
    if Held(r[i], c) != {} {
      var l :| l in Held(r[i], c);
      assert |Held(r[i], c)| == |Held(r[i], c) - {l}| + 1;
    }
  }

  /** A thread that is switched out owes one release beyond its spl, whichever CPU's
      run-queue lock it turns out to be. */
  lemma SwitchedOutCount(r: seq<State>, es: seq<Step>, i: nat, t: Tid)
    requires IsRun(r, es) && i < |r| && t in r[i].threads && !IsCurrent(r[i], t)
    ensures r[i].threads[t].curspl == IPL_HIGH
    ensures r[i].threads[t].count == r[i].threads[t].curspl + if r[i].threads[t].launched then 1 else 0
  {
    RunKeeps(r, es, i);
    assert OffCpuOk(r[i], t);
  }

  /** Mutual exclusion of spinlocks across CPUs. */
  lemma SpinlockExclusive(r: seq<State>, es: seq<Step>, i: nat, c: CpuId, d: CpuId, l: LockId)
    requires IsRun(r, es) && i < |r| && c < |r[i].cpus| && d < |r[i].cpus| && l < |r[i].locks|
    requires Owns(r[i], c, l) && Owns(r[i], d, l)
    ensures c == d && r[i].locks[l].bit
  {
    RunKeeps(r, es, i);
    assert LockOk(r[i], l);
  }

  /** Between entering a handler and leaving it. */
  ghost predicate InHandler(frames: seq<Frame>) { exists k :: 0 <= k < |frames| && frames[k].Handler? }

  lemma {:induction false} HandlerIsHigh(frames: seq<Frame>, level: int)
    requires Nested(frames, level) && InHandler(frames)
    ensures level == IPL_HIGH
  {
    var n := |frames| - 1;
    if frames[n].Trap? {
      var k :| 0 <= k < |frames| && frames[k].Handler?;
      assert frames[..n][k].Handler?;
      HandlerIsHigh(frames[..n], level);
    }
  }

  lemma {:induction false} HandlerThere(frames: seq<Frame>)
    requires Unadjusted(frames) > 0
    ensures InHandler(frames)
  {
    var n := |frames| - 1;
    if frames[n] != Handler(false) {
      HandlerThere(frames[..n]);
      var k :| 0 <= k < n && frames[..n][k].Handler?;
      assert frames[k].Handler?;
    }
  }

  /** mips_trap's assertions. An interrupt is taken with the recorded level low and count zero, and
      mips_trap adjusts, or with the level high and count one in cpu_idle's window, and it does not.
      Throughout a handler, of either kind, the level is high and interrupts stay off; when it
      returns, count is one exactly if it has leaked no spinlock. */
  lemma TrapAssertions(r: seq<State>, es: seq<Step>, i: nat, c: CpuId)
    requires IsRun(r, es) && i < |r| && c < |r[i].cpus|
    ensures r[i].cpus[c].cur in r[i].threads
    ensures var p, t := r[i].cpus[c], r[i].threads[r[i].cpus[c].cur];
            && (!p.irqOff ==> p.phase.Calm? && if p.window.Open? then t.curspl == IPL_HIGH && t.count == 1
                                               else t.curspl == IPL_NONE && t.count == 0)
            && (InHandler(t.frames) ==> t.curspl == IPL_HIGH)
            && (InHandler(t.frames) && !p.window.Open? ==> p.irqOff)
            && (p.window.Handling? ==> InHandler(t.frames))
            && (p.phase.Calm? && t.curspl == IPL_HIGH ==> (t.count == 1 <==> Held(r[i], c) == {}))
  {
    hide Inv, IsRun, Nested, Unadjusted;
    RunKeeps(r, es, i);
    At(r[i], c);
    var t := r[i].threads[r[i].cpus[c].cur];
    if r[i].cpus[c].window.Handling? {
      HandlerThere(t.frames);
    }
    if InHandler(t.frames) {
      HandlerIsHigh(t.frames, t.curspl);
    }
  }

  // ---------------------------------------------------------------------------
  // Two runs
  // ---------------------------------------------------------------------------

  function OneCpu(p: Cpu, t: Thread, k: Lock): State { State([p], map[0 := t], [k]) }

  lemma OneHeld(p: Cpu, t: Thread, k: Lock)
    ensures Held(OneCpu(p, t, k), 0) == if k.holder == Some(0) then {0} else {}
  {
  }

  function IdleStates(): (r: seq<State>)
    ensures |r| == 10
  {
    var p, t, k := Cpu(0, true, Calm, false, Shut), Thread(IPL_HIGH, 1, true, []), Lock(false, None);
    var idle := p.(isidle := true);
    [OneCpu(p, t, k),
     OneCpu(p.(phase := Raised(0)), t.(count := 2), k),
     OneCpu(p.(phase := Got(0)), t.(count := 2), Lock(true, None)),
     OneCpu(p, t.(count := 2), Lock(true, Some(0))),
     OneCpu(idle, t.(count := 2), Lock(true, Some(0))),
     OneCpu(idle.(phase := Cleared(0)), t.(count := 2), Lock(true, None)),
     OneCpu(idle.(phase := Freed), t.(count := 2), k),
     OneCpu(idle, t, k),
     OneCpu(idle.(irqOff := false, window := Open), t, k),
     OneCpu(idle.(window := Handling), t.(frames := [Handler(false)]), k)]
  }

  function IdleSteps(): (es: seq<Step>)
    ensures |es| == 9
  {
    [AcqRaise(0, 0), AcqTestAndSet(0), AcqHolder(0), BeginPick(0), RelHolder(0, 0), RelData(0), RelLower(0),
     OpenWindow(0), IntEnter(0)]
  }

  lemma IdleRaiseStep(i: nat)
    requires i < 2
    ensures Enabled(IdleStates()[i], IdleSteps()[i]) && Apply(IdleStates()[i], IdleSteps()[i]) == IdleStates()[i + 1]
  {
    var s := IdleStates()[i];
    OneHeld(s.cpus[0], s.threads[0], s.locks[0]);
    var s', n := Apply(s, IdleSteps()[i]), IdleStates()[i + 1];
    assert s'.cpus == n.cpus && s'.threads == n.threads && s'.locks == n.locks;
  }

  lemma IdleLockStep(i: nat)
    requires 2 <= i < 4
    ensures Enabled(IdleStates()[i], IdleSteps()[i]) && Apply(IdleStates()[i], IdleSteps()[i]) == IdleStates()[i + 1]
  {
    var s := IdleStates()[i];
    OneHeld(s.cpus[0], s.threads[0], s.locks[0]);
    var s', n := Apply(s, IdleSteps()[i]), IdleStates()[i + 1];
    assert s'.cpus == n.cpus && s'.threads == n.threads && s'.locks == n.locks;
  }

  lemma IdleUnlockStep(i: nat)
    requires 4 <= i < 7
    ensures Enabled(IdleStates()[i], IdleSteps()[i]) && Apply(IdleStates()[i], IdleSteps()[i]) == IdleStates()[i + 1]
  {
    var s := IdleStates()[i];
    OneHeld(s.cpus[0], s.threads[0], s.locks[0]);
    var s', n := Apply(s, IdleSteps()[i]), IdleStates()[i + 1];
    assert s'.cpus == n.cpus && s'.threads == n.threads && s'.locks == n.locks;
  }

  lemma IdleWindowStep(i: nat)
    requires 7 <= i < 9
    ensures Enabled(IdleStates()[i], IdleSteps()[i]) && Apply(IdleStates()[i], IdleSteps()[i]) == IdleStates()[i + 1]
  {
    var s := IdleStates()[i];
    OneHeld(s.cpus[0], s.threads[0], s.locks[0]);
    var s', n := Apply(s, IdleSteps()[i]), IdleStates()[i + 1];
    assert s.threads[0].frames + [Handler(false)] == [Handler(false)];
    assert s'.cpus == n.cpus && s'.threads == n.threads && s'.locks == n.locks;
  }

  lemma IdleBoots()
    ensures Init(IdleStates()[0])
  {
    var s := IdleStates()[0];
    assert s.cpus[0].cur == 0;
    assert IsCurrent(s, 0);
  }

  lemma IdleTaken(i: nat)
    requires i < 9
    ensures Enabled(IdleStates()[i], IdleSteps()[i]) && Apply(IdleStates()[i], IdleSteps()[i]) == IdleStates()[i + 1]
  {
    hide Apply, Enabled;
    if i < 2 {
      IdleRaiseStep(i);
    } else if i < 4 {
      IdleLockStep(i);
    } else if i < 7 {
      IdleUnlockStep(i);
    } else {
      IdleWindowStep(i);
    }
  }

  /** A CPU that finds nothing to run comes to have interrupts on with spl high and count one, and
      takes an interrupt there. */
  lemma WindowReached() returns (r: seq<State>, es: seq<Step>)
    ensures IsRun(r, es) && |r| == 10
    ensures |r[8].cpus| == 1 && !r[8].cpus[0].irqOff && r[8].cpus[0].cur in r[8].threads
    ensures Current(r[8], 0).curspl == IPL_HIGH && Current(r[8], 0).count == 1
    ensures |r[9].cpus| == 1 && r[9].cpus[0].window.Handling? && r[9].cpus[0].irqOff
  {
    r, es := IdleStates(), IdleSteps();
    IdleBoots();
    hide Apply, Enabled;
    forall i | 0 <= i < |es| ensures Enabled(r[i], es[i]) && r[i + 1] == Apply(r[i], es[i]) {
      IdleTaken(i);
    }
  }

  function TwoLocks(p: Cpu, t: Thread, u: Thread, k: Lock, m: Lock): State { State([p], map[0 := t, 1 := u], [k, m]) }

  lemma TwoHeld(p: Cpu, t: Thread, u: Thread, k: Lock, m: Lock)
    ensures Held(TwoLocks(p, t, u, k, m), 0) ==
            (if k.holder == Some(0) then {0} else {}) + (if m.holder == Some(0) then {1} else {})
  {
  }

  /** Thread 0 acquires lock 1 and then enters thread_switch, with thread 1 waiting to run. */
  function TwoLockStates(): (r: seq<State>)
    ensures |r| == 10
  {
    var p, t, u := Cpu(0, true, Calm, false, Shut), Thread(IPL_HIGH, 1, true, []), Thread(IPL_HIGH, 2, true, []);
    var free, got, mine := Lock(false, None), Lock(true, None), Lock(true, Some(0));
    [State([p], map[0 := t], [free, free]),
     TwoLocks(p, t, Thread(IPL_HIGH, 1, false, []), free, free),
     TwoLocks(p, t, u, free, free),
     TwoLocks(p.(phase := Raised(1)), t.(count := 2), u, free, free),
     TwoLocks(p.(phase := Got(1)), t.(count := 2), u, free, got),
     TwoLocks(p, t.(count := 2), u, free, mine),
     TwoLocks(p.(phase := Raised(0)), t.(count := 3), u, free, mine),
     TwoLocks(p.(phase := Got(0)), t.(count := 3), u, got, mine),
     TwoLocks(p, t.(count := 3), u, mine, mine),
     TwoLocks(p.(isidle := true), t.(count := 3), u, mine, mine)]
  }

  function TwoLockSteps(): (es: seq<Step>)
    ensures |es| == 9
  {
    [Create(1), Launch(1), AcqRaise(0, 1), AcqTestAndSet(0), AcqHolder(0), AcqRaise(0, 0), AcqTestAndSet(0),
     AcqHolder(0), BeginPick(0)]
  }

  lemma TwoLockStep(i: nat)
    requires i < 3
    ensures var s, e := TwoLockStates()[i], TwoLockSteps()[i]; Enabled(s, e) && Apply(s, e) == TwoLockStates()[i + 1]
  {
    var s := TwoLockStates()[i];
    var s', n := Apply(s, TwoLockSteps()[i]), TwoLockStates()[i + 1];
    assert s'.cpus == n.cpus && s'.threads == n.threads && s'.locks == n.locks;
  }

  lemma TwoLockStep3(i: nat)
    requires 3 <= i < 6
    ensures var s, e := TwoLockStates()[i], TwoLockSteps()[i]; Enabled(s, e) && Apply(s, e) == TwoLockStates()[i + 1]
  {
    var s := TwoLockStates()[i];
    var s', n := Apply(s, TwoLockSteps()[i]), TwoLockStates()[i + 1];
    assert s'.cpus == n.cpus && s'.threads == n.threads && s'.locks == n.locks;
  }

  lemma TwoLockStep6(i: nat)
    requires 6 <= i < 9
    ensures var s, e := TwoLockStates()[i], TwoLockSteps()[i]; Enabled(s, e) && Apply(s, e) == TwoLockStates()[i + 1]
  {
    var s := TwoLockStates()[i];
    TwoHeld(s.cpus[0], s.threads[0], s.threads[1], s.locks[0], s.locks[1]);
    var s', n := Apply(s, TwoLockSteps()[i]), TwoLockStates()[i + 1];
    assert s'.cpus == n.cpus && s'.threads == n.threads && s'.locks == n.locks;
  }

  /** Switching while another spinlock is held too breaks the count: a run gets there. */
  lemma SwitchWithTwoLocks() returns (r: seq<State>, es: seq<Step>)
    ensures IsRun(r, es) && |r| == 10 && |r[9].cpus| == 1
    ensures Held(r[9], 0) == {0, 1} && CanSwitch(r[9], 0, 1) && !Inv(Switch(r[9], 0, 1))
  {
    r, es := TwoLockStates(), TwoLockSteps();
    assert r[0].cpus[0].cur == 0;
    assert IsCurrent(r[0], 0);
    var s := r[9];
    TwoHeld(s.cpus[0], s.threads[0], s.threads[1], s.locks[0], s.locks[1]);
    assert CanSwitch(s, 0, 1);
    hide Apply, Enabled, Inv;
    forall i | 0 <= i < |es| ensures Enabled(r[i], es[i]) && r[i + 1] == Apply(r[i], es[i]) {
      if i < 3 {
        TwoLockStep(i);
      } else if i < 6 {
        TwoLockStep3(i);
      } else {
        TwoLockStep6(i);
      }
    }
    RunKeeps(r, es, 9);
    SwitchExact(s, 0, 1);
    assert 1 in {0, 1} && 1 !in {0};
  }
}
