/** The multi-CPU thread system of thread.c as a step system: run queues, wait channels,
    zombies, idle CPUs whose current thread is stale, wakeups, forks and migration.
    Every step is at most one critical section, so all interleavings of CPUs, wakers,
    forkers and migrators are covered. */
module Threads {
  import opened Basics
  import opened Places

  type Tid = nat
  type CpuId = nat
  type Chan = nat

  datatype ThreadState = S_RUN | S_READY | S_SLEEP | S_ZOMBIE

  /** What thread_switch was asked to do with the current thread. */
  datatype Request = Yield | SleepOn(wc: Chan) | Exit

  function NewState(r: Request): ThreadState
  {
    match r
    case Yield => S_READY
    case SleepOn(_) => S_SLEEP
    case Exit => S_ZOMBIE
  }

  /** Where a CPU is: running a thread, or at some point of thread_switch. */
  datatype Pc =
    | Running             // thread code or an interrupt handler on top of it
    | Locked(r: Request)  // run-queue lock taken, current thread not yet put away
    | Placed(r: Request)  // put away, t_state not yet written
    | Picking             // c_isidle set, about to take from the run queue
    | Idling              // run queue was empty: lock dropped, in cpu_idle
    | Picked(next: Tid)   // next removed from the run queue
    | Chosen(next: Tid)   // c_curthread is next, still on the old stack
    | Switched            // on next's stack, t_state not yet written
    | Unlocking           // t_state is S_RUN, run-queue lock still held
    | Exorcising          // lock released, draining c_zombies

  datatype Cpu = Cpu(pc: Pc, cur: Tid, stack: Tid, isidle: bool, locked: bool, migrating: bool,
                     runq: seq<Tid>, zombies: seq<Tid>, victims: seq<Tid>)

  /** A thread in the hands of a waker or forker; `aim` is the CPU it read from t_cpu. */
  datatype Held = Held(t: Tid, aim: Option<CpuId>, newborn: bool)

  datatype State = State(cpus: seq<Cpu>, tcpu: map<Tid, CpuId>, tstate: map<Tid, ThreadState>,
                         chans: seq<seq<Tid>>, hands: seq<Held>)

  // ---------------------------------------------------------------------------
  // Steps
  // ---------------------------------------------------------------------------

  datatype Step =
    | SwLock(c: CpuId, r: Request)
    | SwNothing(c: CpuId)
    | SwPlace(c: CpuId)
    | SwState(c: CpuId)
    | PickSome(c: CpuId)
    | PickNone(c: CpuId)
    | Unidle(c: CpuId)
    | Choose(c: CpuId)
    | SwitchFrame(c: CpuId)
    | SetRun(c: CpuId)
    | Unlock(c: CpuId)
    | ExorciseOne(c: CpuId)
    | ExorciseDone(c: CpuId)
    | Fork(c: CpuId, t: Tid)
    | ForkFail(h: nat)
    | WakeOne(wc: Chan)
    | WakeAll(wc: Chan)
    | Aim(h: nat)
    | MakeRunnable(h: nat)
    | MigCollect(c: CpuId, k: nat)
    | MigSend(c: CpuId, d: CpuId)
    | MigReturn(c: CpuId)
    | MigDone(c: CpuId)

  /** A CPU that may call into the thread system from thread code. */
  predicate Free(s: State, c: CpuId)
  {
    c < |s.cpus| && s.cpus[c].pc.Running? && !s.cpus[c].migrating
  }

  predicate At(s: State, c: CpuId, pc: Pc)
  {
    c < |s.cpus| && s.cpus[c].pc == pc
  }

  predicate CanPlace(s: State, c: CpuId)
  {
    && c < |s.cpus| && s.cpus[c].pc.Locked?
    && (s.cpus[c].pc.r.Yield? ==> s.cpus[c].runq != [])
    && (s.cpus[c].pc.r.SleepOn? ==> s.cpus[c].pc.r.wc < |s.chans|)
  }

  predicate CanSend(s: State, c: CpuId, d: CpuId)
  {
    && c < |s.cpus| && s.cpus[c].migrating && s.cpus[c].victims != []
    && d < |s.cpus| && d != c && !s.cpus[d].locked
  }

  predicate Enabled(s: State, e: Step)
  {
    match e
    case SwLock(c, r) => Free(s, c) && (r.SleepOn? ==> r.wc < |s.chans|)
    case SwNothing(c) => At(s, c, Locked(Yield)) && s.cpus[c].runq == []
    case SwPlace(c) => CanPlace(s, c)
    case SwState(c) => c < |s.cpus| && s.cpus[c].pc.Placed?
    case PickSome(c) => At(s, c, Picking) && s.cpus[c].runq != []
    case PickNone(c) => At(s, c, Picking) && s.cpus[c].runq == []
    case Unidle(c) => At(s, c, Idling) && !s.cpus[c].migrating
    case Choose(c) => c < |s.cpus| && s.cpus[c].pc.Picked?
    case SwitchFrame(c) => c < |s.cpus| && s.cpus[c].pc.Chosen?
    case SetRun(c) => At(s, c, Switched)
    case Unlock(c) => At(s, c, Unlocking)
    case ExorciseOne(c) => At(s, c, Exorcising) && s.cpus[c].zombies != []
    case ExorciseDone(c) => At(s, c, Exorcising) && s.cpus[c].zombies == []
    case Fork(c, t) => Free(s, c) && s.cpus[c].cur in s.tcpu && t !in s.tcpu
    case ForkFail(h) => h < |s.hands| && s.hands[h].newborn && s.hands[h].aim.None?
    case WakeOne(wc) => wc < |s.chans| && s.chans[wc] != []
    case WakeAll(wc) => wc < |s.chans|
    case Aim(h) => h < |s.hands| && s.hands[h].aim.None? && s.hands[h].t in s.tcpu
    case MakeRunnable(h) =>
      && h < |s.hands| && s.hands[h].aim.Some?
      && s.hands[h].aim.value < |s.cpus| && !s.cpus[s.hands[h].aim.value].locked
    case MigCollect(c, k) =>
      && (Free(s, c) || (At(s, c, Idling) && !s.cpus[c].migrating))
      && k <= |s.cpus[c].runq|
    case MigSend(c, d) => CanSend(s, c, d)
    case MigReturn(c) => c < |s.cpus| && s.cpus[c].migrating && s.cpus[c].victims != []
    case MigDone(c) => c < |s.cpus| && s.cpus[c].migrating && s.cpus[c].victims == []
  }

  /** Replaces CPU `c`. */
  function Put(s: State, c: CpuId, x: Cpu): State
    requires c < |s.cpus|
  {
    s.(cpus := s.cpus[c := x])
  }

  function Apply(s: State, e: Step): State
    requires Enabled(s, e)
  {
    match e
    case SwLock(c, r) => Put(s, c, s.cpus[c].(pc := Locked(r), locked := true))
    case SwNothing(c) => Put(s, c, s.cpus[c].(pc := Running, locked := false))
    case SwPlace(c) => PlaceCurrent(s, c)
    case SwState(c) =>
      var p := s.cpus[c];
      Put(s, c, p.(pc := Picking, isidle := true)).(tstate := s.tstate[p.cur := NewState(p.pc.r)])
    case PickSome(c) =>
      var p := s.cpus[c];
      Put(s, c, p.(pc := Picked(p.runq[0]), runq := p.runq[1..]))
    case PickNone(c) => Put(s, c, s.cpus[c].(pc := Idling, locked := false))
    case Unidle(c) => Put(s, c, s.cpus[c].(pc := Picking, locked := true))
    case Choose(c) =>
      var p := s.cpus[c];
      Put(s, c, p.(pc := Chosen(p.pc.next), isidle := false, cur := p.pc.next))
    case SwitchFrame(c) =>
      var p := s.cpus[c];
      Put(s, c, p.(pc := Switched, stack := p.pc.next))
    case SetRun(c) =>
      var p := s.cpus[c];
      Put(s, c, p.(pc := Unlocking)).(tstate := s.tstate[p.cur := S_RUN])
    case Unlock(c) => Put(s, c, s.cpus[c].(pc := Exorcising, locked := false))
    case ExorciseOne(c) =>
      var p := s.cpus[c];
      Destroy(Put(s, c, p.(zombies := p.zombies[1..])), p.zombies[0])
    case ExorciseDone(c) => Put(s, c, s.cpus[c].(pc := Running))
    case Fork(c, t) =>
      s.(tcpu := s.tcpu[t := s.tcpu[s.cpus[c].cur]], tstate := s.tstate[t := S_READY],
         hands := s.hands + [Held(t, None, true)])
    case ForkFail(h) => Destroy(s.(hands := s.hands[..h] + s.hands[h + 1..]), s.hands[h].t)
    case WakeOne(wc) =>
      s.(chans := s.chans[wc := s.chans[wc][1..]], hands := s.hands + [Held(s.chans[wc][0], None, false)])
    case WakeAll(wc) =>
      s.(chans := s.chans[wc := []], hands := s.hands + Grabbed(s.chans[wc]))
    case Aim(h) => s.(hands := s.hands[h := s.hands[h].(aim := Some(s.tcpu[s.hands[h].t]))])
    case MakeRunnable(h) =>
      var d := s.hands[h].aim.value;
      var p := s.cpus[d];
      Put(s, d, p.(runq := p.runq + [s.hands[h].t])).(hands := s.hands[..h] + s.hands[h + 1..])
    case MigCollect(c, k) =>
      var p := s.cpus[c];
      Put(s, c, p.(migrating := true, runq := p.runq[..|p.runq| - k],
                   victims := p.runq[|p.runq| - k..] + p.victims))
    case MigSend(c, d) => SendVictim(s, c, d)
    case MigReturn(c) =>
      var p := s.cpus[c];
      Put(s, c, p.(runq := p.runq + [p.victims[0]], victims := p.victims[1..]))
    case MigDone(c) => Put(s, c, s.cpus[c].(migrating := false))
  }

  /** The switch statement of thread_switch: queue the current thread where it belongs. */
  function PlaceCurrent(s: State, c: CpuId): State
    requires CanPlace(s, c)
  {
    var p := s.cpus[c];
    var q := p.(pc := Placed(p.pc.r));
    match p.pc.r
    case Yield => Put(s, c, q.(runq := p.runq + [p.cur]))
    case SleepOn(wc) => Put(s, c, q).(chans := s.chans[wc := s.chans[wc] + [p.cur]])
    case Exit => Put(s, c, q.(zombies := p.zombies + [p.cur]))
  }

  /** The body of the migration loop: skip the current thread, move any other. */
  function SendVictim(s: State, c: CpuId, d: CpuId): State
    requires CanSend(s, c, d)
  {
    var p := s.cpus[c];
    var t := p.victims[0];
    if t == p.cur then
      Put(s, c, p.(victims := p.victims[1..] + [t]))
    else
      var s1 := Put(s, c, p.(victims := p.victims[1..]));
      Put(s1, d, s.cpus[d].(runq := s.cpus[d].runq + [t])).(tcpu := s.tcpu[t := d])
  }

  function Destroy(s: State, t: Tid): State
  {
    s.(tcpu := s.tcpu - {t}, tstate := s.tstate - {t})
  }

  function Grabbed(ts: seq<Tid>): (hs: seq<Held>)
    ensures |hs| == |ts| && forall i :: 0 <= i < |ts| ==> hs[i] == Held(ts[i], None, false)
  {
    if |ts| == 0 then [] else Grabbed(ts[..|ts| - 1]) + [Held(ts[|ts| - 1], None, false)]
  }

  // ---------------------------------------------------------------------------
  // The invariant
  // ---------------------------------------------------------------------------

  /** The thread a CPU holds outside every list. */
  function Owned(p: Cpu): multiset<Tid>
  {
    match p.pc
    case Placed(_) => multiset{}
    case Picking => multiset{}
    case Idling => multiset{}
    case Picked(next) => multiset{next}
    case Chosen(next) => multiset{next}
    case _ => multiset{p.cur}
  }

  function CpuPlaces(p: Cpu): multiset<Tid>
  {
    Owned(p) + multiset(p.runq) + multiset(p.zombies) + multiset(p.victims)
  }

  function CpuBags(cpus: seq<Cpu>): seq<Bag>
  {
    seq(|cpus|, i requires 0 <= i < |cpus| => CpuPlaces(cpus[i]))
  }

  function ChanBags(chans: seq<seq<Tid>>): seq<Bag>
  {
    seq(|chans|, i requires 0 <= i < |chans| => multiset(chans[i]))
  }

  function HeldThreads(hands: seq<Held>): seq<Tid>
  {
    seq(|hands|, i requires 0 <= i < |hands| => hands[i].t)
  }

  /** Every place a thread can be, with multiplicity. */
  function AllPlaces(s: State): Bag
  {
    Sum(CpuBags(s.cpus)) + Sum(ChanBags(s.chans)) + multiset(HeldThreads(s.hands))
  }

  ghost predicate Mine(tcpu: map<Tid, CpuId>, c: CpuId, ts: seq<Tid>)
  {
    forall i :: 0 <= i < |ts| ==> ts[i] in tcpu && tcpu[ts[i]] == c
  }

  ghost predicate On(tcpu: map<Tid, CpuId>, c: CpuId, t: Tid)
  {
    t in tcpu && tcpu[t] == c
  }

  /** What holds of each CPU: everything it touches has it as t_cpu. */
  ghost predicate CpuOk(s: State, c: CpuId)
    requires c < |s.cpus|
  {
    var p := s.cpus[c];
    && On(s.tcpu, c, p.cur) && On(s.tcpu, c, p.stack)
    && Mine(s.tcpu, c, p.runq) && Mine(s.tcpu, c, p.zombies) && Mine(s.tcpu, c, p.victims)
    && (p.pc.Picked? ==> On(s.tcpu, c, p.pc.next))
    && (if p.pc.Chosen? then p.cur == p.pc.next else p.stack == p.cur)
    && (p.isidle <==> p.pc.Picking? || p.pc.Idling? || p.pc.Picked?)
    && (p.locked <==> !(p.pc.Running? || p.pc.Idling? || p.pc.Exorcising?))
    && (p.migrating ==> p.pc.Running? || p.pc.Idling?)
    && (p.victims != [] ==> p.migrating)
  }

  /** Zombies are marked as such, except in the instant before t_state is written. */
  ghost predicate ZombiesMarked(s: State, c: CpuId)
    requires c < |s.cpus|
  {
    var p := s.cpus[c];
    && (forall i :: 0 <= i < |p.zombies| ==>
          p.zombies[i] in s.tstate &&
          (s.tstate[p.zombies[i]] == S_ZOMBIE || (p.pc == Placed(Exit) && p.zombies[i] == p.cur)))
    && (p.pc.Placed? && !p.pc.r.Exit? ==> p.cur !in p.zombies)
  }

  ghost predicate Inv(s: State)
  {
    && s.tcpu.Keys == s.tstate.Keys
    && AllPlaces(s) == multiset(s.tcpu.Keys)
    && (forall t :: t in s.tcpu ==> s.tcpu[t] < |s.cpus|)
    && (forall c :: 0 <= c < |s.cpus| ==> CpuOk(s, c))
    && (forall c :: 0 <= c < |s.cpus| ==> ZombiesMarked(s, c))
    && (forall h :: 0 <= h < |s.hands| ==> HandOk(s, s.hands[h]))
  }

  /** A held thread's t_cpu cannot have changed since it was read; a newborn has never run. */
  ghost predicate HandOk(s: State, h: Held)
  {
    && (h.aim.Some? ==> On(s.tcpu, h.aim.value, h.t))
    && (h.newborn ==> forall c :: 0 <= c < |s.cpus| ==> s.cpus[c].cur != h.t && s.cpus[c].stack != h.t)
  }

  /** Boot: every CPU runs its own boot thread, all queues are empty. */
  ghost predicate Init(s: State)
  {
    && |s.cpus| > 0
    && (forall c :: 0 <= c < |s.cpus| ==>
          s.cpus[c] == Cpu(Running, s.cpus[c].cur, s.cpus[c].cur, false, false, false, [], [], []))
    && (forall c, d :: 0 <= c < d < |s.cpus| ==> s.cpus[c].cur != s.cpus[d].cur)
    && s.tcpu.Keys == s.tstate.Keys == (set c | 0 <= c < |s.cpus| :: s.cpus[c].cur)
    && (forall c :: 0 <= c < |s.cpus| ==> s.tcpu[s.cpus[c].cur] == c)
    && (forall w :: 0 <= w < |s.chans| ==> s.chans[w] == [])
    && s.hands == []
  }
}
