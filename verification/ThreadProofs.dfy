/** Every step of the thread system keeps its invariant; what follows for every run. */
module ThreadProofs {
  import opened Basics
  import opened Places
  import opened Threads

  // ---------------------------------------------------------------------------
  // Counting
  // ---------------------------------------------------------------------------

  lemma CpuSumUpdate(cpus: seq<Cpu>, c: CpuId, x: Cpu)
    requires c < |cpus|
    ensures Sum(CpuBags(cpus[c := x])) + CpuPlaces(cpus[c]) == Sum(CpuBags(cpus)) + CpuPlaces(x)
  {
    SumUpdate(CpuBags(cpus), c, CpuPlaces(x));
    assert CpuBags(cpus[c := x]) == CpuBags(cpus)[c := CpuPlaces(x)];
  }

  lemma ChanSumUpdate(chans: seq<seq<Tid>>, w: Chan, q: seq<Tid>)
    requires w < |chans|
    ensures Sum(ChanBags(chans[w := q])) + multiset(chans[w]) == Sum(ChanBags(chans)) + multiset(q)
  {
    SumUpdate(ChanBags(chans), w, multiset(q));
    assert ChanBags(chans[w := q]) == ChanBags(chans)[w := multiset(q)];
  }

  lemma CpuHas(s: State, c: CpuId)
    requires c < |s.cpus|
    ensures CpuPlaces(s.cpus[c]) <= Sum(CpuBags(s.cpus))
  {
    SumSplit(CpuBags(s.cpus), c);
  }

  /** Each thread is counted at most once, in all and on any one CPU. */
  lemma CountedOnce(s: State, c: CpuId, t: Tid)
    requires Inv(s) && c < |s.cpus|
    ensures AllPlaces(s)[t] <= 1 && CpuPlaces(s.cpus[c])[t] <= 1
  {
    CpuHas(s, c);
    assert multiset(s.tcpu.Keys)[t] <= 1;
  }

  /** A thread on a CPU's lists is in the table and in nobody's hands. */
  lemma HandsApart(s: State, c: CpuId, h: nat)
    requires Inv(s) && c < |s.cpus| && h < |s.hands|
    ensures s.hands[h].t !in CpuPlaces(s.cpus[c]) && s.hands[h].t in s.tcpu
  {
    var t := s.hands[h].t;
    assert HeldThreads(s.hands)[h] == t;
    CpuHas(s, c);
    hide CpuPlaces, Sum;
    assert t in AllPlaces(s);
    assert multiset(s.tcpu.Keys)[t] == 1;
    assert AllPlaces(s)[t] >= CpuPlaces(s.cpus[c])[t] + multiset(HeldThreads(s.hands))[t];
  }

  /** The thread a CPU owns is on none of its lists. */
  lemma OwnedApart(s: State, c: CpuId, t: Tid)
    requires Inv(s) && c < |s.cpus| && t in Owned(s.cpus[c])
    ensures t !in s.cpus[c].runq && t !in s.cpus[c].zombies && t !in s.cpus[c].victims
  {
    var p := s.cpus[c];
    CountedOnce(s, c, t);
    assert multiset(p.runq)[t] == 0 && multiset(p.zombies)[t] == 0 && multiset(p.victims)[t] == 0;
  }

  // ---------------------------------------------------------------------------
  // Steps that rewrite one CPU
  // ---------------------------------------------------------------------------

  /** A CPU only ever turns to a thread it holds. */
  ghost predicate Known(p: Cpu, x: Cpu)
  {
    && (x.cur == p.cur || x.cur in CpuPlaces(p))
    && (x.stack == p.stack || x.stack in CpuPlaces(p))
  }

  /** A step that rewrites one CPU and the states of its own threads, keeping what it holds. */
  lemma OneCpu(s: State, c: CpuId, x: Cpu, ts: map<Tid, ThreadState>)
    requires Inv(s) && c < |s.cpus| && ts.Keys == s.tstate.Keys
    requires forall t :: t in ts && ts[t] != s.tstate[t] ==> s.tcpu[t] == c
    requires CpuPlaces(x) == CpuPlaces(s.cpus[c]) && Known(s.cpus[c], x)
    requires CpuOk(Put(s, c, x).(tstate := ts), c) && ZombiesMarked(Put(s, c, x).(tstate := ts), c)
    ensures Inv(Put(s, c, x).(tstate := ts))
  {
    hide CpuPlaces;
    var s' := Put(s, c, x).(tstate := ts);
    CpuSumUpdate(s.cpus, c, x);
    assert Sum(CpuBags(s'.cpus)) == Sum(CpuBags(s.cpus)) by {
      Moved(Sum(CpuBags(s'.cpus)), CpuPlaces(x), Sum(CpuBags(s.cpus)), CpuPlaces(x), multiset{});
    }
    forall d | 0 <= d < |s'.cpus| ensures CpuOk(s', d) && ZombiesMarked(s', d) {
      if d != c {
        assert CpuOk(s, d) && ZombiesMarked(s, d);
      }
    }
    forall h | 0 <= h < |s.hands| ensures HandOk(s', s.hands[h]) {
      HandsApart(s, c, h);
      assert HandOk(s, s.hands[h]);
    }
  }

  lemma InvAt(s: State, c: CpuId)
    requires Inv(s) && c < |s.cpus|
    ensures CpuOk(s, c) && ZombiesMarked(s, c) && s.tcpu.Keys == s.tstate.Keys
    ensures forall t :: t in s.tcpu ==> s.tcpu[t] < |s.cpus|
  {
  }

  /** Assembling the invariant after a step at CPU `c`. */
  lemma InvIntro(s: State, c: CpuId)
    requires c < |s.cpus| && s.tcpu.Keys == s.tstate.Keys && AllPlaces(s) == multiset(s.tcpu.Keys)
    requires forall t :: t in s.tcpu ==> s.tcpu[t] < |s.cpus|
    requires CpuOk(s, c) && ZombiesMarked(s, c)
    requires forall d :: 0 <= d < |s.cpus| && d != c ==> CpuOk(s, d) && ZombiesMarked(s, d)
    requires forall h :: 0 <= h < |s.hands| ==> HandOk(s, s.hands[h])
    ensures Inv(s)
  {
  }

  lemma PlacesAre(s: State)
    requires Inv(s)
    ensures AllPlaces(s) == multiset(s.tcpu.Keys)
  {
  }

  /** Held threads stay in order when t_cpu, c_curthread and the stacks in use do. */
  lemma SameHands(s: State, s': State, k: nat)
    requires Inv(s) && |s'.cpus| == |s.cpus| && k <= |s.hands| && k <= |s'.hands|
    requires forall t :: t in s.tcpu ==> t in s'.tcpu && s'.tcpu[t] == s.tcpu[t]
    requires forall d :: 0 <= d < |s.cpus| ==> s'.cpus[d].cur == s.cpus[d].cur && s'.cpus[d].stack == s.cpus[d].stack
    requires s'.hands[..k] == s.hands[..k]
    ensures forall h :: 0 <= h < k ==> HandOk(s', s'.hands[h])
  {
    forall h | 0 <= h < k ensures HandOk(s', s'.hands[h]) {
      assert s'.hands[..k][h] == s.hands[..k][h];
      assert HandOk(s, s.hands[h]);
    }
  }

  /** The common case: only the CPU record changes. */
  lemma JustCpu(s: State, c: CpuId, x: Cpu)
    requires Inv(s) && c < |s.cpus|
    requires CpuPlaces(x) == CpuPlaces(s.cpus[c]) && Known(s.cpus[c], x)
    requires CpuOk(Put(s, c, x), c) && ZombiesMarked(Put(s, c, x), c)
    ensures Inv(Put(s, c, x))
  {
    hide Inv, CpuPlaces, CpuOk, ZombiesMarked;
    assert s.tcpu.Keys == s.tstate.Keys by { InvAt(s, c); }
    assert Put(s, c, x) == Put(s, c, x).(tstate := s.tstate);
    OneCpu(s, c, x, s.tstate);
  }

  /** Steps between points at which the CPU holds the same thread (or none). */
  lemma LockStep(s: State, c: CpuId, pc: Pc, locked: bool)
    requires Inv(s) && c < |s.cpus|
    requires var q := s.cpus[c].pc;
             || (q == Running && pc.Locked? && locked && !s.cpus[c].migrating)
             || (q == Locked(Yield) && pc == Running && !locked)
             || (q == Picking && pc == Idling && !locked)
             || (q == Idling && pc == Picking && locked && !s.cpus[c].migrating)
             || (q == Unlocking && pc == Exorcising && !locked)
             || (q == Exorcising && pc == Running && !locked)
    ensures Inv(Put(s, c, s.cpus[c].(pc := pc, locked := locked)))
  {
    hide Inv;
    InvAt(s, c);
    var x := s.cpus[c].(pc := pc, locked := locked);
    SameOwned(s.cpus[c], x);
    hide CpuPlaces, Owned;
    JustCpu(s, c, x);
  }

  lemma SameOwned(p: Cpu, x: Cpu)
    requires Owned(p) == Owned(x) && p.runq == x.runq && p.zombies == x.zombies && p.victims == x.victims
    ensures CpuPlaces(p) == CpuPlaces(x)
  {
  }

  lemma PickStep(s: State, c: CpuId)
    requires Inv(s) && At(s, c, Picking) && s.cpus[c].runq != []
    ensures var p := s.cpus[c]; Inv(Put(s, c, p.(pc := Picked(p.runq[0]), runq := p.runq[1..])))
  {
    hide Inv, CpuPlaces;
    InvAt(s, c);
    var p := s.cpus[c];
    var x := p.(pc := Picked(p.runq[0]), runq := p.runq[1..]);
    PickPlaces(p, x);
    hide CpuPlaces;
    JustCpu(s, c, x);
  }

  lemma PickPlaces(p: Cpu, x: Cpu)
    requires p.pc == Picking && p.runq != [] && x == p.(pc := Picked(p.runq[0]), runq := p.runq[1..])
    ensures CpuPlaces(x) == CpuPlaces(p)
  {
    assert p.runq == [p.runq[0]] + p.runq[1..];
  }

  lemma ChooseStep(s: State, c: CpuId)
    requires Inv(s) && c < |s.cpus| && s.cpus[c].pc.Picked?
    ensures var p := s.cpus[c]; Inv(Put(s, c, p.(pc := Chosen(p.pc.next), isidle := false, cur := p.pc.next)))
  {
    hide Inv;
    InvAt(s, c);
    var p := s.cpus[c];
    var x := p.(pc := Chosen(p.pc.next), isidle := false, cur := p.pc.next);
    SameOwned(p, x);
    hide CpuPlaces;
    JustCpu(s, c, x);
  }

  lemma SwitchStep(s: State, c: CpuId)
    requires Inv(s) && c < |s.cpus| && s.cpus[c].pc.Chosen?
    ensures var p := s.cpus[c]; Inv(Put(s, c, p.(pc := Switched, stack := p.pc.next)))
  {
    hide Inv;
    InvAt(s, c);
    var p := s.cpus[c];
    var x := p.(pc := Switched, stack := p.pc.next);
    SameOwned(p, x);
    hide CpuPlaces;
    JustCpu(s, c, x);
  }

  /** t_state is written while the run-queue lock keeps the thread from running elsewhere. */
  lemma StateStep(s: State, c: CpuId)
    requires Inv(s) && c < |s.cpus| && s.cpus[c].pc.Placed?
    ensures var p := s.cpus[c];
            Inv(Put(s, c, p.(pc := Picking, isidle := true)).(tstate := s.tstate[p.cur := NewState(p.pc.r)]))
  {
    hide Inv;
    InvAt(s, c);
    var p := s.cpus[c];
    var x, ts := p.(pc := Picking, isidle := true), s.tstate[p.cur := NewState(p.pc.r)];
    SameOwned(p, x);
    hide CpuPlaces;
    OneCpu(s, c, x, ts);
  }

  lemma RunStep(s: State, c: CpuId)
    requires Inv(s) && At(s, c, Switched)
    ensures var p := s.cpus[c]; Inv(Put(s, c, p.(pc := Unlocking)).(tstate := s.tstate[p.cur := S_RUN]))
  {
    hide Inv;
    InvAt(s, c);
    var p := s.cpus[c];
    var x, ts := p.(pc := Unlocking), s.tstate[p.cur := S_RUN];
    OwnedApart(s, c, p.cur);
    SameOwned(p, x);
    hide CpuPlaces;
    OneCpu(s, c, x, ts);
  }

  // ---------------------------------------------------------------------------
  // Migration within the CPU
  // ---------------------------------------------------------------------------

  lemma CollectStep(s: State, c: CpuId, k: nat)
    requires Inv(s) && (Free(s, c) || At(s, c, Idling)) && k <= |s.cpus[c].runq| && !s.cpus[c].migrating
    ensures var p := s.cpus[c];
            var m := |p.runq| - k;
            Inv(Put(s, c, p.(migrating := true, runq := p.runq[..m], victims := p.runq[m..] + p.victims)))
  {
    hide Inv;
    InvAt(s, c);
    var p := s.cpus[c];
    var m := |p.runq| - k;
    var x := p.(migrating := true, runq := p.runq[..m], victims := p.runq[m..] + p.victims);
    CollectPlaces(p, x, m);
    hide CpuPlaces;
    assert p.victims == [] && x.victims == p.runq[m..];
    JustCpu(s, c, x);
  }

  lemma CollectPlaces(p: Cpu, x: Cpu, m: nat)
    requires m <= |p.runq| && p.victims == []
    requires x == p.(migrating := true, runq := p.runq[..m], victims := p.runq[m..] + p.victims)
    ensures CpuPlaces(x) == CpuPlaces(p)
  {
    assert p.runq == p.runq[..m] + p.runq[m..];
    assert p.runq[m..] + [] == p.runq[m..];
  }

  lemma ReturnStep(s: State, c: CpuId)
    requires Inv(s) && c < |s.cpus| && s.cpus[c].migrating && s.cpus[c].victims != []
    ensures var p := s.cpus[c]; Inv(Put(s, c, p.(runq := p.runq + [p.victims[0]], victims := p.victims[1..])))
  {
    hide Inv;
    InvAt(s, c);
    var p := s.cpus[c];
    var x := p.(runq := p.runq + [p.victims[0]], victims := p.victims[1..]);
    ReturnPlaces(p, x);
    hide CpuPlaces;
    JustCpu(s, c, x);
  }

  lemma ReturnPlaces(p: Cpu, x: Cpu)
    requires p.victims != [] && x == p.(runq := p.runq + [p.victims[0]], victims := p.victims[1..])
    ensures CpuPlaces(x) == CpuPlaces(p)
  {
    assert p.victims == [p.victims[0]] + p.victims[1..];
  }

  lemma DoneStep(s: State, c: CpuId)
    requires Inv(s) && c < |s.cpus| && s.cpus[c].migrating && s.cpus[c].victims == []
    ensures Inv(Put(s, c, s.cpus[c].(migrating := false)))
  {
    hide Inv;
    InvAt(s, c);
    SameOwned(s.cpus[c], s.cpus[c].(migrating := false));
    hide CpuPlaces;
    JustCpu(s, c, s.cpus[c].(migrating := false));
  }

  // ---------------------------------------------------------------------------
  // Putting the current thread away
  // ---------------------------------------------------------------------------

  lemma PlaceOnCpu(s: State, c: CpuId)
    requires Inv(s) && CanPlace(s, c) && !s.cpus[c].pc.r.SleepOn?
    ensures Inv(PlaceCurrent(s, c))
  {
    hide Inv;
    InvAt(s, c);
    var p := s.cpus[c];
    OwnedApart(s, c, p.cur);
    var x := PlaceCurrent(s, c).cpus[c];
    PlacedPlaces(p, x);
    hide CpuPlaces;
    JustCpu(s, c, x);
  }

  lemma PlacedPlaces(p: Cpu, x: Cpu)
    requires p.pc.Locked?
    requires || x == p.(pc := Placed(p.pc.r), runq := p.runq + [p.cur])
             || x == p.(pc := Placed(p.pc.r), zombies := p.zombies + [p.cur])
    ensures CpuPlaces(x) == CpuPlaces(p)
  {
  }

  lemma PlaceOnChan(s: State, c: CpuId)
    requires Inv(s) && CanPlace(s, c) && s.cpus[c].pc.r.SleepOn?
    ensures Inv(PlaceCurrent(s, c))
  {
    hide Inv;
    var p, s', w := s.cpus[c], PlaceCurrent(s, c), s.cpus[c].pc.r.wc;
    OwnedApart(s, c, p.cur);
    CpuToChan(s, c, w, s'.cpus[c]);
    PlacesAre(s);
    hide AllPlaces, CpuPlaces, Owned;
    OtherCpus(s, s', c);
    InvAt(s, c);
    SameHands(s, s', |s.hands|);
    InvIntro(s', c);
  }

  /** Conservation when the current thread moves from CPU `c` to channel `w`. */
  lemma CpuToChan(s: State, c: CpuId, w: Chan, x: Cpu)
    requires c < |s.cpus| && w < |s.chans| && s.cpus[c].pc.Locked?
    requires x == s.cpus[c].(pc := Placed(s.cpus[c].pc.r))
    ensures AllPlaces(Put(s, c, x).(chans := s.chans[w := s.chans[w] + [s.cpus[c].cur]])) == AllPlaces(s)
  {
    hide CpuPlaces, Sum, CpuBags, ChanBags, HeldThreads;
    var p, t := s.cpus[c], s.cpus[c].cur;
    var q := s.chans[w] + [t];
    PutAway(p, x);
    CpuSumUpdate(s.cpus, c, x);
    ChanSumUpdate(s.chans, w, q);
    var a, a' := Sum(CpuBags(s.cpus)), Sum(CpuBags(s.cpus[c := x]));
    var b, b' := Sum(ChanBags(s.chans)), Sum(ChanBags(s.chans[w := q]));
    Moved(a', CpuPlaces(p), a, CpuPlaces(x), multiset{t});
    Moved(b, multiset(q), b', multiset(s.chans[w]), multiset{t});
    Shift(a, b, a', b', multiset(HeldThreads(s.hands)), multiset{t});
  }

  lemma PutAway(p: Cpu, x: Cpu)
    requires p.pc.Locked? && x == p.(pc := Placed(p.pc.r))
    ensures CpuPlaces(p) == CpuPlaces(x) + multiset{p.cur}
  {
  }

  /** What one bag loses another gains. */
  lemma Shift(a: Bag, b: Bag, a': Bag, b': Bag, c: Bag, m: Bag)
    requires a' + m == a && b + m == b'
    ensures a' + b' + c == a + b + c
  {
    assert a' + (b + m) + c == (a' + m) + b + c;
  }

  /** CPUs a step does not touch stay in order. */
  lemma OtherCpus(s: State, s': State, c: CpuId)
    requires Inv(s) && |s'.cpus| == |s.cpus|
    requires forall d :: 0 <= d < |s.cpus| && d != c ==> s'.cpus[d] == s.cpus[d]
    requires forall t :: t in s.tcpu && s.tcpu[t] != c ==> t in s'.tcpu && s'.tcpu[t] == s.tcpu[t]
    requires forall t :: t in s.tstate && s.tcpu[t] != c ==> t in s'.tstate && s'.tstate[t] == s.tstate[t]
    ensures forall d :: 0 <= d < |s.cpus| && d != c ==> CpuOk(s', d) && ZombiesMarked(s', d)
  {
    forall d | 0 <= d < |s.cpus| && d != c ensures CpuOk(s', d) && ZombiesMarked(s', d) {
      assert CpuOk(s, d) && ZombiesMarked(s, d);
    }
  }

  // ---------------------------------------------------------------------------
  // Destroying threads
  // ---------------------------------------------------------------------------

  lemma ExorciseStep(s: State, c: CpuId)
    requires Inv(s) && At(s, c, Exorcising) && s.cpus[c].zombies != []
    ensures var p := s.cpus[c]; Inv(Destroy(Put(s, c, p.(zombies := p.zombies[1..])), p.zombies[0]))
  {
    hide Inv, CpuOk, ZombiesMarked, HandOk, CpuPlaces, AllPlaces;
    var p := s.cpus[c];
    var z, x := p.zombies[0], p.(zombies := p.zombies[1..]);
    var s' := Destroy(Put(s, c, x), z);
    InvAt(s, c);
    DeadZombie(s, c, z, x);
    DestroyKeeps(s, c, z, x, s');
    CpuLoses(s, c, x, z);
    OtherCpus(s, s', c);
    HandsKeep(s, s', c, z);
    InvIntro(s', c);
  }

  /** The zombie about to be destroyed is nowhere else on its CPU, and not its current thread. */
  lemma DeadZombie(s: State, c: CpuId, z: Tid, x: Cpu)
    requires Inv(s) && At(s, c, Exorcising) && s.cpus[c].zombies != []
    requires z == s.cpus[c].zombies[0] && x == s.cpus[c].(zombies := s.cpus[c].zombies[1..])
    ensures z != x.cur && z !in x.runq && z !in x.zombies && z !in x.victims
    ensures CpuPlaces(s.cpus[c]) == CpuPlaces(x) + multiset{z} && z in CpuPlaces(s.cpus[c])
  {
    hide Inv, AllPlaces, CpuPlaces;
    CountedOnce(s, c, z);
    ZombieGone(s.cpus[c], x, z);
    assert Owned(s.cpus[c]) == multiset{x.cur};
  }

  lemma DestroyKeeps(s: State, c: CpuId, z: Tid, x: Cpu, s': State)
    requires c < |s.cpus| && CpuOk(s, c) && ZombiesMarked(s, c) && s.cpus[c].zombies != []
    requires x == s.cpus[c].(zombies := s.cpus[c].zombies[1..]) && s' == Destroy(Put(s, c, x), z)
    requires s.cpus[c].zombies != [] && s.cpus[c].pc == Exorcising && z != s.cpus[c].cur
    requires z !in x.runq && z !in x.zombies && z !in x.victims
    ensures CpuOk(s', c) && ZombiesMarked(s', c) && s.cpus[c].zombies[0] in s.tcpu
    ensures s.tcpu[s.cpus[c].zombies[0]] == c
  {
    assert Mine(s'.tcpu, c, x.runq) && Mine(s'.tcpu, c, x.zombies) && Mine(s'.tcpu, c, x.victims);
  }

  lemma HandsKeep(s: State, s': State, c: CpuId, z: Tid)
    requires Inv(s) && c < |s.cpus| && z in CpuPlaces(s.cpus[c]) && s'.hands == s.hands
    requires s'.tcpu == s.tcpu - {z} && |s'.cpus| == |s.cpus|
    requires forall d :: 0 <= d < |s.cpus| ==> s'.cpus[d].cur == s.cpus[d].cur && s'.cpus[d].stack == s.cpus[d].stack
    ensures forall h :: 0 <= h < |s'.hands| ==> HandOk(s', s'.hands[h])
  {
    forall h | 0 <= h < |s.hands| ensures HandOk(s', s'.hands[h]) {
      HandsApart(s, c, h);
      assert HandOk(s, s.hands[h]);
    }
  }

  lemma ZombieGone(p: Cpu, x: Cpu, z: Tid)
    requires p.zombies != [] && z == p.zombies[0] && x == p.(zombies := p.zombies[1..])
    requires CpuPlaces(p)[z] <= 1
    ensures CpuPlaces(p) == CpuPlaces(x) + multiset{z} && z in CpuPlaces(p)
    ensures z !in x.runq && z !in x.zombies && z !in x.victims && z !in Owned(p)
  {
    assert p.zombies == [z] + x.zombies;
    assert CpuPlaces(p)[z] == Owned(p)[z] + multiset(p.runq)[z] + 1 + multiset(x.zombies)[z] + multiset(p.victims)[z];
    assert multiset(p.runq)[z] == 0 && multiset(x.zombies)[z] == 0 && multiset(p.victims)[z] == 0;
  }

  lemma CpuLoses(s: State, c: CpuId, x: Cpu, t: Tid)
    requires Inv(s) && c < |s.cpus| && CpuPlaces(s.cpus[c]) == CpuPlaces(x) + multiset{t} && t in s.tcpu
    ensures AllPlaces(Destroy(Put(s, c, x), t)) == multiset(s.tcpu.Keys - {t})
  {
    hide CpuPlaces;
    CpuSumUpdate(s.cpus, c, x);
    hide Sum, CpuBags, ChanBags;
    Moved(Sum(CpuBags(s.cpus[c := x])), CpuPlaces(s.cpus[c]), Sum(CpuBags(s.cpus)), CpuPlaces(x), multiset{t});
    KeysLose(AllPlaces(Destroy(Put(s, c, x), t)), s.tcpu.Keys, t);
  }

  lemma KeysLose(a: Bag, keys: set<nat>, t: nat)
    requires a + multiset{t} == multiset(keys) && t in keys
    ensures a == multiset(keys - {t})
  {
    forall u ensures a[u] == multiset(keys - {t})[u] {
      assert (a + multiset{t})[u] == multiset(keys)[u];
    }
  }

  lemma ForkFailStep(s: State, h: nat)
    requires Inv(s) && h < |s.hands| && s.hands[h].newborn
    ensures Inv(Destroy(s.(hands := s.hands[..h] + s.hands[h + 1..]), s.hands[h].t))
  {
    hide Inv, CpuPlaces, AllPlaces;
    var t := s.hands[h].t;
    var s' := Destroy(s.(hands := s.hands[..h] + s.hands[h + 1..]), t);
    HandLoses(s, h);
    NewbornGone(s, h, s');
    HandsWithout(s, h, s');
    InvKeys(s);
    InvAll(s');
  }

  lemma InvKeys(s: State)
    requires Inv(s)
    ensures s.tcpu.Keys == s.tstate.Keys && forall t :: t in s.tcpu ==> s.tcpu[t] < |s.cpus|
  {
  }

  lemma InvAll(s: State)
    requires s.tcpu.Keys == s.tstate.Keys && AllPlaces(s) == multiset(s.tcpu.Keys)
    requires forall t :: t in s.tcpu ==> s.tcpu[t] < |s.cpus|
    requires forall d :: 0 <= d < |s.cpus| ==> CpuOk(s, d) && ZombiesMarked(s, d)
    requires forall h :: 0 <= h < |s.hands| ==> HandOk(s, s.hands[h])
    ensures Inv(s)
  {
  }

  /** Dropping hand `h` takes exactly its thread out of the count. */
  lemma HandRemoved(hands: seq<Held>, h: nat)
    requires h < |hands|
    ensures multiset(HeldThreads(hands)) == multiset(HeldThreads(hands[..h] + hands[h + 1..])) + multiset{hands[h].t}
  {
    var a, b := hands[..h], hands[h + 1..];
    assert HeldThreads(hands) == HeldThreads(a) + [hands[h].t] + HeldThreads(b);
    assert HeldThreads(a + b) == HeldThreads(a) + HeldThreads(b);
  }

  lemma HandLoses(s: State, h: nat)
    requires Inv(s) && h < |s.hands|
    ensures s.hands[h].t in s.tcpu
    ensures AllPlaces(Destroy(s.(hands := s.hands[..h] + s.hands[h + 1..]), s.hands[h].t))
            == multiset(s.tcpu.Keys - {s.hands[h].t})
  {
    var t, s' := s.hands[h].t, Destroy(s.(hands := s.hands[..h] + s.hands[h + 1..]), s.hands[h].t);
    HandRemoved(s.hands, h);
    PlacesAre(s);
    hide Inv, Sum, CpuBags, ChanBags, HeldThreads;
    assert AllPlaces(s') + multiset{t} == AllPlaces(s);
    assert t in AllPlaces(s);
    KeysLose(AllPlaces(s'), s.tcpu.Keys, t);
  }

  /** No CPU holds or has ever run a newborn thread. */
  lemma NewbornGone(s: State, h: nat, s': State)
    requires Inv(s) && h < |s.hands| && s.hands[h].newborn
    requires s' == Destroy(s.(hands := s.hands[..h] + s.hands[h + 1..]), s.hands[h].t)
    ensures forall d :: 0 <= d < |s.cpus| ==> CpuOk(s', d) && ZombiesMarked(s', d)
  {
    hide AllPlaces;
    var t := s.hands[h].t;
    assert HandOk(s, s.hands[h]);
    forall d | 0 <= d < |s.cpus| ensures CpuOk(s', d) && ZombiesMarked(s', d) {
      NotListed(s, d, h);
      assert CpuOk(s, d) && ZombiesMarked(s, d);
      var p := s.cpus[d];
      assert Mine(s'.tcpu, d, p.runq) && Mine(s'.tcpu, d, p.zombies) && Mine(s'.tcpu, d, p.victims);
    }
  }

  lemma NotListed(s: State, c: CpuId, h: nat)
    requires Inv(s) && c < |s.cpus| && h < |s.hands|
    ensures var p, t := s.cpus[c], s.hands[h].t;
            t !in p.runq && t !in p.zombies && t !in p.victims && t !in Owned(p)
  {
    HandsApart(s, c, h);
  }

  lemma HandsWithout(s: State, h: nat, s': State)
    requires Inv(s) && h < |s.hands|
    requires s' == Destroy(s.(hands := s.hands[..h] + s.hands[h + 1..]), s.hands[h].t)
    ensures forall k :: 0 <= k < |s'.hands| ==> HandOk(s', s'.hands[k])
  {
    forall k | 0 <= k < |s'.hands| ensures HandOk(s', s'.hands[k]) {
      var i := if k < h then k else k + 1;
      assert s'.hands[k] == s.hands[i] && HandOk(s, s.hands[i]);
      TwoHands(s, h, i);
    }
  }

  /** Different hands hold different threads. */
  lemma TwoHands(s: State, h: nat, i: nat)
    requires Inv(s) && h < |s.hands| && i < |s.hands| && h != i
    ensures s.hands[h].t != s.hands[i].t
  {
    hide Inv, Sum, CpuBags, ChanBags;
    var t, ts := s.hands[h].t, HeldThreads(s.hands);
    PlacesAre(s);
    assert multiset(s.tcpu.Keys)[t] <= 1;
    assert AllPlaces(s)[t] >= multiset(ts)[t];
    if h < i {
      TwiceListed(ts, h, i);
    } else {
      TwiceListed(ts, i, h);
    }
  }

  lemma TwiceListed(ts: seq<Tid>, h: nat, i: nat)
    requires h < i < |ts|
    ensures ts[h] == ts[i] ==> multiset(ts)[ts[h]] >= 2
  {
    var t := ts[i];
    assert ts == ts[..i] + [t] + ts[i + 1..];
    assert multiset(ts)[t] == multiset(ts[..i])[t] + 1 + multiset(ts[i + 1..])[t];
    assert ts[h] in ts[..i];
  }

  // ---------------------------------------------------------------------------
  // Forks and wakeups
  // ---------------------------------------------------------------------------

  lemma ForkStep(s: State, c: CpuId, t: Tid, d: CpuId)
    requires Inv(s) && c < |s.cpus| && t !in s.tcpu && d < |s.cpus|
    ensures Inv(s.(tcpu := s.tcpu[t := d], tstate := s.tstate[t := S_READY], hands := s.hands + [Held(t, None, true)]))
  {
    hide Inv, CpuPlaces, AllPlaces;
    var s' := s.(tcpu := s.tcpu[t := d], tstate := s.tstate[t := S_READY], hands := s.hands + [Held(t, None, true)]);
    InvKeys(s);
    NewbornCounted(s, t, s');
    forall e | 0 <= e < |s.cpus| ensures CpuOk(s', e) && ZombiesMarked(s', e) {
      InvAt(s, e);
    }
    SameHands(s, s', |s.hands|);
    NewbornUnknown(s, t);
    assert HandOk(s', s'.hands[|s.hands|]);
    hide CpuOk, ZombiesMarked, HandOk;
    InvAll(s');
  }

  lemma NewbornUnknown(s: State, t: Tid)
    requires Inv(s) && t !in s.tcpu
    ensures forall e :: 0 <= e < |s.cpus| ==> s.cpus[e].cur != t && s.cpus[e].stack != t
  {
    forall e | 0 <= e < |s.cpus| ensures s.cpus[e].cur != t && s.cpus[e].stack != t {
      InvAt(s, e);
    }
  }

  lemma NewbornCounted(s: State, t: Tid, s': State)
    requires Inv(s) && t !in s.tcpu && s'.cpus == s.cpus && s'.chans == s.chans
    requires s'.hands == s.hands + [Held(t, None, true)] && s'.tcpu.Keys == s.tcpu.Keys + {t}
    ensures AllPlaces(s') == multiset(s'.tcpu.Keys)
  {
    PlacesAre(s);
    assert HeldThreads(s'.hands) == HeldThreads(s.hands) + [t];
    hide Inv, Sum, CpuBags, ChanBags, HeldThreads;
    OneMore(Sum(CpuBags(s.cpus)), Sum(ChanBags(s.chans)), HeldThreads(s.hands), t);
    hide AllPlaces;
    KeysGain(s.tcpu.Keys, t);
  }

  lemma OneMore(a: Bag, b: Bag, h: seq<Tid>, t: Tid)
    ensures a + b + multiset(h + [t]) == a + b + multiset(h) + multiset{t}
  {
  }

  lemma KeysGain(keys: set<nat>, t: nat)
    requires t !in keys
    ensures multiset(keys + {t}) == multiset(keys) + multiset{t}
  {
    forall u ensures multiset(keys + {t})[u] == (multiset(keys) + multiset{t})[u] {
    }
  }

  /** Moving threads between the channels and the hands leaves the CPUs alone. */
  lemma OffCpu(s: State, s': State)
    requires Inv(s) && s'.cpus == s.cpus && s'.tcpu == s.tcpu && s'.tstate == s.tstate
    requires AllPlaces(s') == AllPlaces(s)
    requires forall k :: 0 <= k < |s'.hands| ==> HandOk(s', s'.hands[k])
    ensures Inv(s')
  {
    hide Inv, CpuPlaces, AllPlaces;
    PlacesAre(s);
    InvKeys(s);
    forall e | 0 <= e < |s.cpus| ensures CpuOk(s', e) && ZombiesMarked(s', e) {
      InvAt(s, e);
    }
    hide CpuOk, ZombiesMarked, HandOk;
    InvAll(s');
  }

  lemma WakeStep(s: State, w: Chan, k: nat)
    requires Inv(s) && w < |s.chans| && k <= |s.chans[w]|
    ensures Inv(s.(chans := s.chans[w := s.chans[w][k..]], hands := s.hands + Grabbed(s.chans[w][..k])))
  {
    hide Inv, CpuPlaces;
    var q := s.chans[w];
    var s' := s.(chans := s.chans[w := q[k..]], hands := s.hands + Grabbed(q[..k]));
    ChanToHands(s, w, k);
    hide AllPlaces;
    SameHands(s, s', |s.hands|);
    forall i | 0 <= i < |s'.hands| ensures HandOk(s', s'.hands[i]) {
      if i >= |s.hands| {
        assert s'.hands[i] == Grabbed(q[..k])[i - |s.hands|];
      }
    }
    OffCpu(s, s');
  }

  lemma ChanToHands(s: State, w: Chan, k: nat)
    requires w < |s.chans| && k <= |s.chans[w]|
    ensures AllPlaces(s.(chans := s.chans[w := s.chans[w][k..]], hands := s.hands + Grabbed(s.chans[w][..k]))) ==
            AllPlaces(s)
  {
    var q := s.chans[w];
    var a, b := q[..k], q[k..];
    assert q == a + b;
    assert HeldThreads(s.hands + Grabbed(a)) == HeldThreads(s.hands) + a;
    hide Sum, CpuBags, ChanBags, HeldThreads, Grabbed;
    ChanSumUpdate(s.chans, w, b);
    var c, c', h := Sum(ChanBags(s.chans)), Sum(ChanBags(s.chans[w := b])), multiset(HeldThreads(s.hands));
    Moved(c', multiset(q), c, multiset(b), multiset(a));
    Shift(c, h, c', h + multiset(a), Sum(CpuBags(s.cpus)), multiset(a));
  }

  /** The CPU a waker reads from t_cpu. */
  lemma AimStep(s: State, h: nat)
    requires Inv(s) && h < |s.hands| && s.hands[h].t in s.tcpu
    ensures Inv(s.(hands := s.hands[h := s.hands[h].(aim := Some(s.tcpu[s.hands[h].t]))]))
  {
    hide Inv, CpuPlaces;
    var s' := s.(hands := s.hands[h := s.hands[h].(aim := Some(s.tcpu[s.hands[h].t]))]);
    assert AllPlaces(s') == AllPlaces(s) by {
      assert HeldThreads(s'.hands) == HeldThreads(s.hands);
    }
    hide AllPlaces;
    forall k | 0 <= k < |s'.hands| ensures HandOk(s', s'.hands[k]) {
      InvHand(s, k);
    }
    OffCpu(s, s');
  }

  lemma InvHand(s: State, h: nat)
    requires Inv(s) && h < |s.hands|
    ensures HandOk(s, s.hands[h])
  {
  }

  /** thread_make_runnable: the thread joins the queue of the CPU it belongs to. */
  lemma RunnableStep(s: State, h: nat)
    requires Inv(s) && h < |s.hands| && s.hands[h].aim.Some? && s.hands[h].aim.value < |s.cpus|
    ensures var d := s.hands[h].aim.value;
            Inv(Put(s, d, s.cpus[d].(runq := s.cpus[d].runq + [s.hands[h].t]))
                .(hands := s.hands[..h] + s.hands[h + 1..]))
  {
    hide Inv, CpuPlaces;
    var t, d := s.hands[h].t, s.hands[h].aim.value;
    var x := s.cpus[d].(runq := s.cpus[d].runq + [t]);
    var s' := Put(s, d, x).(hands := s.hands[..h] + s.hands[h + 1..]);
    HandToCpu(s, d, x, h);
    PlacesAre(s);
    hide AllPlaces;
    InvAt(s, d);
    InvHand(s, h);
    OtherCpus(s, s', d);
    forall k | 0 <= k < |s'.hands| ensures HandOk(s', s'.hands[k]) {
      var i := if k < h then k else k + 1;
      assert s'.hands[k] == s.hands[i];
      InvHand(s, i);
    }
    InvIntro(s', d);
  }

  lemma HandToCpu(s: State, d: CpuId, x: Cpu, h: nat)
    requires d < |s.cpus| && h < |s.hands| && x == s.cpus[d].(runq := s.cpus[d].runq + [s.hands[h].t])
    ensures AllPlaces(Put(s, d, x).(hands := s.hands[..h] + s.hands[h + 1..])) == AllPlaces(s)
  {
    var t, p := s.hands[h].t, s.cpus[d];
    CpuSumUpdate(s.cpus, d, x);
    GrowPlaces(p, x, t);
    HandRemoved(s.hands, h);
    hide CpuPlaces, Sum, CpuBags, ChanBags, HeldThreads;
    Moved(Sum(CpuBags(s.cpus)), CpuPlaces(x), Sum(CpuBags(s.cpus[d := x])), CpuPlaces(p), multiset{t});
  }

  lemma GrowPlaces(p: Cpu, x: Cpu, t: Tid)
    requires x == p.(runq := p.runq + [t])
    ensures CpuPlaces(x) == CpuPlaces(p) + multiset{t}
  {
  }

  // ---------------------------------------------------------------------------
  // Migration between CPUs
  // ---------------------------------------------------------------------------

  lemma RotateStep(s: State, c: CpuId)
    requires Inv(s) && c < |s.cpus| && s.cpus[c].victims != []
    ensures var p := s.cpus[c]; Inv(Put(s, c, p.(victims := p.victims[1..] + [p.victims[0]])))
  {
    hide Inv, CpuPlaces;
    var p := s.cpus[c];
    var x := p.(victims := p.victims[1..] + [p.victims[0]]);
    RotatePlaces(p, x);
    InvAt(s, c);
    JustCpu(s, c, x);
  }

  lemma RotatePlaces(p: Cpu, x: Cpu)
    requires p.victims != [] && x == p.(victims := p.victims[1..] + [p.victims[0]])
    ensures CpuPlaces(x) == CpuPlaces(p)
  {
    assert p.victims == [p.victims[0]] + p.victims[1..];
  }

  /** Re-homing a queued thread that is not current: no CPU can be using it. */
  lemma SendStep(s: State, c: CpuId, d: CpuId)
    requires Inv(s) && CanSend(s, c, d) && s.cpus[c].victims[0] != s.cpus[c].cur
    ensures Inv(SendVictim(s, c, d))
  {
    hide Inv, CpuPlaces, AllPlaces;
    var p, t := s.cpus[c], s.cpus[c].victims[0];
    var s' := SendVictim(s, c, d);
    VictimHeld(s, c, t, s'.cpus[c]);
    VictimMoves(s, c, d, t, s');
    PlacesAre(s);
    InvKeys(s);
    SenderKeeps(s, c, d, t, s');
    ReceiverKeeps(s, c, d, t, s');
    forall e | 0 <= e < |s.cpus| ensures CpuOk(s', e) && ZombiesMarked(s', e) {
      if e != c && e != d {
        InvAt(s, e);
      }
    }
    forall h | 0 <= h < |s.hands| ensures HandOk(s', s'.hands[h]) {
      HandsApart(s, c, h);
      InvHand(s, h);
    }
    hide CpuOk, ZombiesMarked, HandOk;
    InvAll(s');
  }

  lemma VictimHeld(s: State, c: CpuId, t: Tid, x: Cpu)
    requires Inv(s) && c < |s.cpus| && s.cpus[c].victims != [] && t == s.cpus[c].victims[0]
    requires x == s.cpus[c].(victims := s.cpus[c].victims[1..])
    ensures On(s.tcpu, c, t) && t in CpuPlaces(s.cpus[c])
    ensures t !in x.runq && t !in x.zombies && t !in x.victims && t !in Owned(x)
  {
    hide AllPlaces;
    var p := s.cpus[c];
    InvAt(s, c);
    CountedOnce(s, c, t);
    hide Inv;
    assert p.victims == [t] + x.victims;
    assert CpuPlaces(p)[t] == Owned(p)[t] + multiset(p.runq)[t] + multiset(p.zombies)[t] + 1 + multiset(x.victims)[t];
    assert multiset(p.runq)[t] == 0 && multiset(p.zombies)[t] == 0 && multiset(x.victims)[t] == 0;
    assert Owned(x) == Owned(p);
  }

  lemma VictimMoves(s: State, c: CpuId, d: CpuId, t: Tid, s': State)
    requires CanSend(s, c, d) && t == s.cpus[c].victims[0] && t != s.cpus[c].cur && s' == SendVictim(s, c, d)
    ensures AllPlaces(s') == AllPlaces(s)
  {
    hide CpuPlaces, Sum, CpuBags, ChanBags, HeldThreads;
    var p, q, x, y := s.cpus[c], s.cpus[d], s'.cpus[c], s'.cpus[d];
    FirstVictimGone(p, x);
    GrowPlaces(q, y, t);
    TwoCpus(s.cpus, c, d, x, y, t);
    assert s'.cpus == s.cpus[c := x][d := y];
  }

  lemma FirstVictimGone(p: Cpu, x: Cpu)
    requires p.victims != [] && x == p.(victims := p.victims[1..])
    ensures CpuPlaces(p) == CpuPlaces(x) + multiset{p.victims[0]}
  {
    assert p.victims == [p.victims[0]] + x.victims;
  }

  /** A thread moves from one CPU to another. */
  lemma TwoCpus(cpus: seq<Cpu>, c: CpuId, d: CpuId, x: Cpu, y: Cpu, t: Tid)
    requires c < |cpus| && d < |cpus| && c != d
    requires CpuPlaces(cpus[c]) == CpuPlaces(x) + multiset{t} && CpuPlaces(y) == CpuPlaces(cpus[d]) + multiset{t}
    ensures Sum(CpuBags(cpus[c := x][d := y])) == Sum(CpuBags(cpus))
  {
    hide CpuPlaces, Sum, CpuBags;
    CpuSumUpdate(cpus, c, x);
    CpuSumUpdate(cpus[c := x], d, y);
    var a, b, e := Sum(CpuBags(cpus)), Sum(CpuBags(cpus[c := x])), Sum(CpuBags(cpus[c := x][d := y]));
    Moved(b, CpuPlaces(cpus[c]), a, CpuPlaces(x), multiset{t});
    Moved(b, CpuPlaces(y), e, CpuPlaces(cpus[d]), multiset{t});
  }

  lemma SenderKeeps(s: State, c: CpuId, d: CpuId, t: Tid, s': State)
    requires Inv(s) && CanSend(s, c, d) && t == s.cpus[c].victims[0] && t != s.cpus[c].cur
    requires s' == SendVictim(s, c, d)
    requires var x := s'.cpus[c]; t !in x.runq && t !in x.zombies && t !in x.victims
    ensures CpuOk(s', c) && ZombiesMarked(s', c)
  {
    hide AllPlaces;
    InvAt(s, c);
    hide Inv;
    var x := s'.cpus[c];
    assert Mine(s'.tcpu, c, x.runq) && Mine(s'.tcpu, c, x.zombies) && Mine(s'.tcpu, c, x.victims);
  }

  lemma ReceiverKeeps(s: State, c: CpuId, d: CpuId, t: Tid, s': State)
    requires Inv(s) && CanSend(s, c, d) && t == s.cpus[c].victims[0] && t != s.cpus[c].cur
    requires s' == SendVictim(s, c, d) && On(s.tcpu, c, t)
    ensures CpuOk(s', d) && ZombiesMarked(s', d)
  {
    hide AllPlaces;
    InvAt(s, d);
    hide Inv;
  }

  // ---------------------------------------------------------------------------
  // Every step, every run
  // ---------------------------------------------------------------------------

  lemma CpuStepKeeps(s: State, e: Step)
    requires Inv(s) && Enabled(s, e)
    requires !(e.Fork? || e.ForkFail? || e.WakeOne? || e.WakeAll? || e.Aim? || e.MakeRunnable?)
    requires !(e.MigCollect? || e.MigSend? || e.MigReturn? || e.MigDone?)
    ensures Inv(Apply(s, e))
  {
    hide Inv;
    match e {
      case SwLock(c, r) => LockStep(s, c, Locked(r), true);
      case SwNothing(c) => LockStep(s, c, Running, false);
      case SwPlace(c) => if s.cpus[c].pc.r.SleepOn? { PlaceOnChan(s, c); } else { PlaceOnCpu(s, c); }
      case SwState(c) => StateStep(s, c);
      case PickSome(c) => PickStep(s, c);
      case PickNone(c) => LockStep(s, c, Idling, false);
      case Unidle(c) => LockStep(s, c, Picking, true);
      case Choose(c) => ChooseStep(s, c);
      case SwitchFrame(c) => SwitchStep(s, c);
      case SetRun(c) => RunStep(s, c);
      case Unlock(c) => LockStep(s, c, Exorcising, false);
      case ExorciseOne(c) => ExorciseStep(s, c);
      case ExorciseDone(c) => assert !s.cpus[c].locked by { InvAt(s, c); } LockStep(s, c, Running, false);
    }
  }

  lemma OtherStepKeeps(s: State, e: Step)
    requires Inv(s) && Enabled(s, e)
    requires e.Fork? || e.ForkFail? || e.WakeOne? || e.WakeAll? || e.Aim? || e.MakeRunnable?
          || e.MigCollect? || e.MigSend? || e.MigReturn? || e.MigDone?
    ensures Inv(Apply(s, e))
  {
    hide Inv;
    match e {
      case Fork(c, t) => InvKeys(s); ForkStep(s, c, t, s.tcpu[s.cpus[c].cur]);
      case ForkFail(h) => ForkFailStep(s, h);
      case WakeOne(w) => WakeStep(s, w, 1); assert Grabbed(s.chans[w][..1]) == [Held(s.chans[w][0], None, false)];
      case WakeAll(w) =>
        WakeStep(s, w, |s.chans[w]|);
        assert s.chans[w][..|s.chans[w]|] == s.chans[w] && s.chans[w][|s.chans[w]|..] == [];
      case Aim(h) => AimStep(s, h);
      case MakeRunnable(h) => RunnableStep(s, h);
      case MigCollect(c, k) => CollectStep(s, c, k);
      case MigSend(c, d) =>
        if s.cpus[c].victims[0] == s.cpus[c].cur { RotateStep(s, c); } else { SendStep(s, c, d); }
      case MigReturn(c) => ReturnStep(s, c);
      case MigDone(c) => DoneStep(s, c);
    }
  }

  lemma StepKeeps(s: State, e: Step)
    requires Inv(s) && Enabled(s, e)
    ensures Inv(Apply(s, e))
  {
    hide Inv, Apply, Enabled;
    if e.Fork? || e.ForkFail? || e.WakeOne? || e.WakeAll? || e.Aim? || e.MakeRunnable?
       || e.MigCollect? || e.MigSend? || e.MigReturn? || e.MigDone? {
      OtherStepKeeps(s, e);
    } else {
      CpuStepKeeps(s, e);
    }
  }

  /** A run: from boot, one enabled step after another. */
  ghost predicate IsRun(r: seq<State>, es: seq<Step>)
  {
    && |r| == |es| + 1
    && Init(r[0])
    && forall i :: 0 <= i < |es| ==> Enabled(r[i], es[i]) && r[i + 1] == Apply(r[i], es[i])
  }

  lemma {:induction false} RunKeeps(r: seq<State>, es: seq<Step>, i: nat)
    requires IsRun(r, es) && i < |r|
    ensures Inv(r[i])
  {
    hide Inv, Apply, Enabled, Init;
    if i == 0 {
      InitHolds(r[0]);
    } else {
      RunKeeps(r, es, i - 1);
      StepKeeps(r[i - 1], es[i - 1]);
    }
  }

  lemma InitHolds(s: State)
    requires Init(s)
    ensures Inv(s)
  {
    BootPlaces(s);
    forall c | 0 <= c < |s.cpus| ensures CpuOk(s, c) && ZombiesMarked(s, c) {
      assert s.cpus[c].cur in s.tcpu.Keys by {
        assert s.cpus[c].cur in (set d | 0 <= d < |s.cpus| :: s.cpus[d].cur);
      }
    }
    hide AllPlaces, CpuOk, ZombiesMarked;
  }

  lemma BootPlaces(s: State)
    requires Init(s)
    ensures AllPlaces(s) == multiset(s.tcpu.Keys)
  {
    hide Init, CpuPlaces, Sum, CpuBags, ChanBags, BootThreads, HeldThreads;
    BootFacts(s);
    WholeBootSum(s.cpus);
    EmptyChans(s.chans);
    NothingElse(Sum(CpuBags(s.cpus)));
  }

  lemma BootFacts(s: State)
    requires Init(s)
    ensures forall c :: 0 <= c < |s.cpus| ==> CpuPlaces(s.cpus[c]) == multiset{s.cpus[c].cur}
    ensures forall c, d :: 0 <= c < d < |s.cpus| ==> s.cpus[c].cur != s.cpus[d].cur
    ensures s.tcpu.Keys == BootThreads(s.cpus, |s.cpus|)
    ensures forall w :: 0 <= w < |s.chans| ==> s.chans[w] == []
    ensures HeldThreads(s.hands) == []
  {
    hide CpuPlaces;
    forall c | 0 <= c < |s.cpus| ensures CpuPlaces(s.cpus[c]) == multiset{s.cpus[c].cur} {
      BootCpu(s.cpus[c]);
    }
  }

  lemma WholeBootSum(cpus: seq<Cpu>)
    requires forall c :: 0 <= c < |cpus| ==> CpuPlaces(cpus[c]) == multiset{cpus[c].cur}
    requires forall c, d :: 0 <= c < d < |cpus| ==> cpus[c].cur != cpus[d].cur
    ensures Sum(CpuBags(cpus)) == multiset(BootThreads(cpus, |cpus|))
  {
    hide CpuPlaces, BootThreads, Sum;
    BootSum(cpus, |cpus|);
    assert CpuBags(cpus)[..|cpus|] == CpuBags(cpus);
  }

  lemma BootCpu(p: Cpu)
    requires p == Cpu(Running, p.cur, p.cur, false, false, false, [], [], [])
    ensures CpuPlaces(p) == multiset{p.cur}
  {
  }

  lemma NothingElse(a: Bag)
    ensures a + multiset{} + multiset([]) == a
  {
  }

  ghost function BootThreads(cpus: seq<Cpu>, n: nat): set<Tid>
    requires n <= |cpus|
  {
    set c | 0 <= c < n :: cpus[c].cur
  }

  lemma BootNext(cpus: seq<Cpu>, n: nat)
    requires n < |cpus| && forall c, d :: 0 <= c < d < |cpus| ==> cpus[c].cur != cpus[d].cur
    ensures BootThreads(cpus, n + 1) == BootThreads(cpus, n) + {cpus[n].cur}
    ensures cpus[n].cur !in BootThreads(cpus, n) && BootThreads(cpus, 0) == {}
  {
  }

  lemma NextBag(cpus: seq<Cpu>, n: nat)
    requires n < |cpus|
    ensures Sum(CpuBags(cpus)[..n + 1]) == Sum(CpuBags(cpus)[..n]) + CpuPlaces(cpus[n])
  {
    hide CpuPlaces;
    assert CpuBags(cpus)[..n + 1][..n] == CpuBags(cpus)[..n];
  }

  lemma {:induction false} BootSum(cpus: seq<Cpu>, n: nat)
    requires n <= |cpus|
    requires forall c :: 0 <= c < |cpus| ==> CpuPlaces(cpus[c]) == multiset{cpus[c].cur}
    requires forall c, d :: 0 <= c < d < |cpus| ==> cpus[c].cur != cpus[d].cur
    ensures Sum(CpuBags(cpus)[..n]) == multiset(BootThreads(cpus, n))
  {
    if n > 0 {
      hide *;
      BootSum(cpus, n - 1);
      NextBag(cpus, n - 1);
      BootNext(cpus, n - 1);
      KeysGain(BootThreads(cpus, n - 1), cpus[n - 1].cur);
    } else {
      assert BootThreads(cpus, 0) == {};
    }
  }

  lemma {:induction false} EmptyChans(chans: seq<seq<Tid>>)
    requires forall w :: 0 <= w < |chans| ==> chans[w] == []
    ensures Sum(ChanBags(chans)) == multiset{}
  {
    if |chans| > 0 {
      EmptyChans(chans[..|chans| - 1]);
      assert ChanBags(chans)[..|chans| - 1] == ChanBags(chans[..|chans| - 1]);
    }
  }

  // ---------------------------------------------------------------------------
  // What follows
  // ---------------------------------------------------------------------------

  /** No kernel stack is in use twice: no two CPUs share a current thread or a stack,
      idle CPUs with a stale current thread included. */
  lemma NoSharedStack(r: seq<State>, es: seq<Step>, i: nat, c: CpuId, d: CpuId)
    requires IsRun(r, es) && i < |r| && c < |r[i].cpus| && d < |r[i].cpus| && c != d
    ensures r[i].cpus[c].cur != r[i].cpus[d].cur
    ensures r[i].cpus[c].stack != r[i].cpus[d].stack
    ensures r[i].cpus[c].cur != r[i].cpus[d].stack
  {
    hide IsRun, Inv;
    RunKeeps(r, es, i);
    InvAt(r[i], c);
    InvAt(r[i], d);
  }

  /** The places a thread can be in. */
  datatype Place = OnCpu(c: CpuId) | OnRunQueue(c: CpuId) | OnZombies(c: CpuId) | AmongVictims(c: CpuId)
                 | OnChannel(w: Chan) | InHand(h: nat)

  ghost predicate IsAt(s: State, t: Tid, p: Place)
  {
    match p
    case OnCpu(c) => c < |s.cpus| && t in Owned(s.cpus[c])
    case OnRunQueue(c) => c < |s.cpus| && t in s.cpus[c].runq
    case OnZombies(c) => c < |s.cpus| && t in s.cpus[c].zombies
    case AmongVictims(c) => c < |s.cpus| && t in s.cpus[c].victims
    case OnChannel(w) => w < |s.chans| && t in s.chans[w]
    case InHand(h) => h < |s.hands| && s.hands[h].t == t
  }

  /** Every thread that has not been destroyed is in exactly one place, once; a destroyed
      one is in none; and a queue only holds threads of its own CPU. */
  lemma ExactlyOnePlace(r: seq<State>, es: seq<Step>, i: nat, t: Tid)
    requires IsRun(r, es) && i < |r|
    ensures AllPlaces(r[i])[t] == if t in r[i].tcpu then 1 else 0
    ensures t in r[i].tcpu <==> exists p :: IsAt(r[i], t, p)
    ensures forall p, q :: IsAt(r[i], t, p) && IsAt(r[i], t, q) ==> p == q
    ensures forall p :: IsAt(r[i], t, p) && Kind(p) == 0 ==> On(r[i].tcpu, p.c, t)
  {
    hide IsRun, Inv, IsAt, CpuOk;
    RunKeeps(r, es, i);
    var s := r[i];
    PlacesAre(s);
    hide AllPlaces;
    if t in s.tcpu {
      var p := SomePlace(s, t);
    }
    if p :| IsAt(s, t, p) {
      ListedIsKnown(s, t, p);
    }
    forall p, q | IsAt(s, t, p) && IsAt(s, t, q) ensures p == q {
      OnePlace(s, t, p, q);
    }
    forall p | IsAt(s, t, p) && Kind(p) == 0 ensures On(s.tcpu, p.c, t) {
      PlaceAtHome(s, t, p);
    }
  }

  lemma PlaceAtHome(s: State, t: Tid, p: Place)
    requires Inv(s) && IsAt(s, t, p) && Kind(p) == 0
    ensures On(s.tcpu, p.c, t)
  {
    hide Inv;
    AtHome(s, p.c, t);
  }

  lemma SomePlace(s: State, t: Tid) returns (p: Place)
    requires Inv(s) && t in s.tcpu
    ensures IsAt(s, t, p)
  {
    hide Inv, CpuPlaces, Owned;
    PlacesAre(s);
    assert t in multiset(s.tcpu.Keys);
    if t in Sum(CpuBags(s.cpus)) {
      var c := SumWitness(CpuBags(s.cpus), t);
      OnSomeList(s.cpus[c], t);
      p := if t in Owned(s.cpus[c]) then OnCpu(c) else if t in s.cpus[c].runq then OnRunQueue(c)
           else if t in s.cpus[c].zombies then OnZombies(c) else AmongVictims(c);
    } else if t in Sum(ChanBags(s.chans)) {
      var w := SumWitness(ChanBags(s.chans), t);
      p := OnChannel(w);
    } else {
      assert t in HeldThreads(s.hands);
      var h :| 0 <= h < |s.hands| && HeldThreads(s.hands)[h] == t;
      p := InHand(h);
    }
  }

  lemma OnSomeList(x: Cpu, t: Tid)
    requires t in CpuPlaces(x)
    ensures t in Owned(x) || t in x.runq || t in x.zombies || t in x.victims
  {
  }

  function Kind(p: Place): nat { if p.OnChannel? then 1 else if p.InHand? then 2 else 0 }

  ghost function KindBag(s: State, k: nat): Bag
  {
    if k == 0 then Sum(CpuBags(s.cpus)) else if k == 1 then Sum(ChanBags(s.chans)) else multiset(HeldThreads(s.hands))
  }

  lemma InKind(s: State, t: Tid, p: Place)
    requires IsAt(s, t, p)
    ensures t in KindBag(s, Kind(p))
  {
    if p.OnChannel? {
      SumSplit(ChanBags(s.chans), p.w);
    } else if p.InHand? {
      assert HeldThreads(s.hands)[p.h] == t;
    } else {
      SumSplit(CpuBags(s.cpus), p.c);
      assert t in CpuPlaces(s.cpus[p.c]);
    }
  }

  lemma ListedIsKnown(s: State, t: Tid, p: Place)
    requires Inv(s) && IsAt(s, t, p)
    ensures t in s.tcpu
  {
    hide Inv, IsAt, Sum, CpuBags, ChanBags, HeldThreads;
    PlacesAre(s);
    InKind(s, t, p);
    assert t in multiset(s.tcpu.Keys);
  }

  lemma OnePlace(s: State, t: Tid, p: Place, q: Place)
    requires Inv(s) && IsAt(s, t, p) && IsAt(s, t, q)
    ensures p == q
  {
    hide Inv, IsAt, KindBag;
    if Kind(p) != Kind(q) {
      InKind(s, t, p);
      InKind(s, t, q);
      KindsApart(s, t, Kind(p), Kind(q));
      assert false;
    } else if Kind(p) == 1 {
      ChannelsApart(s, t, p, q);
    } else if Kind(p) == 2 {
      HandsOnce(s, t, p, q);
    } else {
      CpusApart(s, t, p, q);
    }
  }

  /** A thread held by one kind of place is held by no other. */
  lemma KindsApart(s: State, t: Tid, j: nat, k: nat)
    requires Inv(s) && j != k && j < 3 && k < 3
    ensures !(t in KindBag(s, j) && t in KindBag(s, k))
  {
    hide Inv, Sum, CpuBags, ChanBags, HeldThreads;
    PlacesAre(s);
    assert multiset(s.tcpu.Keys)[t] <= 1;
    assert AllPlaces(s)[t] == KindBag(s, 0)[t] + KindBag(s, 1)[t] + KindBag(s, 2)[t];
  }

  lemma ChannelsApart(s: State, t: Tid, p: Place, q: Place)
    requires Inv(s) && p.OnChannel? && q.OnChannel? && IsAt(s, t, p) && IsAt(s, t, q)
    ensures p == q
  {
    hide Inv;
    if p.w < q.w {
      TwoChannels(s, t, p.w, q.w);
    } else if q.w < p.w {
      TwoChannels(s, t, q.w, p.w);
    }
  }

  lemma TwoChannels(s: State, t: Tid, v: Chan, w: Chan)
    requires Inv(s) && v < w < |s.chans|
    ensures !(t in s.chans[v] && t in s.chans[w])
  {
    hide Inv;
    PlacesAre(s);
    SumHasTwo(ChanBags(s.chans), v, w);
    hide Sum, CpuBags;
    assert multiset(s.tcpu.Keys)[t] <= 1;
    assert AllPlaces(s)[t] >= Sum(ChanBags(s.chans))[t] >= multiset(s.chans[v])[t] + multiset(s.chans[w])[t];
  }

  lemma HandsOnce(s: State, t: Tid, p: Place, q: Place)
    requires Inv(s) && p.InHand? && q.InHand? && IsAt(s, t, p) && IsAt(s, t, q)
    ensures p == q
  {
    hide Inv;
    if p.h != q.h {
      TwoHands(s, p.h, q.h);
      assert false;
    }
  }

  lemma CpusApart(s: State, t: Tid, p: Place, q: Place)
    requires Inv(s) && Kind(p) == 0 && Kind(q) == 0 && IsAt(s, t, p) && IsAt(s, t, q)
    ensures p == q
  {
    hide Inv;
    AtHome(s, p.c, t);
    AtHome(s, q.c, t);
    CountedOnce(s, p.c, t);
    hide AllPlaces, CpuPlaces;
    OneList(s.cpus[p.c], t);
  }

  /** Whatever a CPU holds, in any way, has it as its t_cpu. */
  lemma AtHome(s: State, c: CpuId, t: Tid)
    requires Inv(s) && c < |s.cpus|
    requires t in Owned(s.cpus[c]) || t in s.cpus[c].runq || t in s.cpus[c].zombies || t in s.cpus[c].victims
    ensures On(s.tcpu, c, t)
  {
    hide Inv, AllPlaces;
    InvAt(s, c);
  }

  lemma OneList(x: Cpu, t: Tid)
    requires CpuPlaces(x)[t] <= 1
    ensures t in Owned(x) ==> t !in x.runq && t !in x.zombies && t !in x.victims
    ensures t in x.runq ==> t !in x.zombies && t !in x.victims
    ensures t in x.zombies ==> t !in x.victims
  {
    assert CpuPlaces(x)[t] == Owned(x)[t] + multiset(x.runq)[t] + multiset(x.zombies)[t] + multiset(x.victims)[t];
    assert t in x.runq <==> multiset(x.runq)[t] > 0;
    assert t in x.zombies <==> multiset(x.zombies)[t] > 0;
    assert t in x.victims <==> multiset(x.victims)[t] > 0;
  }

  /** exorcise only destroys threads that have exited and that no CPU is running on. */
  lemma ExorciseSafe(r: seq<State>, es: seq<Step>, i: nat, c: CpuId)
    requires IsRun(r, es) && i < |es| && es[i] == ExorciseOne(c)
    ensures var z := r[i].cpus[c].zombies[0];
            && z in r[i].tstate && r[i].tstate[z] == S_ZOMBIE
            && z !in r[i + 1].tcpu
            && forall d :: 0 <= d < |r[i].cpus| ==> r[i].cpus[d].cur != z && r[i].cpus[d].stack != z
  {
    assert Enabled(r[i], es[i]) && r[i + 1] == Apply(r[i], es[i]);
    assert At(r[i], c, Exorcising) && r[i].cpus[c].zombies != [];
    var s := r[i];
    var z, x := s.cpus[c].zombies[0], s.cpus[c].(zombies := s.cpus[c].zombies[1..]);
    assert z !in r[i + 1].tcpu;
    RunKeeps(r, es, i);
    hide IsRun, Inv, Enabled, Apply;
    DeadZombie(s, c, z, x);
    hide CpuPlaces;
    InvAt(s, c);
    forall d | 0 <= d < |s.cpus| ensures s.cpus[d].cur != z && s.cpus[d].stack != z {
      InvAt(s, d);
    }
  }

  /** A waker's reading of t_cpu is never stale: the thread joins its own CPU's queue. */
  lemma WakeupHitsHome(r: seq<State>, es: seq<Step>, i: nat, h: nat)
    requires IsRun(r, es) && i < |es| && es[i] == MakeRunnable(h)
    ensures h < |r[i].hands| && r[i].hands[h].aim.Some?
    ensures On(r[i].tcpu, r[i].hands[h].aim.value, r[i].hands[h].t)
  {
    assert Enabled(r[i], es[i]);
    RunKeeps(r, es, i);
    hide IsRun, Inv, Enabled, Apply;
    InvHand(r[i], h);
  }

  // ---------------------------------------------------------------------------
  // Why migration skips the current thread
  // ---------------------------------------------------------------------------

  /** The migration loop without its test for the current thread. */
  function SendAnyway(s: State, c: CpuId, d: CpuId): State
    requires CanSend(s, c, d)
  {
    var p := s.cpus[c];
    var t := p.victims[0];
    var s1 := Put(s, c, p.(victims := p.victims[1..]));
    Put(s1, d, s.cpus[d].(runq := s.cpus[d].runq + [t])).(tcpu := s.tcpu[t := d])
  }

  /** A sequence of steps, from any state. */
  ghost predicate Steps(r: seq<State>, es: seq<Step>)
  {
    |r| == |es| + 1 && forall k :: 0 <= k < |es| ==> Enabled(r[k], es[k]) && r[k + 1] == Apply(r[k], es[k])
  }

  /** Sending off the current thread of an idle CPU, to another idle CPU, ends with both CPUs on
      the same stack as soon as the other one wakes. */
  lemma SendingCurrentSharesStack(s: State, c: CpuId, d: CpuId) returns (r: seq<State>)
    requires CanSend(s, c, d) && s.cpus[c].victims[0] == s.cpus[c].cur == s.cpus[c].stack
    requires At(s, d, Idling) && !s.cpus[d].migrating && s.cpus[d].runq == []
    ensures Steps(r, [Unidle(d), PickSome(d), Choose(d), SwitchFrame(d)]) && r[0] == SendAnyway(s, c, d)
    ensures |r[4].cpus| == |s.cpus| && r[4].cpus[c].stack == r[4].cpus[d].stack
  {
    hide Apply, Enabled;
    var t, p, q := s.cpus[c].cur, s.cpus[c], s.cpus[d];
    var s1 := SendAnyway(s, c, d);
    assert s1.cpus[d] == q.(runq := [t]) && s1.cpus[c].stack == t;
    WakeSteps(s1, d, t);
    var s2 := Put(s1, d, q.(runq := [t], pc := Picking, locked := true));
    var s3 := Put(s2, d, s2.cpus[d].(pc := Picked(t), runq := []));
    var s4 := Put(s3, d, s3.cpus[d].(pc := Chosen(t), isidle := false, cur := t));
    r := [s1, s2, s3, s4, Put(s4, d, s4.cpus[d].(pc := Switched, stack := t))];
  }

  /** The four steps by which an idle CPU with one queued thread comes to run it. */
  lemma WakeSteps(s1: State, d: CpuId, t: Tid)
    requires At(s1, d, Idling) && !s1.cpus[d].migrating && s1.cpus[d].runq == [t]
    ensures var s2 := Put(s1, d, s1.cpus[d].(pc := Picking, locked := true));
            var s3 := Put(s2, d, s2.cpus[d].(pc := Picked(t), runq := []));
            var s4 := Put(s3, d, s3.cpus[d].(pc := Chosen(t), isidle := false, cur := t));
            && Enabled(s1, Unidle(d)) && Apply(s1, Unidle(d)) == s2
            && Enabled(s2, PickSome(d)) && Apply(s2, PickSome(d)) == s3
            && Enabled(s3, Choose(d)) && Apply(s3, Choose(d)) == s4
            && Enabled(s4, SwitchFrame(d))
            && Apply(s4, SwitchFrame(d)) == Put(s4, d, s4.cpus[d].(pc := Switched, stack := t))
  {
    assert s1.cpus[d].runq[1..] == [];
  }

  // ---------------------------------------------------------------------------
  // A run that gets there
  // ---------------------------------------------------------------------------

  ghost predicate Follows(s: State, e: Step, s': State) { Enabled(s, e) && Apply(s, e) == s' }

  ghost predicate Linked(r: seq<State>, es: seq<Step>)
  {
    |r| == |es| + 1 && forall i :: 0 <= i < |es| ==> Follows(r[i], es[i], r[i + 1])
  }

  /** The steps es lead from s through r to s'. */
  ghost predicate Leads(s: State, r: seq<State>, es: seq<Step>, s': State)
  {
    Linked(r, es) && r[0] == s && r[|es|] == s'
  }

  lemma LinkedRun(r: seq<State>, es: seq<Step>)
    requires Linked(r, es) && Init(r[0])
    ensures IsRun(r, es)
  {
    hide Enabled, Apply, Init;
    forall i | 0 <= i < |es| ensures Enabled(r[i], es[i]) && r[i + 1] == Apply(r[i], es[i]) {
      assert Follows(r[i], es[i], r[i + 1]);
    }
  }

  lemma LeadsOn(s: State, r: seq<State>, es: seq<Step>, s': State, r': seq<State>, es': seq<Step>, s'': State)
    requires Leads(s, r, es, s') && Leads(s', r', es', s'')
    ensures Leads(s, r + r'[1..], es + es', s'')
  {
    hide Follows;
    var q, f := r + r'[1..], es + es';
    forall i | 0 <= i < |f| ensures Follows(q[i], f[i], q[i + 1]) {
      if i >= |es| {
        var k := i - |es|;
        assert Follows(r'[k], es'[k], r'[k + 1]);
        assert q[i + 1] == r'[k + 1] && q[i] == r'[k];
      } else {
        assert Follows(r[i], es[i], r[i + 1]);
      }
    }
  }

  /** The thread on CPU c makes a new one, which is queued there. */
  lemma Forks(s: State, c: CpuId, t: Tid) returns (r: seq<State>, es: seq<Step>)
    requires Free(s, c) && !s.cpus[c].locked && On(s.tcpu, c, s.cpus[c].cur) && t !in s.tcpu && s.hands == []
    ensures Leads(s, r, es, State(s.cpus[c := s.cpus[c].(runq := s.cpus[c].runq + [t])], s.tcpu[t := c],
                                  s.tstate[t := S_READY], s.chans, []))
  {
    var s1 := s.(tcpu := s.tcpu[t := c], tstate := s.tstate[t := S_READY], hands := [Held(t, None, true)]);
    var s2 := s1.(hands := [Held(t, Some(c), true)]);
    var s3 := Put(s2, c, s.cpus[c].(runq := s.cpus[c].runq + [t])).(hands := []);
    assert s.hands + [Held(t, None, true)] == s1.hands;
    assert s1.hands[0 := Held(t, Some(c), true)] == s2.hands;
    assert s2.hands[..0] + s2.hands[1..] == [];
    r, es := [s, s1, s2, s3], [Fork(c, t), Aim(0), MakeRunnable(0)];
  }

  /** CPU c's thread yields, with others to run. */
  lemma Yields(s: State, c: CpuId) returns (r: seq<State>, es: seq<Step>)
    requires Free(s, c) && s.cpus[c].runq != []
    ensures var p := s.cpus[c];
            Leads(s, r, es, Put(s, c, p.(pc := Picking, locked := true, isidle := true, runq := p.runq + [p.cur]))
                            .(tstate := s.tstate[p.cur := S_READY]))
  {
    var p := s.cpus[c];
    var s1 := Put(s, c, p.(pc := Locked(Yield), locked := true));
    var s2 := Put(s1, c, s1.cpus[c].(pc := Placed(Yield), runq := p.runq + [p.cur]));
    var s3 := Put(s2, c, s2.cpus[c].(pc := Picking, isidle := true)).(tstate := s.tstate[p.cur := S_READY]);
    r, es := [s, s1, s2, s3], [SwLock(c, Yield), SwPlace(c), SwState(c)];
  }

  /** CPU c's thread goes to sleep. */
  lemma Sleeps(s: State, c: CpuId, wc: Chan) returns (r: seq<State>, es: seq<Step>)
    requires Free(s, c) && wc < |s.chans|
    ensures var p := s.cpus[c];
            Leads(s, r, es, Put(s, c, p.(pc := Picking, locked := true, isidle := true))
                            .(tstate := s.tstate[p.cur := S_SLEEP], chans := s.chans[wc := s.chans[wc] + [p.cur]]))
  {
    var p, on := s.cpus[c], SleepOn(wc);
    var s1 := Put(s, c, p.(pc := Locked(on), locked := true));
    var s2 := Put(s1, c, s1.cpus[c].(pc := Placed(on))).(chans := s.chans[wc := s.chans[wc] + [p.cur]]);
    var s3 := Put(s2, c, s2.cpus[c].(pc := Picking, isidle := true)).(tstate := s.tstate[p.cur := S_SLEEP]);
    r, es := [s, s1, s2, s3], [SwLock(c, on), SwPlace(c), SwState(c)];
  }

  /** The first thread of CPU c's queue takes over. */
  lemma TakesOver(s: State, c: CpuId) returns (r: seq<State>, es: seq<Step>)
    requires At(s, c, Picking) && s.cpus[c].runq != [] && s.cpus[c].zombies == []
    ensures var p := s.cpus[c]; var t := p.runq[0];
            Leads(s, r, es, Put(s, c, p.(pc := Running, cur := t, stack := t, isidle := false, locked := false,
                                         runq := p.runq[1..]))
                            .(tstate := s.tstate[t := S_RUN]))
  {
    var p, t := s.cpus[c], s.cpus[c].runq[0];
    var s1 := Put(s, c, p.(pc := Picked(t), runq := p.runq[1..]));
    var s2 := Put(s1, c, s1.cpus[c].(pc := Chosen(t), isidle := false, cur := t));
    var s3 := Put(s2, c, s2.cpus[c].(pc := Switched, stack := t));
    var s4 := Put(s3, c, s3.cpus[c].(pc := Unlocking)).(tstate := s.tstate[t := S_RUN]);
    var s5 := Put(s4, c, s4.cpus[c].(pc := Exorcising, locked := false));
    r := [s, s1, s2, s3, s4, s5, Put(s5, c, s5.cpus[c].(pc := Running))];
    es := [PickSome(c), Choose(c), SwitchFrame(c), SetRun(c), Unlock(c), ExorciseDone(c)];
  }

  /** CPU c finds nothing to run. */
  lemma GoesIdle(s: State, c: CpuId) returns (r: seq<State>, es: seq<Step>)
    requires At(s, c, Picking) && s.cpus[c].runq == []
    ensures Leads(s, r, es, Put(s, c, s.cpus[c].(pc := Idling, locked := false)))
  {
    r, es := [s, Put(s, c, s.cpus[c].(pc := Idling, locked := false))], [PickNone(c)];
  }

  /** The first thread on a channel is woken and queued on its CPU d. */
  lemma Wakes(s: State, wc: Chan, d: CpuId) returns (r: seq<State>, es: seq<Step>)
    requires wc < |s.chans| && s.chans[wc] != [] && s.hands == [] && On(s.tcpu, d, s.chans[wc][0])
    requires d < |s.cpus| && !s.cpus[d].locked
    ensures var p, t := s.cpus[d], s.chans[wc][0];
            Leads(s, r, es, State(s.cpus[d := p.(runq := p.runq + [t])], s.tcpu, s.tstate,
                                  s.chans[wc := s.chans[wc][1..]], []))
  {
    var t := s.chans[wc][0];
    var s1 := s.(chans := s.chans[wc := s.chans[wc][1..]], hands := [Held(t, None, false)]);
    var s2 := s1.(hands := [Held(t, Some(d), false)]);
    var s3 := Put(s2, d, s.cpus[d].(runq := s.cpus[d].runq + [t])).(hands := []);
    assert s.hands + [Held(t, None, false)] == s1.hands;
    assert s1.hands[0 := Held(t, Some(d), false)] == s2.hands;
    assert s2.hands[..0] + s2.hands[1..] == [];
    r, es := [s, s1, s2, s3], [WakeOne(wc), Aim(0), MakeRunnable(0)];
  }

  /** Threads queued on these CPUs. */
  function QueuedOn(cpus: seq<Cpu>): nat
  {
    if cpus == [] then 0 else QueuedOn(cpus[..|cpus| - 1]) + |cpus[|cpus| - 1].runq|
  }

  /** How many threads thread_consider_migration takes off CPU c's queue if nothing else happens. */
  function ToSend(s: State, c: CpuId): nat
    requires c < |s.cpus|
  {
    var share := (QueuedOn(s.cpus) + |s.cpus| - 1) / |s.cpus|;
    if |s.cpus[c].runq| < share then 0 else |s.cpus[c].runq| - share
  }

  /** Two CPUs; thread 1 belongs to the second, and threads 0 and 2 to the first. */
  function Pair(a: Cpu, b: Cpu, s0: ThreadState, s1: ThreadState, s2: ThreadState, chan: seq<Tid>): State
  {
    State([a, b], map[0 := 0, 1 := 1, 2 := 0], map[0 := s0, 1 := s1, 2 := s2], [chan], [])
  }

  function Runs(t: Tid, runq: seq<Tid>): Cpu { Cpu(Running, t, t, false, false, false, runq, [], []) }

  function Idles(t: Tid, runq: seq<Tid>): Cpu { Cpu(Idling, t, t, true, false, false, runq, [], []) }

  function Booted(): State
  {
    State([Runs(0, []), Runs(1, [])], map[0 := 0, 1 := 1], map[0 := S_RUN, 1 := S_RUN], [[]], [])
  }

  lemma BootedInit()
    ensures Init(Booted())
  {
    var s := Booted();
    assert (set c | 0 <= c < |s.cpus| :: s.cpus[c].cur) == {0, 1} by {
      assert s.cpus[0].cur == 0 && s.cpus[1].cur == 1;
    }
  }

  /** Two idle CPUs, one of which is migrating its own stale current thread. */
  function TwoIdle(): State
  {
    Pair(Idles(0, [2]).(migrating := true, victims := [0]), Idles(1, []), S_SLEEP, S_SLEEP, S_SLEEP, [1])
  }

  /** Thread 0 makes thread 2. */
  lemma Stage1() returns (r: seq<State>, es: seq<Step>)
    ensures Leads(Booted(), r, es, Pair(Runs(0, [2]), Runs(1, []), S_RUN, S_RUN, S_READY, []))
  {
    var s, s' := Booted(), Pair(Runs(0, [2]), Runs(1, []), S_RUN, S_RUN, S_READY, []);
    hide Leads;
    r, es := Forks(s, 0, 2);
    assert s.cpus[0].runq + [2] == [2];
    assert s.cpus[0 := s.cpus[0].(runq := [2])] == s'.cpus;
    assert s.tcpu[2 := 0] == s'.tcpu && s.tstate[2 := S_READY] == s'.tstate;
  }

  /** Thread 0 yields to thread 2. */
  lemma Stage2() returns (r: seq<State>, es: seq<Step>)
    ensures Leads(Pair(Runs(0, [2]), Runs(1, []), S_RUN, S_RUN, S_READY, []), r, es,
                  Pair(Runs(2, [0]), Runs(1, []), S_READY, S_RUN, S_RUN, []))
  {
    var s, s' := Pair(Runs(0, [2]), Runs(1, []), S_RUN, S_RUN, S_READY, []),
                 Pair(Runs(2, [0]), Runs(1, []), S_READY, S_RUN, S_RUN, []);
    hide Leads;
    r, es := Yields(s, 0);
    var mid := Put(s, 0, s.cpus[0].(pc := Picking, locked := true, isidle := true, runq := [2] + [0]))
               .(tstate := s.tstate[0 := S_READY]);
    var r', es' := TakesOver(mid, 0);
    assert ([2] + [0])[1..] == [0];
    assert Put(mid, 0, Runs(2, [0])).(tstate := mid.tstate[2 := S_RUN]) == s' by {
      assert mid.cpus[0 := Runs(2, [0])] == s'.cpus && mid.tstate[2 := S_RUN] == s'.tstate;
    }
    LeadsOn(s, r, es, mid, r', es', s');
    r, es := r + r'[1..], es + es';
  }

  /** Thread 2 goes to sleep, and thread 0 runs again. */
  lemma Stage3() returns (r: seq<State>, es: seq<Step>)
    ensures Leads(Pair(Runs(2, [0]), Runs(1, []), S_READY, S_RUN, S_RUN, []), r, es,
                  Pair(Runs(0, []), Runs(1, []), S_RUN, S_RUN, S_SLEEP, [2]))
  {
    var s, s' := Pair(Runs(2, [0]), Runs(1, []), S_READY, S_RUN, S_RUN, []),
                 Pair(Runs(0, []), Runs(1, []), S_RUN, S_RUN, S_SLEEP, [2]);
    hide Leads;
    r, es := Sleeps(s, 0, 0);
    var mid := Put(s, 0, s.cpus[0].(pc := Picking, locked := true, isidle := true))
               .(tstate := s.tstate[2 := S_SLEEP], chans := s.chans[0 := [2]]);
    assert s.chans[0] + [2] == [2];
    var r', es' := TakesOver(mid, 0);
    assert mid.cpus[0].runq[1..] == [];
    assert Put(mid, 0, Runs(0, [])).(tstate := mid.tstate[0 := S_RUN]) == s' by {
      assert mid.cpus[0 := Runs(0, [])] == s'.cpus && mid.tstate[0 := S_RUN] == s'.tstate && mid.chans == s'.chans;
    }
    LeadsOn(s, r, es, mid, r', es', s');
    r, es := r + r'[1..], es + es';
  }

  /** Thread 0 goes to sleep, and CPU 0 is idle. */
  lemma Stage4() returns (r: seq<State>, es: seq<Step>)
    ensures Leads(Pair(Runs(0, []), Runs(1, []), S_RUN, S_RUN, S_SLEEP, [2]), r, es,
                  Pair(Idles(0, []), Runs(1, []), S_SLEEP, S_RUN, S_SLEEP, [2, 0]))
  {
    var s, s' := Pair(Runs(0, []), Runs(1, []), S_RUN, S_RUN, S_SLEEP, [2]),
                 Pair(Idles(0, []), Runs(1, []), S_SLEEP, S_RUN, S_SLEEP, [2, 0]);
    hide Leads;
    r, es := Sleeps(s, 0, 0);
    var mid := Put(s, 0, s.cpus[0].(pc := Picking, locked := true, isidle := true))
               .(tstate := s.tstate[0 := S_SLEEP], chans := s.chans[0 := [2, 0]]);
    assert s.chans[0] + [0] == [2, 0];
    var r', es' := GoesIdle(mid, 0);
    assert Put(mid, 0, Idles(0, [])) == s' by {
      assert mid.cpus[0 := Idles(0, [])] == s'.cpus && mid.tstate == s'.tstate && mid.chans == s'.chans;
    }
    LeadsOn(s, r, es, mid, r', es', s');
    r, es := r + r'[1..], es + es';
  }

  /** Threads 2 and 0 are woken, in this order. */
  lemma Stage5() returns (r: seq<State>, es: seq<Step>)
    ensures Leads(Pair(Idles(0, []), Runs(1, []), S_SLEEP, S_RUN, S_SLEEP, [2, 0]), r, es,
                  Pair(Idles(0, [2, 0]), Runs(1, []), S_SLEEP, S_RUN, S_SLEEP, []))
  {
    var s, s' := Pair(Idles(0, []), Runs(1, []), S_SLEEP, S_RUN, S_SLEEP, [2, 0]),
                 Pair(Idles(0, [2, 0]), Runs(1, []), S_SLEEP, S_RUN, S_SLEEP, []);
    hide Leads;
    r, es := Wakes(s, 0, 0);
    var mid := Pair(Idles(0, [2]), Runs(1, []), S_SLEEP, S_RUN, S_SLEEP, [0]);
    assert s.cpus[0].runq + [2] == [2] && s.chans[0][1..] == [0];
    assert s.cpus[0 := s.cpus[0].(runq := [2])] == mid.cpus && s.chans[0 := [0]] == mid.chans;
    var r', es' := Wakes(mid, 0, 0);
    assert mid.cpus[0].runq + [0] == [2, 0] && mid.chans[0][1..] == [];
    assert mid.cpus[0 := mid.cpus[0].(runq := [2, 0])] == s'.cpus && mid.chans[0 := []] == s'.chans;
    LeadsOn(s, r, es, mid, r', es', s');
    r, es := r + r'[1..], es + es';
  }

  /** Thread 1 goes to sleep, and CPU 1 is idle too. */
  lemma Stage6() returns (r: seq<State>, es: seq<Step>)
    ensures Leads(Pair(Idles(0, [2, 0]), Runs(1, []), S_SLEEP, S_RUN, S_SLEEP, []), r, es,
                  Pair(Idles(0, [2, 0]), Idles(1, []), S_SLEEP, S_SLEEP, S_SLEEP, [1]))
  {
    var s, s' := Pair(Idles(0, [2, 0]), Runs(1, []), S_SLEEP, S_RUN, S_SLEEP, []),
                 Pair(Idles(0, [2, 0]), Idles(1, []), S_SLEEP, S_SLEEP, S_SLEEP, [1]);
    hide Leads;
    r, es := Sleeps(s, 1, 0);
    var mid := Put(s, 1, s.cpus[1].(pc := Picking, locked := true, isidle := true))
               .(tstate := s.tstate[1 := S_SLEEP], chans := s.chans[0 := [1]]);
    assert s.chans[0] + [1] == [1];
    var r', es' := GoesIdle(mid, 1);
    assert Put(mid, 1, Idles(1, [])) == s' by {
      assert mid.cpus[1 := Idles(1, [])] == s'.cpus && mid.tstate == s'.tstate && mid.chans == s'.chans;
    }
    LeadsOn(s, r, es, mid, r', es', s');
    r, es := r + r'[1..], es + es';
  }

  function BothIdle(): State { Pair(Idles(0, [2, 0]), Idles(1, []), S_SLEEP, S_SLEEP, S_SLEEP, [1]) }

  /** A timer interrupt on CPU 0: of two threads in all its share is one, so the last has to go. */
  lemma Stage7()
    ensures ToSend(BothIdle(), 0) == 1 && Follows(BothIdle(), MigCollect(0, 1), TwoIdle())
  {
    var s, a, b := BothIdle(), Idles(0, [2, 0]), Idles(1, []);
    assert s.cpus[..1] == [a] && [a][..0] == [];
    assert QueuedOn([a]) == 2 && QueuedOn(s.cpus) == 2;
    assert [2, 0][..1] == [2] && [2, 0][1..] + [] == [0];
    assert Apply(s, MigCollect(0, 1)).cpus == TwoIdle().cpus;
  }

  lemma UntilIdle() returns (r: seq<State>, es: seq<Step>)
    ensures Leads(Booted(), r, es, BothIdle())
  {
    hide Leads, Pair, Booted;
    var s := Booted();
    var s1, s2 := Pair(Runs(0, [2]), Runs(1, []), S_RUN, S_RUN, S_READY, []),
                  Pair(Runs(2, [0]), Runs(1, []), S_READY, S_RUN, S_RUN, []);
    var s3 := Pair(Runs(0, []), Runs(1, []), S_RUN, S_RUN, S_SLEEP, [2]);
    var s4, s5 := Pair(Idles(0, []), Runs(1, []), S_SLEEP, S_RUN, S_SLEEP, [2, 0]),
                  Pair(Idles(0, [2, 0]), Runs(1, []), S_SLEEP, S_RUN, S_SLEEP, []);
    r, es := Stage1();
    var r', es' := Stage2();
    r, es := Joined(s, r, es, s1, r', es', s2);
    r', es' := Stage3();
    r, es := Joined(s, r, es, s2, r', es', s3);
    r', es' := Stage4();
    r, es := Joined(s, r, es, s3, r', es', s4);
    r', es' := Stage5();
    r, es := Joined(s, r, es, s4, r', es', s5);
    r', es' := Stage6();
    r, es := Joined(s, r, es, s5, r', es', BothIdle());
  }

  lemma Joined(s: State, r: seq<State>, es: seq<Step>, s': State, r': seq<State>, es': seq<Step>, s'': State)
    returns (q: seq<State>, f: seq<Step>)
    requires Leads(s, r, es, s') && Leads(s', r', es', s'')
    ensures Leads(s, q, f, s'')
  {
    LeadsOn(s, r, es, s', r', es', s'');
    q, f := r + r'[1..], es + es';
  }

  /** Such a state is reached from boot by a migration that takes as many threads as its share asks
      for, so the test is needed. */
  lemma TwoIdlePossible() returns (r: seq<State>, es: seq<Step>)
    ensures IsRun(r, es) && es != [] && r[|es|] == TwoIdle()
    ensures |r[|es| - 1].cpus| > 0 && es[|es| - 1] == MigCollect(0, ToSend(r[|es| - 1], 0))
    ensures CanSend(TwoIdle(), 0, 1) && At(TwoIdle(), 1, Idling)
    ensures TwoIdle().cpus[0].victims[0] == TwoIdle().cpus[0].cur == TwoIdle().cpus[0].stack
    ensures !TwoIdle().cpus[1].migrating && TwoIdle().cpus[1].runq == []
  {
    BootedInit();
    Stage7();
    r, es := UntilIdle();
    hide Follows;
    assert Leads(BothIdle(), [BothIdle(), TwoIdle()], [MigCollect(0, 1)], TwoIdle());
    LeadsOn(Booted(), r, es, BothIdle(), [BothIdle(), TwoIdle()], [MigCollect(0, 1)], TwoIdle());
    r, es := r + [BothIdle(), TwoIdle()][1..], es + [MigCollect(0, 1)];
    LinkedRun(r, es);
  }
}
