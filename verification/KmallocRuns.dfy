/** Runs of the allocator: what each atomic step of kmalloc.c does for its client, and what whole
    runs of such steps, by any threads, do and do not do to a live block. */
module KmallocRuns {
  import opened Basics
  import opened PageRefs
  import opened KmallocState
  import opened KmallocSteps
  import opened KmallocLive

  /** One atomic step of some thread. */
  datatype Op =
    | Try(size: nat)                       // kmalloc: the first critical section
    | GetPage(pick: nat)                   // kmalloc: alloc_kpages for a fresh page
    | PutToUse(page: nat, size: nat)       // kmalloc: the second critical section
    | GetBig(size: nat, pick: nat)         // kmalloc: a whole-page allocation
    | Free(ptr: nat)                       // kfree: the critical section
    | FreeBig(ptr: nat)                    // kfree: the end of a whole-page free
    | ReturnPage(page: nat)                // free_kpages of a page that is no longer needed
    | Store(block: nat, addr: nat, val: nat)  // a client writes into its block

  datatype State = State(h: Heap, v: View)

  predicate IsHeld(v: View, p: nat) { p in v.roles && v.roles[p].Held? }

  /** Every page of the type for this size is full. */
  ghost predicate FullFor(h: Heap, v: View, size: nat)
    requires size < LARGEST_SUBPAGE_SIZE
  {
    var t := TypeOf(size);
    t < |v.same| && forall k :: 0 <= k < |v.same[t]| && v.same[t][k] < |h.refs| ==> h.refs[v.same[t][k]].nfree == 0
  }

  ghost predicate NoDescriptor(inuse: seq<bv32>)
  {
    |inuse| == INUSE_WORDS && forall n :: 0 <= n < NPAGEREFS ==> Marked(inuse, n)
  }

  /** A step with result r leads from (h, v) to (h', v'). A step its thread cannot take changes
      nothing; the range at `mine` is another thread's, which nobody else gives back or puts to use. */
  ghost predicate Did(h: Heap, v: View, op: Op, mine: nat, r: nat, h': Heap, v': View)
    requires Ok(h, v)
  {
    match op
    case Try(size) =>
      if r == 0 then h' == h && v' == v && (size < LARGEST_SUBPAGE_SIZE ==> FullFor(h, v, size))
      else
        && size < LARGEST_SUBPAGE_SIZE && Gained(v, v', r, size)
        && v'.roles == v.roles && h'.mem == h.mem && h'.pages == h.pages
    case GetPage(pick) =>
      && r == (if Vacant(h.pages, pick, 1) then pick else 0)
      && (if r == 0 then h' == h && v' == v
          else SameLive(v, v', {}) && v' == v.(roles := v.roles[r := Held]) && h' == GiveHeap(h, r, 1))
    case PutToUse(page, size) =>
      if r == 0 then
        && h' == h && v' == v
        && (size < LARGEST_SUBPAGE_SIZE && page != mine && IsHeld(v, page) ==> NoDescriptor(h.inuse))
      else
        && size < LARGEST_SUBPAGE_SIZE && page != mine && IsHeld(v, page) && PageOf(r) == page
        && Gained(v, v', r, size) && SameContents(h, v, h'.mem, 0) && h'.pages == h.pages
        && exists j :: v'.roles == v.roles[page := Sub(j)]
    case GetBig(size, pick) =>
      && r == (if LARGEST_SUBPAGE_SIZE <= size < ADDRESSES && Vacant(h.pages, pick, PagesFor(size)) then pick else 0)
      && (if r == 0 then h' == h && v' == v
          else Gained(v, v', r, size) && v'.roles == v.roles[r := Big(size)] && h' == GiveHeap(h, r, PagesFor(size)))
    case Free(ptr) =>
      if !IsSub(v, ptr) then h' == h && v' == v
      else
        && Lost(v, v', ptr) && SameContents(h, v, h'.mem, ptr) && h'.pages == h.pages
        && Poisoned(h'.mem, ptr, Room(h, v, ptr))
        && v'.roles == if OnlyLive(v, ptr) then v.roles[PageOf(ptr) := Held] else v.roles
    case FreeBig(ptr) =>
      if ptr == mine || !IsBig(v, ptr) then h' == h && v' == v
      else Lost(v, v', ptr) && v' == v.(roles := v.roles - {ptr}) && h' == TakeHeap(h, ptr)
    case ReturnPage(page) =>
      if page == mine || !IsHeld(v, page) then h' == h && v' == v
      else SameLive(v, v', {}) && v' == v.(roles := v.roles - {page}) && h' == TakeHeap(h, page)
    case Store(block, addr, val) =>
      && v' == v
      && h' == if Live(v, block) && block <= addr < block + Room(h, v, block) then h.(mem := h.mem[addr := val]) else h
  }

  // ---------------------------------------------------------------------------
  // One step and one block
  // ---------------------------------------------------------------------------

  /** The step is its owner's doing with the block at a. */
  predicate Touches(op: Op, a: nat) { op == Free(a) || op == FreeBig(a) || (op.Store? && op.block == a) }

  /** The bytes of a live block its client can count on (RoomEnough). */
  function Bytes(v: View, a: nat): nat { if Asked(v, a) <= ADDRESSES - PAGE_SIZE then Asked(v, a) else 0 }

  /** The block is live still, with the size asked for and its contents. */
  ghost predicate Survives(v: View, mem: map<nat, nat>, v': View, mem': map<nat, nat>, a: nat)
  {
    && Live(v', a) && Asked(v', a) == Asked(v, a)
    && forall x: nat :: a <= x < a + Bytes(v, a) && x in mem ==> x in mem' && mem'[x] == mem[x]
  }

  lemma SurvivesOn(v: View, mem: map<nat, nat>, v': View, mem': map<nat, nat>, v'': View, mem'': map<nat, nat>, a: nat)
    requires Survives(v, mem, v', mem', a) && Survives(v', mem', v'', mem'', a)
    ensures Survives(v, mem, v'', mem'', a)
  {
    hide Live, Asked;
  }

  lemma ContentsSurvive(h: Heap, v: View, v': View, mem': map<nat, nat>, except: set<nat>, b: nat, a: nat)
    requires Ok(h, v) && Live(v, a) && a !in except && a != b && SameLive(v, v', except) && SameContents(h, v, mem', b)
    ensures Survives(v, h.mem, v', mem', a)
  {
    hide Ok, Live, Asked, Room;
    RoomEnough(h, v, a);
  }

  lemma MemorySurvives(h: Heap, v: View, v': View, mem': map<nat, nat>, except: set<nat>, a: nat)
    requires Live(v, a) && a !in except && SameLive(v, v', except) && mem' == h.mem
    ensures Survives(v, h.mem, v', mem', a)
  {
    hide Live, Asked;
  }

  lemma StoreSurvives(h: Heap, v: View, block: nat, addr: nat, val: nat, a: nat)
    requires Ok(h, v) && Live(v, a) && Live(v, block) && a != block && block <= addr < block + Room(h, v, block)
    ensures Survives(v, h.mem, v, h.mem[addr := val], a)
  {
    hide Ok, Live, Asked, Room;
    SameOffOne(h.mem, addr, val, block, block + Room(h, v, block));
    BlockContents(h, v, h.mem[addr := val], block);
    SameLiveSelf(v);
    ContentsSurvive(h, v, v, h.mem[addr := val], {}, block, a);
  }

  lemma NotAtZero(h: Heap, v: View, a: nat)
    requires Ok(h, v) && Live(v, a)
    ensures a != 0
  {
    hide Ok;
    WhichPage(h, v, a);
  }

  /** A step leaves every live block alone that its thread does not free or write. */
  lemma StepSpares(h: Heap, v: View, op: Op, mine: nat, r: nat, h': Heap, v': View, a: nat)
    requires Ok(h, v) && Did(h, v, op, mine, r, h', v') && Live(v, a) && !Touches(op, a)
    ensures Survives(v, h.mem, v', h'.mem, a)
  {
    hide Ok, Live, Asked, Room, SameLive, SameContents, Vacant, PagesFor, FullFor, NoDescriptor, IsSub, IsBig,
         OnlyLive, Poisoned, PageOf, Survives;
    SameLiveSelf(v);
    NotAtZero(h, v, a);
    if h' == h && v' == v {
      MemorySurvives(h, v, v', h'.mem, {}, a);
    } else {
      match op {
        case Try(size) => MemorySurvives(h, v, v', h'.mem, {r}, a);
        case GetPage(pick) => MemorySurvives(h, v, v', h'.mem, {}, a);
        case PutToUse(page, size) => ContentsSurvive(h, v, v', h'.mem, {r}, 0, a);
        case GetBig(size, pick) => MemorySurvives(h, v, v', h'.mem, {r}, a);
        case Free(ptr) => ContentsSurvive(h, v, v', h'.mem, {ptr}, ptr, a);
        case FreeBig(ptr) => MemorySurvives(h, v, v', h'.mem, {ptr}, a);
        case ReturnPage(page) => MemorySurvives(h, v, v', h'.mem, {}, a);
        case Store(block, addr, val) => StoreSurvives(h, v, block, addr, val, a);
      }
    }
  }

  /** A step makes at most its own result live. */
  lemma StepNothingNew(h: Heap, v: View, op: Op, mine: nat, r: nat, h': Heap, v': View, a: nat)
    requires Ok(h, v) && Did(h, v, op, mine, r, h', v') && Live(v', a) && !Live(v, a)
    ensures a == r
  {
    hide Ok, Live, Asked, Room, SameContents, Vacant, PagesFor, FullFor, NoDescriptor, IsSub, IsBig, OnlyLive,
         Poisoned, PageOf;
  }

  /** A page held for a thread's own use has no live block in it. */
  lemma HeldContents(h: Heap, v: View, mem': map<nat, nat>, p: nat)
    requires Ok(h, v) && IsHeld(v, p) && SameOff(h.mem, mem', p, p + PAGE_SIZE)
    ensures SameContents(h, v, mem', 0)
  {
    hide Ok, Live;
    forall a: nat, x: nat | Live(v, a) && a <= x < a + Room(h, v, a) && x in h.mem ensures !(p <= x < p + PAGE_SIZE) {
      HeldApart(h, v, p, a);
    }
  }

  lemma HeldApart(h: Heap, v: View, p: nat, a: nat)
    requires Ok(h, v) && IsHeld(v, p) && Live(v, a)
    ensures a + Room(h, v, a) <= p || p + PAGE_SIZE <= a
  {
    hide Ok;
    Supply(h, v);
    if IsSub(v, a) {
      SubBlock(h, v, a);
      BlocksApart(BlockType(h.refs[v.roles[PageOf(a)].index]), a % PAGE_SIZE, a % PAGE_SIZE);
    }
  }

  lemma ShapeOf(h: Heap, v: View)
    requires Ok(h, v)
    ensures Shape(h, v)
  {
  }

  // ---------------------------------------------------------------------------
  // Runs
  // ---------------------------------------------------------------------------

  /** A step, and the range that its thread must leave alone, or 0. */
  datatype Turn = Turn(op: Op, mine: nat)

  function By(ops: seq<Op>, mine: nat): (turns: seq<Turn>)
    ensures |turns| == |ops| && forall i :: 0 <= i < |ops| ==> turns[i] == Turn(ops[i], mine)
  {
    seq(|ops|, i requires 0 <= i < |ops| => Turn(ops[i], mine))
  }

  ghost predicate DidAt(run: seq<State>, turns: seq<Turn>, rs: seq<nat>, i: nat)
    requires |run| == |turns| + 1 == |rs| + 1 && i < |turns| && Ok(run[i].h, run[i].v)
  {
    Did(run[i].h, run[i].v, turns[i].op, turns[i].mine, rs[i], run[i + 1].h, run[i + 1].v)
  }

  /** The states gone through, one after another, and the results of the steps. */
  ghost predicate IsRun(run: seq<State>, turns: seq<Turn>, rs: seq<nat>)
  {
    && |run| == |turns| + 1 == |rs| + 1
    && (forall i :: 0 <= i < |run| ==> Ok(run[i].h, run[i].v))
    && (forall i :: 0 <= i < |turns| ==> DidAt(run, turns, rs, i))
  }

  /** A run from s to s'. */
  ghost predicate Runs(s: State, run: seq<State>, turns: seq<Turn>, rs: seq<nat>, s': State)
  {
    IsRun(run, turns, rs) && run[0] == s && run[|turns|] == s'
  }

  /** No step frees or writes the block. */
  predicate Spared(turns: seq<Turn>, a: nat) { forall i :: 0 <= i < |turns| ==> !Touches(turns[i].op, a) }

  lemma {:induction false} RunSpares(run: seq<State>, turns: seq<Turn>, rs: seq<nat>, k: nat, a: nat)
    requires IsRun(run, turns, rs) && k <= |turns| && Live(run[0].v, a) && Spared(turns, a)
    ensures Survives(run[0].v, run[0].h.mem, run[k].v, run[k].h.mem, a)
  {
    hide Ok, Did, Live, Asked, Survives;
    if k == 0 {
      SameLiveSelf(run[0].v);
      MemorySurvives(run[0].h, run[0].v, run[0].v, run[0].h.mem, {}, a);
    } else {
      RunSpares(run, turns, rs, k - 1, a);
      assert DidAt(run, turns, rs, k - 1);
      StillLive(run[0].v, run[0].h.mem, run[k - 1].v, run[k - 1].h.mem, a);
      StepSpares(run[k - 1].h, run[k - 1].v, turns[k - 1].op, turns[k - 1].mine, rs[k - 1], run[k].h, run[k].v, a);
      SurvivesOn(run[0].v, run[0].h.mem, run[k - 1].v, run[k - 1].h.mem, run[k].v, run[k].h.mem, a);
    }
  }

  lemma StillLive(v: View, mem: map<nat, nat>, v': View, mem': map<nat, nat>, a: nat)
    requires Survives(v, mem, v', mem', a)
    ensures Live(v', a)
  {
  }

  /** What is live later was live before or came out of one of the steps between. */
  lemma {:induction false} RunNothingNew(run: seq<State>, turns: seq<Turn>, rs: seq<nat>, j: nat, k: nat, a: nat)
    requires IsRun(run, turns, rs) && j <= k <= |turns| && Live(run[k].v, a)
    ensures Live(run[j].v, a) || a in rs[j..k]
  {
    hide Ok, Did, Live;
    if j < k {
      if Live(run[k - 1].v, a) {
        RunNothingNew(run, turns, rs, j, k - 1, a);
        assert rs[j..k] == rs[j..k - 1] + [rs[k - 1]];
      } else {
        assert DidAt(run, turns, rs, k - 1);
        StepNothingNew(run[k - 1].h, run[k - 1].v, turns[k - 1].op, turns[k - 1].mine, rs[k - 1], run[k].h, run[k].v,
                       a);
        assert rs[j..k][k - 1 - j] == a;
      }
    }
  }

  ghost predicate HasRole(v: View, p: nat, role: Role) { p in v.roles && v.roles[p] == role && !role.Sub? }

  lemma VacantNew(h: Heap, v: View, p: nat, n: nat)
    requires Ok(h, v) && Vacant(h.pages, p, n)
    ensures p !in v.roles
  {
    hide Ok;
    Supply(h, v);
    GiveSupply(h.pages, p, n);
  }

  /** The others leave the range of a waiting thread alone. */
  lemma StepKeepsRole(h: Heap, v: View, op: Op, mine: nat, r: nat, h': Heap, v': View, role: Role)
    requires Ok(h, v) && Did(h, v, op, mine, r, h', v') && HasRole(v, mine, role)
    ensures HasRole(v', mine, role)
  {
    hide Ok, Live, Asked, Room, SameLive, SameContents, Vacant, PagesFor, FullFor, NoDescriptor, OnlyLive, Poisoned,
         PageOf, Gained, Lost;
    if op.GetPage? && r != 0 {
      VacantNew(h, v, r, 1);
    } else if op.GetBig? && r != 0 {
      VacantNew(h, v, r, PagesFor(op.size));
    }
  }

  lemma {:induction false} RunKeepsRole(run: seq<State>, turns: seq<Turn>, rs: seq<nat>, j: nat, k: nat, mine: nat,
                                        role: Role)
    requires IsRun(run, turns, rs) && j <= k <= |turns| && HasRole(run[j].v, mine, role)
    requires forall i :: j <= i < k ==> turns[i].mine == mine
    ensures HasRole(run[k].v, mine, role)
  {
    hide Ok, Did, HasRole;
    if j < k {
      RunKeepsRole(run, turns, rs, j, k - 1, mine, role);
      assert DidAt(run, turns, rs, k - 1);
      StepKeepsRole(run[k - 1].h, run[k - 1].v, turns[k - 1].op, mine, rs[k - 1], run[k].h, run[k].v, role);
    }
  }

  lemma RunStart(s: State)
    requires Ok(s.h, s.v)
    ensures Runs(s, [s], [], [], s)
  {
    hide Ok;
  }

  function Last(rs: seq<nat>): nat { if rs == [] then 0 else rs[|rs| - 1] }

  /** One run's states followed by those of the next, which starts where it ends. */
  function Onward(run: seq<State>, run': seq<State>): seq<State> { if run' == [] then run else run + run'[1..] }

  lemma RunJoin(s: State, run: seq<State>, turns: seq<Turn>, rs: seq<nat>, s': State,
                run': seq<State>, turns': seq<Turn>, rs': seq<nat>, s'': State)
    requires Runs(s, run, turns, rs, s') && Runs(s', run', turns', rs', s'')
    ensures Runs(s, Onward(run, run'), turns + turns', rs + rs', s'')
    ensures Last(rs + rs') == if rs' == [] then Last(rs) else Last(rs')
  {
    hide Ok, Did;
    var r, t, x := Onward(run, run'), turns + turns', rs + rs';
    var n := |turns|;
    forall i | 0 <= i < |r| ensures Ok(r[i].h, r[i].v) {
      assert r[i] == if i < |run| then run[i] else run'[i - n];
    }
    forall i | 0 <= i < |t| ensures DidAt(r, t, x, i) {
      if i < n {
        assert DidAt(run, turns, rs, i);
        assert r[i] == run[i] && r[i + 1] == run[i + 1];
      } else {
        assert DidAt(run', turns', rs', i - n);
        assert r[i] == run'[i - n] && r[i + 1] == run'[i + 1 - n];
      }
    }
  }

  lemma RunOne(s: State, turn: Turn, r: nat, s': State)
    requires Ok(s.h, s.v) && Ok(s'.h, s'.v) && Did(s.h, s.v, turn.op, turn.mine, r, s'.h, s'.v)
    ensures Runs(s, [s, s'], [turn], [r], s')
  {
    hide Ok, Did;
    assert DidAt([s, s'], [turn], [r], 0);
  }

  lemma RunStep(s: State, run: seq<State>, turns: seq<Turn>, rs: seq<nat>, s': State, turn: Turn, r: nat, s'': State)
    requires Runs(s, run, turns, rs, s') && Ok(s'.h, s'.v) && Ok(s''.h, s''.v)
    requires Did(s'.h, s'.v, turn.op, turn.mine, r, s''.h, s''.v)
    ensures Runs(s, run + [s''], turns + [turn], rs + [r], s'')
  {
    hide Ok, Did, IsRun;
    RunOne(s', turn, r, s'');
    RunJoin(s, run, turns, rs, s', [s', s''], [turn], [r], s'');
    assert [s', s''][1..] == [s''];
  }

  lemma RunSize(s: State, run: seq<State>, turns: seq<Turn>, rs: seq<nat>, s': State)
    requires Runs(s, run, turns, rs, s')
    ensures |run| == |turns| + 1 == |rs| + 1 && Ok(s.h, s.v) && Ok(s'.h, s'.v) && run[0] == s && run[|turns|] == s'
  {
    hide Ok, DidAt;
  }

  /** Over any run by any threads, a block that is not freed or written stays as it is. */
  lemma RunsSpare(s: State, run: seq<State>, turns: seq<Turn>, rs: seq<nat>, s': State, a: nat)
    requires Runs(s, run, turns, rs, s') && Live(s.v, a) && Spared(turns, a)
    ensures Survives(s.v, s.h.mem, s'.v, s'.h.mem, a)
  {
    hide IsRun, Live, Survives, Spared;
    RunSize(s, run, turns, rs, s');
    RunSpares(run, turns, rs, |turns|, a);
  }

  lemma SparedSum(t: seq<Turn>, t': seq<Turn>, a: nat)
    ensures Spared(t + t', a) <==> Spared(t, a) && Spared(t', a)
  {
    if Spared(t + t', a) {
      forall i | 0 <= i < |t| ensures !Touches(t[i].op, a) {
        assert (t + t')[i] == t[i];
      }
      forall i | 0 <= i < |t'| ensures !Touches(t'[i].op, a) {
        assert (t + t')[i + |t|] == t'[i];
      }
    }
  }

  // ---------------------------------------------------------------------------
  // Whole calls, with other threads in between
  // ---------------------------------------------------------------------------

  /** No step of the others frees or writes the block. */
  predicate LeftAlone(ops: seq<Op>, a: nat) { forall i :: 0 <= i < |ops| ==> !Touches(ops[i], a) }

  lemma AloneSpared(ops: seq<Op>, mine: nat, a: nat)
    requires LeftAlone(ops, a)
    ensures Spared(By(ops, mine), a)
  {
  }

  lemma OneSpared(op: Op, a: nat)
    requires !Touches(op, a)
    ensures Spared([Turn(op, 0)], a)
  {
  }

  // The steps of subpage_kmalloc up to the end of its first critical section, up to the page
  // allocator's answer, up to the end of its second critical section, and up to the page's return.

  function FirstPart(size: nat): seq<Turn> { [Turn(Try(size), 0)] }

  function SecondPart(size: nat, pick: nat, before: seq<Op>): seq<Turn>
  {
    FirstPart(size) + By(before, 0) + [Turn(GetPage(pick), 0)]
  }

  function ThirdPart(size: nat, pick: nat, before: seq<Op>, after: seq<Op>): seq<Turn>
  {
    SecondPart(size, pick, before) + By(after, pick) + [Turn(PutToUse(pick, size), 0)]
  }

  function LastPart(size: nat, pick: nat, before: seq<Op>, after: seq<Op>, late: seq<Op>): seq<Turn>
  {
    ThirdPart(size, pick, before, after) + By(late, pick) + [Turn(ReturnPage(pick), 0)]
  }

  /** kmalloc's steps and result: it stops at the first step that settles it. */
  ghost predicate KmallocCall(size: nat, pick: nat, before: seq<Op>, after: seq<Op>, late: seq<Op>,
                              turns: seq<Turn>, rs: seq<nat>, ptr: nat)
  {
    if size >= LARGEST_SUBPAGE_SIZE then turns == [Turn(GetBig(size, pick), 0)] && ptr == Last(rs)
    else
      || (turns == FirstPart(size) && ptr == Last(rs) != 0)
      || (turns == SecondPart(size, pick, before) && ptr == Last(rs) == 0)
      || (turns == ThirdPart(size, pick, before, after) && ptr == Last(rs) != 0)
      || (turns == LastPart(size, pick, before, after, late) && ptr == 0)
  }

  lemma PartsJoin(size: nat, pick: nat, before: seq<Op>, after: seq<Op>, late: seq<Op>)
    ensures FirstPart(size) + (By(before, 0) + [Turn(GetPage(pick), 0)]) == SecondPart(size, pick, before)
    ensures SecondPart(size, pick, before) + (By(after, pick) + [Turn(PutToUse(pick, size), 0)]) ==
            ThirdPart(size, pick, before, after)
    ensures ThirdPart(size, pick, before, after) + (By(late, pick) + [Turn(ReturnPage(pick), 0)]) ==
            LastPart(size, pick, before, after, late)
  {
    hide By;
  }

  lemma KmallocTurnsSpare(size: nat, pick: nat, before: seq<Op>, after: seq<Op>, late: seq<Op>, a: nat)
    requires LeftAlone(before, a) && LeftAlone(after, a) && LeftAlone(late, a)
    ensures Spared([Turn(GetBig(size, pick), 0)], a) && Spared(FirstPart(size), a)
            && Spared(SecondPart(size, pick, before), a)
    ensures Spared(ThirdPart(size, pick, before, after), a) && Spared(LastPart(size, pick, before, after, late), a)
  {
    hide Spared, LeftAlone, By;
    OneSpared(GetBig(size, pick), a);
    OneSpared(Try(size), a);
    AloneSpared(before, 0, a);
    SparedSum(FirstPart(size), By(before, 0), a);
    OneSpared(GetPage(pick), a);
    SparedSum(FirstPart(size) + By(before, 0), [Turn(GetPage(pick), 0)], a);
    AloneSpared(after, pick, a);
    SparedSum(SecondPart(size, pick, before), By(after, pick), a);
    OneSpared(PutToUse(pick, size), a);
    SparedSum(SecondPart(size, pick, before) + By(after, pick), [Turn(PutToUse(pick, size), 0)], a);
    AloneSpared(late, pick, a);
    SparedSum(ThirdPart(size, pick, before, after), By(late, pick), a);
    OneSpared(ReturnPage(pick), a);
    SparedSum(ThirdPart(size, pick, before, after) + By(late, pick), [Turn(ReturnPage(pick), 0)], a);
  }

  /** Whatever the others do meanwhile, kmalloc leaves every live block alone that they do not free or write. */
  lemma KmallocSpares(s: State, size: nat, pick: nat, before: seq<Op>, after: seq<Op>, late: seq<Op>,
                      run: seq<State>, turns: seq<Turn>, rs: seq<nat>, ptr: nat, s': State, a: nat)
    requires Runs(s, run, turns, rs, s') && KmallocCall(size, pick, before, after, late, turns, rs, ptr)
    requires Live(s.v, a) && LeftAlone(before, a) && LeftAlone(after, a) && LeftAlone(late, a)
    ensures Survives(s.v, s.h.mem, s'.v, s'.h.mem, a)
  {
    hide IsRun, Live, Survives, Spared, LeftAlone, By, FirstPart, SecondPart, ThirdPart, LastPart;
    KmallocTurnsSpare(size, pick, before, after, late, a);
    RunsSpare(s, run, turns, rs, s', a);
  }

  /** kmalloc when nobody else acts: one block is gained or none, live contents are untouched, and no
      page is leaked. */
  ghost predicate Undisturbed(s: State, size: nat, ptr: nat, s': State)
    requires Ok(s.h, s.v)
  {
    && (if ptr != 0 then Gained(s.v, s'.v, ptr, size) else SameLive(s.v, s'.v, {}))
    && SameContents(s.h, s.v, s'.h.mem, 0) && SameHeld(s.v, s'.v)
  }

  lemma UndisturbedNothing(s: State, size: nat)
    requires Ok(s.h, s.v)
    ensures Undisturbed(s, size, 0, s)
  {
    hide Ok, SameLive, SameContents, SameHeld;
    SameLiveSelf(s.v);
    ContentsSelf(s.h, s.v);
    SameHeldRoles(s.v, s.v);
  }

  lemma UndisturbedSame(s: State, size: nat, s': State)
    requires Ok(s.h, s.v) && s'.v == s.v && s'.h.mem == s.h.mem
    ensures Undisturbed(s, size, 0, s')
  {
    hide Ok, SameLive, SameContents, SameHeld;
    UndisturbedNothing(s, size);
  }

  lemma FirstRun(s: State, size: nat, r: nat, s': State)
    requires Ok(s.h, s.v) && Ok(s'.h, s'.v) && Did(s.h, s.v, Try(size), 0, r, s'.h, s'.v)
    ensures Runs(s, [s, s'], FirstPart(size), [r], s') && Last([r]) == r
  {
    hide Ok, Did, Runs;
    RunOne(s, Turn(Try(size), 0), r, s');
  }

  lemma UndisturbedGain(s: State, size: nat, ptr: nat, s': State)
    requires Ok(s.h, s.v) && ptr != 0 && Did(s.h, s.v, Try(size), 0, ptr, s'.h, s'.v)
    ensures Undisturbed(s, size, ptr, s')
  {
    hide Ok, Gained, SameContents, SameHeld, FullFor;
    ContentsSelf(s.h, s.v);
    SameHeldRoles(s.v, s'.v);
  }

  lemma UndisturbedBig(s: State, size: nat, ptr: nat, s': State)
    requires Ok(s.h, s.v) && ptr != 0 && Gained(s.v, s'.v, ptr, size) && ptr !in s.v.roles
    requires s'.v == s.v.(roles := s.v.roles[ptr := Big(size)]) && s'.h.mem == s.h.mem
    ensures Undisturbed(s, size, ptr, s')
  {
    hide Ok, Gained, SameContents, SameHeld;
    ContentsSelf(s.h, s.v);
    BigHeld(s.v, ptr, size);
  }

  lemma UndisturbedPage(s: State, mid: State, size: nat, p: nat, ptr: nat, s': State)
    requires Ok(s.h, s.v) && Ok(mid.h, mid.v) && p !in s.v.roles && ptr != 0 && Vacant(s.h.pages, p, 1)
    requires mid.h.mem == s.h.mem && mid.v == s.v.(roles := s.v.roles[p := Held]) && SameLive(s.v, mid.v, {})
    requires Did(mid.h, mid.v, PutToUse(p, size), 0, ptr, s'.h, s'.v) && SameOff(s.h.mem, s'.h.mem, p, p + PAGE_SIZE)
    ensures Undisturbed(s, size, ptr, s')
  {
    hide Ok, SameLive, SameContents, SameHeld, SameOff, Vacant, Gained;
    GainedLater(s.v, mid.v, s'.v, ptr, size);
    VacantContents(s.h, s.v, s'.h.mem, p);
    HeldForAWhile(s.v, s'.v, p);
  }

  /** kfree's steps. A whole-page block goes back after it was not found among the pages; a subpage
      block's page goes back after the critical section, if it has no other live block. */
  ghost predicate KfreeCall(v: View, ptr: nat, others: seq<Op>, turns: seq<Turn>)
  {
    turns == if !IsSub(v, ptr) then By(others, ptr) + [Turn(FreeBig(ptr), 0)]
             else if OnlyLive(v, ptr) then
               [Turn(Free(ptr), 0)] + By(others, PageOf(ptr)) + [Turn(ReturnPage(PageOf(ptr)), 0)]
             else [Turn(Free(ptr), 0)]
  }

  /** Whatever the others do meanwhile, kfree leaves every other block alone that they do not free or write. */
  lemma KfreeSpares(s: State, ptr: nat, others: seq<Op>, run: seq<State>, turns: seq<Turn>, rs: seq<nat>, s': State,
                    a: nat)
    requires Runs(s, run, turns, rs, s') && KfreeCall(s.v, ptr, others, turns)
    requires Live(s.v, a) && a != ptr && LeftAlone(others, a)
    ensures Survives(s.v, s.h.mem, s'.v, s'.h.mem, a)
  {
    hide IsRun, Live, Survives, Spared, LeftAlone, By, IsSub, OnlyLive, PageOf;
    var p := PageOf(ptr);
    OneSpared(FreeBig(ptr), a);
    OneSpared(Free(ptr), a);
    OneSpared(ReturnPage(p), a);
    AloneSpared(others, ptr, a);
    AloneSpared(others, p, a);
    SparedSum(By(others, ptr), [Turn(FreeBig(ptr), 0)], a);
    SparedSum([Turn(Free(ptr), 0)], By(others, p), a);
    SparedSum([Turn(Free(ptr), 0)] + By(others, p), [Turn(ReturnPage(p), 0)], a);
    RunsSpare(s, run, turns, rs, s', a);
  }

  /** Afterwards a whole-page block is free, and its pages are back with the page allocator. */
  lemma KfreeFreesBig(s: State, ptr: nat, others: seq<Op>, run: seq<State>, turns: seq<Turn>, rs: seq<nat>, s': State)
    requires Runs(s, run, turns, rs, s') && KfreeCall(s.v, ptr, others, turns) && Live(s.v, ptr) && !IsSub(s.v, ptr)
             && ptr != 0
    ensures !Live(s'.v, ptr) && ptr !in s'.h.pages
  {
    hide Ok, Did, SameLive;
    var n := |others|;
    RunKeepsRole(run, turns, rs, 0, n, ptr, s.v.roles[ptr]);
    assert DidAt(run, turns, rs, n);
    BigGone(run[n], ptr, rs[n], s');
  }

  lemma BigGone(s: State, ptr: nat, r: nat, s': State)
    requires Ok(s.h, s.v) && IsBig(s.v, ptr) && ptr != 0 && Did(s.h, s.v, FreeBig(ptr), 0, r, s'.h, s'.v)
    ensures !Live(s'.v, ptr) && ptr !in s'.h.pages
  {
    hide Ok, Live, SameLive;
  }

  /** Afterwards a subpage block is free, unless another thread has been given it meanwhile, and a page
      without live blocks is back with the page allocator. */
  lemma KfreeFreesSub(s: State, ptr: nat, others: seq<Op>, run: seq<State>, turns: seq<Turn>, rs: seq<nat>, s': State)
    requires Runs(s, run, turns, rs, s') && KfreeCall(s.v, ptr, others, turns) && IsSub(s.v, ptr)
    ensures Live(s'.v, ptr) ==> OnlyLive(s.v, ptr) && ptr in rs
    ensures OnlyLive(s.v, ptr) ==> PageOf(ptr) !in s'.h.pages
  {
    hide Ok, Did, Live, OnlyLive, IsSub, PageOf;
    var p, n := PageOf(ptr), |others|;
    assert DidAt(run, turns, rs, 0);
    SubFreed(s, ptr, rs[0], run[1]);
    if OnlyLive(s.v, ptr) {
      RunKeepsRole(run, turns, rs, 1, n + 1, p, Held);
      assert DidAt(run, turns, rs, n + 1);
      PageGone(run[n + 1], p, rs[n + 1], s');
      if Live(s'.v, ptr) {
        RunNothingNew(run, turns, rs, 1, n + 1, ptr);
        assert forall x :: x in rs[1..n + 1] ==> x in rs;
      }
    }
  }

  lemma SubFreed(s: State, ptr: nat, r: nat, s': State)
    requires Ok(s.h, s.v) && IsSub(s.v, ptr) && Did(s.h, s.v, Free(ptr), 0, r, s'.h, s'.v)
    ensures !Live(s'.v, ptr) && (OnlyLive(s.v, ptr) ==> HasRole(s'.v, PageOf(ptr), Held)) && PageOf(ptr) != 0
  {
    hide Ok, SameLive, SameContents, Poisoned, Room, OnlyLive;
    WhichPage(s.h, s.v, ptr);
  }

  lemma PageGone(s: State, p: nat, r: nat, s': State)
    requires Ok(s.h, s.v) && HasRole(s.v, p, Held) && p != 0 && Did(s.h, s.v, ReturnPage(p), 0, r, s'.h, s'.v)
    ensures p !in s'.h.pages && forall a :: Live(s'.v, a) ==> Live(s.v, a)
  {
    hide Ok, Live;
  }

  // ---------------------------------------------------------------------------
  // From the empty heap
  // ---------------------------------------------------------------------------

  function EmptyHeap(): Heap
  {
    Heap(seq(NPAGEREFS, _ => PageRef(Null, Null, 0, 0, 0)), seq(INUSE_WORDS, _ => 0), seq(NSIZES, _ => Null), Null,
         map[], map[])
  }

  function EmptyView(): View
  {
    View([], seq(NSIZES, _ => []), seq(NPAGEREFS, _ => []), seq(NPAGEREFS, _ => map[]), map[])
  }

  lemma EmptyOk()
    ensures Ok(EmptyHeap(), EmptyView()) && Busy(EmptyView(), Null) && forall a :: !Live(EmptyView(), a)
  {
    var h := EmptyHeap();
    forall n | 0 <= n < NPAGEREFS ensures !Marked(h.inuse, n) {
      assert h.inuse[n / 32] == 0;
    }
  }

  /** One kmalloc of 2^32 - 1 bytes on the empty heap: it succeeds, and has no room at all. */
  lemma NoRoomAtAll(p: nat)
    requires p % PAGE_SIZE == 0 && 0 < p <= ADDRESSES - PAGE_SIZE
    ensures var size := ADDRESSES - 1;
            var h, v := GiveHeap(EmptyHeap(), p, PagesFor(size)), EmptyView().(roles := map[p := Big(size)]);
            && Ok(EmptyHeap(), EmptyView()) && Did(EmptyHeap(), EmptyView(), GetBig(size, p), 0, p, h, v)
            && Ok(h, v) && Live(v, p) && Asked(v, p) == size && Room(h, v, p) == 0
  {
    EmptyOk();
    var size, h, v := ADDRESSES - 1, EmptyHeap(), EmptyView();
    assert Vacant(h.pages, p, PagesFor(size));
    hide Ok;
    GiveKeeps(h, v, p, PagesFor(size), Big(size));
    assert v.roles[p := Big(size)] == map[p := Big(size)];
    GiveLive(v, p, Big(size));
    RoomEnough(GiveHeap(h, p, PagesFor(size)), v.(roles := v.roles[p := Big(size)]), p);
  }
}
