/** The page allocator's own steps, clients' writes, and what each step does to the live blocks. */
module KmallocLive {
  import opened Basics
  import opened PageRefs
  import opened KmallocState
  import opened KmallocSteps

  // ---------------------------------------------------------------------------
  // The page allocator
  // ---------------------------------------------------------------------------

  /** A range the page allocator may give out: aligned, and overlapping nothing given out before. */
  predicate Vacant(pages: map<nat, nat>, p: nat, n: nat)
  {
    && p % PAGE_SIZE == 0 && 0 < p && p + Extent(n) <= ADDRESSES
    && forall q :: q in pages ==> p + Extent(n) <= q || q + Extent(pages[q]) <= p
  }

  lemma VacantPositive(pages: map<nat, nat>, p: nat, n: nat)
    ensures Vacant(pages, p, n) ==> p != 0 && p % PAGE_SIZE == 0
  {
  }

  function GiveHeap(h: Heap, p: nat, n: nat): Heap
  {
    var more: map<nat, nat> := h.pages[p := n];
    h.(pages := more)
  }

  function TakeHeap(h: Heap, p: nat): Heap { h.(pages := h.pages - {p}) }

  /** The pages changed, but no descriptor's. */
  lemma SupplyChange(h: Heap, v: View, pages': map<nat, nat>, roles': map<nat, Role>)
    requires Ok(h, v) && SupplyOk(pages') && RolesOk(pages', roles')
    requires forall p :: (p in v.roles && v.roles[p].Sub?) || (p in roles' && roles'[p].Sub?) ==>
               p in v.roles && p in roles' && roles'[p] == v.roles[p]
    ensures Ok(h.(pages := pages'), v.(roles := roles'))
  {
    var h', v' := h.(pages := pages'), v.(roles := roles');
    hide Linked, PageOk, Marked, SupplyOk, RolesOk;
  }

  lemma GiveSupply(pages: map<nat, nat>, p: nat, n: nat)
    requires SupplyOk(pages) && Vacant(pages, p, n)
    ensures p !in pages && SupplyOk(pages[p := n])
  {
    hide Extent;
  }

  lemma GiveKeeps(h: Heap, v: View, p: nat, n: nat, role: Role)
    requires Ok(h, v) && Vacant(h.pages, p, n)
    requires match role
             case Sub(_) => false
             case Big(asked) => LARGEST_SUBPAGE_SIZE <= asked < ADDRESSES && n == PagesFor(asked)
             case Held => n == 1
    ensures p !in v.roles && Ok(GiveHeap(h, p, n), v.(roles := v.roles[p := role]))
  {
    hide Ok, PagesFor, SupplyOk, Vacant;
    Supply(h, v);
    GiveSupply(h.pages, p, n);
    SupplyChange(h, v, h.pages[p := n], v.roles[p := role]);
  }

  lemma TakeKeeps(h: Heap, v: View, p: nat)
    requires Ok(h, v) && p in v.roles && !v.roles[p].Sub?
    ensures p in h.pages && Ok(TakeHeap(h, p), v.(roles := v.roles - {p}))
  {
    hide Ok, PagesFor, Extent;
    Supply(h, v);
    assert (h.pages - {p}).Keys == h.pages.Keys - {p};
    assert (v.roles - {p}).Keys == v.roles.Keys - {p};
    SupplyChange(h, v, h.pages - {p}, v.roles - {p});
  }

  // ---------------------------------------------------------------------------
  // Clients writing into their blocks
  // ---------------------------------------------------------------------------

  /** Memory outside the freelists of all pages may change. */
  lemma MemKeeps(h: Heap, v: View, mem': map<nat, nat>)
    requires Ok(h, v)
    requires forall j :: j in v.all && j < NPAGEREFS && j < |h.refs| && j < |v.free| ==>
               Chain(mem', PageAddr(h.refs[j]), v.free[j])
    ensures Ok(h.(mem := mem'), v)
  {
    hide Ok, ListsLinked, PagesOk, SameSet, SupplyOk, RolesOk, Chain, BlocksOk;
    OkParts(h, v);
    var h' := h.(mem := mem');
    assert PagesOk(h', v) by { MemPages(h, v, mem'); }
    SameSetKept(h, v, h', v);
    assert ListsLinked(h', v) by { MemLists(h, v, mem'); }
    OkIntro(h', v);
  }

  lemma MemLists(h: Heap, v: View, mem': map<nat, nat>)
    requires Shape(h, v) && ListsLinked(h, v)
    ensures ListsLinked(h.(mem := mem'), v)
  {
    hide Linked;
  }

  lemma MemPages(h: Heap, v: View, mem': map<nat, nat>)
    requires Ok(h, v) && Shape(h, v)
    requires forall j :: j in v.all && j < NPAGEREFS ==> Chain(mem', PageAddr(h.refs[j]), v.free[j])
    ensures PagesOk(h.(mem := mem'), v)
  {
    hide Ok, Chain, BlocksOk;
    forall j | j in v.all
      ensures && j < NPAGEREFS && PageOk(h.refs[j], mem', v.free[j], v.used[j])
              && PageAddr(h.refs[j]) in v.roles && v.roles[PageAddr(h.refs[j])] == Sub(j) {
      Managed(h, v, j);
    }
    forall p | p in v.roles && v.roles[p].Sub?
      ensures v.roles[p].index in v.all && v.roles[p].index < NPAGEREFS && PageAddr(h.refs[v.roles[p].index]) == p {
      ManagedBy(h, v, p);
    }
  }

  /** The bytes of a live block are on no freelist. */
  lemma FreeNotLive(h: Heap, v: View, a: nat, j: nat, o: nat)
    requires Ok(h, v) && Live(v, a) && j in v.all && j < |v.free| && o in v.free[j] && j < |h.refs|
    ensures !(a <= PageAddr(h.refs[j]) + o < a + Room(h, v, a))
  {
    hide Ok, Chain;
    Managed(h, v, j);
    Supply(h, v);
    var p, t := PageAddr(h.refs[j]), BlockType(h.refs[j]);
    if IsSub(v, a) {
      SubBlock(h, v, a);
      var i := v.roles[PageOf(a)].index;
      BlocksApart(BlockType(h.refs[i]), a % PAGE_SIZE, a % PAGE_SIZE);
      if i == j {
        BlocksApart(t, o, a % PAGE_SIZE);
        BlocksApart(t, a % PAGE_SIZE, o);
      } else {
        hide PageOk;
        PagesApart(h, v, PageOf(a), p);
      }
    }
  }

  /** A client may write anywhere in its own block. */
  lemma WriteKeeps(h: Heap, v: View, a: nat, x: nat, val: nat)
    requires Ok(h, v) && Live(v, a) && a <= x < a + Room(h, v, a)
    ensures Ok(h.(mem := h.mem[x := val]), v)
  {
    hide Ok, Chain, PageOk, Live, Room;
    var mem': map<nat, nat> := h.mem[x := val];
    forall j | j in v.all && j < NPAGEREFS && j < |h.refs| && j < |v.free|
      ensures Chain(mem', PageAddr(h.refs[j]), v.free[j]) {
      Managed(h, v, j);
      assert Chain(h.mem, PageAddr(h.refs[j]), v.free[j]) by { PageChain(h, v, j); }
      forall o | o in v.free[j] ensures PageAddr(h.refs[j]) + o < x || x + 1 <= PageAddr(h.refs[j]) + o {
        FreeNotLive(h, v, a, j, o);
      }
      ChainKept(h.mem, mem', PageAddr(h.refs[j]), v.free[j], x, x + 1);
    }
    MemKeeps(h, v, mem');
  }

  lemma PageChain(h: Heap, v: View, j: nat)
    requires Ok(h, v) && j in v.all && j < NPAGEREFS && j < |h.refs| && j < |v.free|
    ensures Chain(h.mem, PageAddr(h.refs[j]), v.free[j])
  {
    hide Ok, Chain;
    Managed(h, v, j);
  }

  // ---------------------------------------------------------------------------
  // Live blocks after each step
  // ---------------------------------------------------------------------------

  /** Blocks other than these stay as they are: live or not, and with the size asked for. */
  ghost predicate SameLive(v: View, v': View, except: set<nat>)
  {
    forall a :: a !in except ==> (Live(v', a) <==> Live(v, a)) && (Live(v, a) ==> Asked(v', a) == Asked(v, a))
  }

  lemma InPageAddress(p: nat, o: nat)
    requires p % PAGE_SIZE == 0 && o < PAGE_SIZE
    ensures PageOf(p + o) == p && (p + o) % PAGE_SIZE == o
  {
  }

  /** One block of one page changes hands. */
  lemma OneUsed(h: Heap, v: View, v': View, j: nat, o: nat)
    requires Ok(h, v) && Shape(h, v) && j in v.all && j < NPAGEREFS && o < PAGE_SIZE && v'.roles == v.roles
    requires |v'.used| == |v.used| && forall i :: 0 <= i < |v.used| && i != j ==> v'.used[i] == v.used[i]
    requires forall x :: x != o ==> (x in v'.used[j] <==> x in v.used[j])
    requires forall x :: x != o && x in v.used[j] ==> v'.used[j][x] == v.used[j][x]
    ensures SameLive(v, v', {PageAddr(h.refs[j]) + o})
    ensures Live(v, PageAddr(h.refs[j]) + o) <==> o in v.used[j]
    ensures Live(v', PageAddr(h.refs[j]) + o) <==> o in v'.used[j]
    ensures o in v'.used[j] ==> Asked(v', PageAddr(h.refs[j]) + o) == v'.used[j][o]
    ensures o in v.used[j] ==> Asked(v, PageAddr(h.refs[j]) + o) == v.used[j][o]
  {
    hide Ok, PageOk;
    Managed(h, v, j);
    Supply(h, v);
    var p := PageAddr(h.refs[j]);
    InPageAddress(p, o);
    forall a | a != p + o
      ensures (Live(v', a) <==> Live(v, a)) && (Live(v, a) ==> Asked(v', a) == Asked(v, a)) {
      if PageOf(a) in v.roles && v.roles[PageOf(a)].Sub? {
        ManagedBy(h, v, PageOf(a));
      }
    }
    assert IsBig(v, p + o) ==> o == 0;
  }

  lemma PopLive(h: Heap, v: View, j: nat, asked: nat)
    requires Ok(h, v) && Shape(h, v) && j in v.all && j < NPAGEREFS && v.free[j] != []
    ensures var a, v' := PageAddr(h.refs[j]) + v.free[j][0], PopView(v, j, asked);
            !Live(v, a) && Live(v', a) && Asked(v', a) == asked && SameLive(v, v', {a})
  {
    hide Ok, SameLive, Live, Asked;
    Managed(h, v, j);
    var o := v.free[j][0];
    assert o in v.free[j];
    hide PageOk;
    InPage(h, v, j, o);
    assert o !in v.used[j] by { FreeNotUsed(h, v, j, o); }
    OneUsed(h, v, PopView(v, j, asked), j, o);
  }

  /** What the first block of page j's freelist looks like in memory. */
  ghost predicate FirstIs(h: Heap, v: View, j: nat)
  {
    && Shape(h, v) && j < NPAGEREFS && h.refs[j].nfree > 0 && v.free[j] != []
    && h.refs[j].freeOffset == v.free[j][0] < PAGE_SIZE && 0 < PageAddr(h.refs[j])
    && h.refs[j].nfree == |v.free[j]| && (|v.free[j]| > 1 ==> v.free[j][1] < PAGE_SIZE)
    && PageAddr(h.refs[j]) + v.free[j][0] in h.mem
    && (h.mem[PageAddr(h.refs[j]) + v.free[j][0]] ==
        if |v.free[j]| > 1 then PageAddr(h.refs[j]) + v.free[j][1] else 0)
  }

  lemma FirstFree(h: Heap, v: View, j: nat)
    requires Ok(h, v) && j in v.all && j < |h.refs| && h.refs[j].nfree > 0
    ensures FirstIs(h, v, j)
  {
    hide Ok, Chain, LinkTo;
    Managed(h, v, j);
    var free := v.free[j];
    ChainFirst(h.mem, PageAddr(h.refs[j]), free);
    assert free[0] in free;
    InPage(h, v, j, free[0]);
    if |free| > 1 {
      InPage(h, v, j, free[1]);
    }
  }

  /** A block that was not live is now, and no other block is affected. */
  ghost predicate Gained(v: View, v': View, a: nat, asked: nat)
  {
    a != 0 && !Live(v, a) && Live(v', a) && Asked(v', a) == asked && SameLive(v, v', {a})
  }

  /** Everything about taking the first free block of page j. */
  lemma PopAll(h: Heap, v: View, j: nat, asked: nat)
    requires Ok(h, v) && Busy(v, At(j)) && j in v.all && FirstIs(h, v, j)
    requires BlockType(h.refs[j]) < NSIZES && asked <= Size(BlockType(h.refs[j]))
    ensures Ok(PopHeap(h, v, j), PopView(v, j, asked)) && Busy(PopView(v, j, asked), Null)
    ensures Gained(v, PopView(v, j, asked), PageAddr(h.refs[j]) + v.free[j][0], asked)
    ensures PageOf(PageAddr(h.refs[j]) + v.free[j][0]) == PageAddr(h.refs[j])
  {
    hide Ok, Live, Asked, SameLive, PageOk;
    PopKeeps(h, v, j, asked);
    PopLive(h, v, j, asked);
    InPageAddress(PageAddr(h.refs[j]), v.free[j][0]);
    assert v.free[j][0] in PopView(v, j, asked).used[j];
  }

  /** A whole-page block has its pages. */
  lemma BigRoom(h: Heap, v: View, p: nat)
    requires Ok(h, v) && p in v.roles && v.roles[p].Big?
    ensures Live(v, p) && Room(h, v, p) == PagesFor(v.roles[p].asked) * PAGE_SIZE
  {
    hide Ok, PagesFor;
    Supply(h, v);
  }

  lemma GainedLive(v: View, v': View, a: nat, asked: nat)
    requires Gained(v, v', a, asked)
    ensures Live(v', a)
  {
  }

  lemma PopRoles(v: View, j: nat, asked: nat)
    requires j < |v.free| == |v.used| && v.free[j] != []
    ensures PopView(v, j, asked).roles == v.roles && PopView(v, j, asked).all == v.all
  {
  }

  lemma FreeNotUsed(h: Heap, v: View, j: nat, o: nat)
    requires Ok(h, v) && Shape(h, v) && j in v.all && j < NPAGEREFS && o in v.free[j]
    ensures o !in v.used[j]
  {
    hide Ok;
    Managed(h, v, j);
  }

  lemma PushLive(h: Heap, v: View, j: nat, o: nat)
    requires Ok(h, v) && Shape(h, v) && j in v.all && j < NPAGEREFS && o in v.used[j]
    ensures var a, v' := PageAddr(h.refs[j]) + o, PushView(v, j, o);
            Live(v, a) && !Live(v', a) && SameLive(v, v', {a})
  {
    hide Ok, SameLive, Live, Asked;
    Managed(h, v, j);
    assert IsBlock(BlockType(h.refs[j]), o);
    hide PageOk;
    OneUsed(h, v, PushView(v, j, o), j, o);
  }

  lemma DropLive(h: Heap, v: View, j: nat, t: nat, k: nat, m: nat)
    requires Ok(h, v) && Shape(h, v) && j in v.all && j < NPAGEREFS && v.used[j] == map[]
    requires k < |v.all| && t < |v.same| && m < |v.same[t]|
    ensures SameLive(v, DropView(v, j, t, k, m, PageAddr(h.refs[j])), {})
  {
    hide Ok, PageOk;
    Managed(h, v, j);
  }

  lemma InstallLive(h: Heap, v: View, j: nat, p: nat, t: nat)
    requires Ok(h, v) && Shape(h, v) && j < NPAGEREFS && j !in v.all && t < NSIZES
    requires p in v.roles && v.roles[p].Held?
    ensures SameLive(v, InstallView(v, j, p, t), {})
  {
    hide Ok, Descending;
    var v' := InstallView(v, j, p, t);
    forall a ensures (Live(v', a) <==> Live(v, a)) && (Live(v, a) ==> Asked(v', a) == Asked(v, a)) {
      if PageOf(a) in v.roles && v.roles[PageOf(a)].Sub? {
        ManagedBy(h, v, PageOf(a));
      }
    }
  }

  lemma GiveLive(v: View, p: nat, role: Role)
    requires p !in v.roles && !role.Sub?
    ensures var v' := v.(roles := v.roles[p := role]);
            && SameLive(v, v', {p}) && (p % PAGE_SIZE == 0 ==> !Live(v, p) && (Live(v', p) <==> role.Big?))
            && (p % PAGE_SIZE == 0 && role.Big? ==> Asked(v', p) == role.asked)
  {
  }

  lemma TakeLive(v: View, p: nat)
    requires p in v.roles && !v.roles[p].Sub? && p % PAGE_SIZE == 0
    ensures var v' := v.(roles := v.roles - {p});
            SameLive(v, v', {p}) && !Live(v', p) && (Live(v, p) <==> v.roles[p].Big?)
  {
  }

  // ---------------------------------------------------------------------------
  // Walking the lists
  // ---------------------------------------------------------------------------

  /** Descriptor j is the k-th of the list of block type t, and next is what follows it. */
  ghost predicate OnSame(h: Heap, v: View, t: nat, k: nat, j: nat, next: Ptr)
  {
    && Shape(h, v) && t < NSIZES && k < |v.same[t]| && v.same[t][k] == j && j < NPAGEREFS && j in v.all
    && BlockType(h.refs[j]) == t && h.refs[j].nextSame == next == PtrAt(v.same[t], k + 1)
  }

  lemma SameAt(h: Heap, v: View, t: nat, k: nat, j: nat)
    requires Ok(h, v) && t < |v.same| && k < |v.same[t]| && v.same[t][k] == j && j < |h.refs|
    ensures OnSame(h, v, t, k, j, h.refs[j].nextSame)
  {
    hide PagesOk, SupplyOk, RolesOk, Marked, BlockType;
    assert Shape(h, v);
    assert Linked(NextSame(h.refs), h.bases[t], v.same[t]);
    assert j in v.same[t];
    assert j in v.all;
  }

  lemma SameStart(h: Heap, v: View, t: nat)
    requires Ok(h, v) && t < NSIZES
    ensures Shape(h, v) && h.bases[t] == PtrAt(v.same[t], 0)
    ensures forall k :: 0 <= k < |v.same[t]| ==> v.same[t][k] < NPAGEREFS
  {
    hide PagesOk, SupplyOk, RolesOk, Marked, BlockType;
    assert Linked(NextSame(h.refs), h.bases[t], v.same[t]);
  }

  ghost predicate OnAll(h: Heap, v: View, k: nat, j: nat, next: Ptr)
  {
    && Shape(h, v) && k < |v.all| && v.all[k] == j && j < NPAGEREFS && j in v.all
    && BlockType(h.refs[j]) < NSIZES && h.refs[j].nextAll == next == PtrAt(v.all, k + 1)
  }

  lemma AllAt(h: Heap, v: View, k: nat, j: nat)
    requires Ok(h, v) && k < |v.all| && v.all[k] == j && j < |h.refs|
    ensures OnAll(h, v, k, j, h.refs[j].nextAll)
  {
    hide PagesOk, SupplyOk, RolesOk, Marked, BlockType;
    assert Shape(h, v);
    assert Linked(NextAll(h.refs), h.allbase, v.all);
    assert j in v.all;
  }

  lemma AllStart(h: Heap, v: View)
    requires Ok(h, v)
    ensures Shape(h, v) && h.allbase == PtrAt(v.all, 0)
    ensures forall k :: 0 <= k < |v.all| ==> v.all[k] < NPAGEREFS
  {
    hide PagesOk, SupplyOk, RolesOk, Marked, BlockType;
    assert Linked(NextAll(h.refs), h.allbase, v.all);
  }

  function BlockAt(p: nat, s: nat, m: nat): nat { p + m * s }

  /** The words ThreadFreelist has written into the first i blocks of page p. */
  ghost predicate Threaded(mem: map<nat, nat>, p: nat, s: nat, i: nat)
  {
    forall m :: 0 <= m < i ==>
      BlockAt(p, s, m) in mem && mem[BlockAt(p, s, m)] == if m == 0 then 0 else BlockAt(p, s, m - 1)
  }

  lemma BlockAtApart(p: nat, s: nat, i: nat, m: nat, n: nat)
    requires s > 0 && i < n && m < n && i != m
    ensures BlockAt(p, s, m) != BlockAt(p, s, i)
  {
    Multiples(s, n, i, m);
  }

  lemma ThreadOne(mem: map<nat, nat>, p: nat, s: nat, i: nat, n: nat)
    requires Threaded(mem, p, s, i) && 0 < i < n && s > 0
    ensures Threaded(mem[BlockAt(p, s, i) := BlockAt(p, s, i - 1)], p, s, i + 1)
    ensures p <= BlockAt(p, s, i) < p + n * s
  {
    Multiples(s, n, i, 0);
    assert p <= BlockAt(p, s, i) < p + n * s;
    hide BlockAt;
    forall m | 0 <= m < i ensures BlockAt(p, s, m) != BlockAt(p, s, i) {
      BlockAtApart(p, s, i, m, n);
    }
  }

  lemma ThreadedAt(mem: map<nat, nat>, p: nat, s: nat, i: nat, m: nat)
    requires Threaded(mem, p, s, i) && m < i
    ensures BlockAt(p, s, m) in mem && mem[BlockAt(p, s, m)] == if m == 0 then 0 else BlockAt(p, s, m - 1)
  {
    hide BlockAt;
    if m == 0 {
      assert BlockAt(p, s, m) in mem;
    } else {
      assert BlockAt(p, s, m) in mem;
    }
  }

  lemma DescendingAt(p: nat, t: nat, k: nat)
    requires t < NSIZES && k < PerPage(t)
    ensures p + Descending(t)[k] == BlockAt(p, Size(t), PerPage(t) - 1 - k)
  {
    hide Size, PerPage;
  }

  lemma ThreadDone(mem: map<nat, nat>, p: nat, t: nat)
    requires t < NSIZES && Threaded(mem, p, Size(t), PerPage(t))
    ensures Chain(mem, p, Descending(t))
  {
    hide PerPage, Size, BlockAt, Descending, Threaded;
    var l, n := Descending(t), PerPage(t);
    forall k | 0 <= k < n
      ensures p + l[k] in mem && mem[p + l[k]] == if k + 1 < n then p + l[k + 1] else 0 {
      DescendingAt(p, t, k);
      var m, s := n - 1 - k, Size(t);
      ThreadedAt(mem, p, s, n, m);
      if m > 0 {
        DescendingAt(p, t, k + 1);
        assert PerPage(t) - 1 - (k + 1) == m - 1;
      }
    }
  }

  /** A descriptor of page p with room for a block of type t. */
  predicate Usable(r: PageRef, p: nat, t: nat) { r.nfree > 0 && BlockType(r) == t && PageAddr(r) == p }

  /** Everything about putting page p to use through descriptor j, before its first block goes out. */
  lemma InstallAll(h: Heap, v: View, inuse': seq<bv32>, mem': map<nat, nat>, j: nat, p: nat, t: nat)
    requires Ok(h, v) && Busy(v, Null) && Shape(h, v) && Prepared(h, v, inuse', mem', j, p, t)
    ensures Ok(InstallHeap(h, inuse', mem', j, p, t), InstallView(v, j, p, t))
    ensures Busy(InstallView(v, j, p, t), At(j)) && SameLive(v, InstallView(v, j, p, t), {})
    ensures j in InstallView(v, j, p, t).all && Usable(FreshRef(h, p, t), p, t)
    ensures InstallView(v, j, p, t).roles == v.roles[p := Sub(j)]
  {
    hide Ok, SameLive, PageOk, Descending;
    InstallKeeps(h, v, inuse', mem', j, p, t);
    OkParts(h, v);
    assert j !in v.all;
    InstallLive(h, v, j, p, t);
  }

  lemma GainedLater(v: View, v': View, v'': View, a: nat, asked: nat)
    requires SameLive(v, v', {}) && Gained(v', v'', a, asked)
    ensures Gained(v, v'', a, asked)
  {
    hide Live, Asked;
  }

  lemma ThreadFirst(mem: map<nat, nat>, p: nat, s: nat)
    requires p in mem && mem[p] == 0
    ensures Threaded(mem, p, s, 1)
  {
  }

  lemma SameOffSelf(mem: map<nat, nat>, lo: nat, hi: nat)
    ensures SameOff(mem, mem, lo, hi)
  {
  }

  lemma PageAligned(h: Heap, v: View, p: nat)
    requires Ok(h, v) && p in v.roles
    ensures Shape(h, v) && p % PAGE_SIZE == 0 && 0 < p
  {
    hide Ok;
    OkParts(h, v);
  }

  // ---------------------------------------------------------------------------
  // Taking a block back
  // ---------------------------------------------------------------------------

  /** A live block is one no more, and no other block is affected. */
  ghost predicate Lost(v: View, v': View, a: nat)
  {
    Live(v, a) && !Live(v', a) && SameLive(v, v', {a})
  }

  /** The scan of kfree stops at page j exactly when the block is one of its blocks. */
  ghost predicate BlockOf(h: Heap, v: View, j: nat, ptr: nat)
  {
    && Shape(h, v) && j in v.all && j < NPAGEREFS && BlockType(h.refs[j]) < NSIZES
    && PageAddr(h.refs[j]) <= ptr && ptr - PageAddr(h.refs[j]) < PAGE_SIZE && PageOf(ptr) == PageAddr(h.refs[j])
    && ptr - PageAddr(h.refs[j]) in v.used[j] && IsBlock(BlockType(h.refs[j]), ptr - PageAddr(h.refs[j]))
  }

  lemma FoundPage(h: Heap, v: View, j: nat, ptr: nat)
    requires Ok(h, v) && Live(v, ptr) && j in v.all && j < |h.refs|
    requires PageAddr(h.refs[j]) <= ptr < PageAddr(h.refs[j]) + PAGE_SIZE
    ensures BlockOf(h, v, j, ptr) && IsSub(v, ptr)
  {
    hide Ok, PageOk;
    Managed(h, v, j);
    var p := PageAddr(h.refs[j]);
    InPageAddress(p, ptr - p);
    if IsBig(v, ptr) {
      Supply(h, v);
      PagesApart(h, v, p, ptr);
    }
    SubBlock(h, v, ptr);
  }

  /** A block of a page is found by the scan. */
  lemma NotFound(h: Heap, v: View, ptr: nat)
    requires Ok(h, v) && IsSub(v, ptr)
    ensures exists k :: 0 <= k < |v.all| && v.all[k] < |h.refs| &&
              PageAddr(h.refs[v.all[k]]) <= ptr < PageAddr(h.refs[v.all[k]]) + PAGE_SIZE
  {
    hide Ok;
    SubBlock(h, v, ptr);
    var j := v.roles[PageOf(ptr)].index;
    assert j in v.all;
    var k :| 0 <= k < |v.all| && v.all[k] == j;
  }

  /** Everything about linking a block back into its page. */
  lemma PushAll(h: Heap, v: View, mem': map<nat, nat>, j: nat, ptr: nat)
    requires Ok(h, v) && Busy(v, Null) && BlockOf(h, v, j, ptr)
    requires BlockFreed(h.mem, mem', PageAddr(h.refs[j]), ptr - PageAddr(h.refs[j]), Size(BlockType(h.refs[j])),
                        v.free[j])
    ensures var o := ptr - PageAddr(h.refs[j]);
            && Ok(PushHeap(h, mem', j, o), PushView(v, j, o)) && Busy(PushView(v, j, o), At(j))
            && Lost(v, PushView(v, j, o), ptr) && PushView(v, j, o).roles == v.roles
            && (PushView(v, j, o).used[j] == map[] <==> h.refs[j].nfree + 1 == PerPage(BlockType(h.refs[j])))
            && (PushView(v, j, o).used[j] != map[] ==> Busy(PushView(v, j, o), Null))
  {
    hide Ok, Live, Asked, SameLive, PageOk, BlockFreed;
    var o := ptr - PageAddr(h.refs[j]);
    PushKeeps(h, v, mem', j, o);
    PushLive(h, v, j, o);
    LastBlockFreed(h, v, j, o);
  }

  lemma LastBlockFreed(h: Heap, v: View, j: nat, o: nat)
    requires Ok(h, v) && Shape(h, v) && j in v.all && j < NPAGEREFS && o in v.used[j] && BlockType(h.refs[j]) < NSIZES
    ensures v.used[j] - {o} == map[] <==> h.refs[j].nfree + 1 == PerPage(BlockType(h.refs[j]))
    ensures h.refs[j].nfree + 1 <= PerPage(BlockType(h.refs[j]))
  {
    hide Ok;
    Managed(h, v, j);
    assert v.used[j] == (v.used[j] - {o})[o := v.used[j][o]];
  }

  /** Everything about giving up a page without live blocks. */
  lemma DropAll(h: Heap, v: View, h': Heap, j: nat, t: nat, k: nat, m: nat)
    requires Ok(h, v) && Busy(v, At(j)) && Shape(h, v) && Dropped(h, v, h', j, t, k, m) && j < NPAGEREFS
    requires v.used[j] == map[]
    ensures var v' := DropView(v, j, t, k, m, PageAddr(h.refs[j]));
            Ok(h', v') && Busy(v', Null) && SameLive(v, v', {}) && v'.roles == v.roles[PageAddr(h.refs[j]) := Held]
  {
    hide Ok, SameLive, Live, Linked, Marked, OnlyLinks, PageOk;
    DropKeeps(h, v, h', j, t, k, m);
    assert j in v.all;
    DropLive(h, v, j, t, k, m);
    ListDistinct(h, v);
    WithoutDistinct(v.all, k);
  }

  lemma LostLater(v: View, v': View, v'': View, a: nat)
    requires Lost(v, v', a) && SameLive(v', v'', {})
    ensures Lost(v, v'', a)
  {
    hide Live, Asked;
  }

  // ---------------------------------------------------------------------------
  // Taking a descriptor off the lists
  // ---------------------------------------------------------------------------

  /** The m-th descriptor of list t is off it, and the other lists are as before. */
  ghost predicate SameDropped(refs: seq<PageRef>, bases: seq<Ptr>, v: View, t: nat, m: nat)
  {
    && |bases| == NSIZES == |v.same| && t < NSIZES && m < |v.same[t]|
    && Linked(NextSame(refs), bases[t], Without(v.same[t], m))
    && forall u :: 0 <= u < NSIZES && u != t ==> Linked(NextSame(refs), bases[u], v.same[u])
  }

  ghost predicate SameLinked(refs: seq<PageRef>, bases: seq<Ptr>, v: View)
  {
    && |bases| == NSIZES == |v.same|
    && (forall u :: 0 <= u < NSIZES ==> Linked(NextSame(refs), bases[u], v.same[u]))
    && (forall t, u, k :: 0 <= t < NSIZES && 0 <= u < NSIZES && t != u && 0 <= k < |v.same[t]| ==>
        v.same[t][k] !in v.same[u])
  }

  lemma SameLists(h: Heap, v: View)
    requires Ok(h, v)
    ensures SameLinked(h.refs, h.bases, v) && Linked(NextAll(h.refs), h.allbase, v.all)
  {
    OkParts(h, v);
    hide Ok, PagesOk, SupplyOk, RolesOk, Linked, SameSet;
    forall t, u, k | 0 <= t < NSIZES && 0 <= u < NSIZES && t != u && 0 <= k < |v.same[t]|
      ensures v.same[t][k] !in v.same[u] {
      assert v.same[t][k] in v.same[t];
      OnlyItsList(h, v, v.same[t][k], t, u);
    }
  }

  lemma NextOf(refs: seq<PageRef>, head: Ptr, l: seq<nat>, k: nat)
    requires Linked(NextSame(refs), head, l) && k < |l|
    ensures l[k] < |refs| && refs[l[k]].nextSame == PtrAt(l, k + 1)
  {
  }

  lemma NextAllOf(refs: seq<PageRef>, head: Ptr, l: seq<nat>, k: nat)
    requires Linked(NextAll(refs), head, l) && k < |l|
    ensures l[k] < |refs| && refs[l[k]].nextAll == PtrAt(l, k + 1)
  {
  }

  lemma UnlinkFirst(refs: seq<PageRef>, bases: seq<Ptr>, v: View, t: nat)
    requires SameLinked(refs, bases, v) && t < NSIZES && v.same[t] != [] && v.same[t][0] < |refs|
    ensures SameDropped(refs, bases[t := refs[v.same[t][0]].nextSame], v, t, 0)
  {
    hide Linked, Without;
    LinkedDropFirst(NextSame(refs), bases[t], v.same[t]);
  }

  lemma UnlinkLater(refs: seq<PageRef>, bases: seq<Ptr>, v: View, t: nat, m: nat, refs': seq<PageRef>)
    requires SameLinked(refs, bases, v) && t < NSIZES && 0 < m < |v.same[t]|
    requires v.same[t][m] < |refs| && v.same[t][m - 1] < |refs|
    requires refs' == refs[v.same[t][m - 1] := refs[v.same[t][m - 1]].(nextSame := refs[v.same[t][m]].nextSame)]
    ensures SameDropped(refs', bases, v, t, m)
  {
    var next := NextSame(refs);
    assert NextSame(refs') == next[v.same[t][m - 1] := next[v.same[t][m]]];
    hide Linked, Without, NextSame;
    LinkedDropLater(next, bases[t], v.same[t], m);
    forall u | 0 <= u < NSIZES && u != t ensures Linked(NextSame(refs'), bases[u], v.same[u]) {
      assert v.same[t][m - 1] !in v.same[u];
      LinkedApart(next, NextSame(refs'), bases[u], v.same[u]);
    }
  }

  lemma UnlinkAllLater(refs: seq<PageRef>, base: Ptr, l: seq<nat>, k: nat, refs': seq<PageRef>)
    requires Linked(NextAll(refs), base, l) && 0 < k < |l| && l[k] < |refs| && l[k - 1] < |refs|
    requires refs' == refs[l[k - 1] := refs[l[k - 1]].(nextAll := refs[l[k]].nextAll)]
    ensures Linked(NextAll(refs'), base, Without(l, k))
  {
    var next := NextAll(refs);
    assert NextAll(refs') == next[l[k - 1] := next[l[k]]];
    hide Linked, Without;
    LinkedDropLater(next, base, l, k);
  }

  lemma UnlinkAllFirst(refs: seq<PageRef>, base: Ptr, l: seq<nat>)
    requires Linked(NextAll(refs), base, l) && l != [] && l[0] < |refs|
    ensures Linked(NextAll(refs), refs[l[0]].nextAll, Without(l, 0))
  {
    hide Linked, Without;
    LinkedDropFirst(NextAll(refs), base, l);
  }

  lemma OnlyNextSame(refs: seq<PageRef>, i: nat, next: Ptr)
    requires i < |refs|
    ensures var refs' := refs[i := refs[i].(nextSame := next)];
            OnlyLinks(refs, refs') && NextAll(refs') == NextAll(refs)
  {
  }

  lemma OnlyNextAll(refs: seq<PageRef>, i: nat, next: Ptr)
    requires i < |refs|
    ensures var refs' := refs[i := refs[i].(nextAll := next)];
            OnlyLinks(refs, refs') && NextSame(refs') == NextSame(refs)
  {
  }

  lemma OnlyLinksSelf(refs: seq<PageRef>)
    ensures OnlyLinks(refs, refs)
  {
  }

  lemma ListHead(next: seq<Ptr>, head: Ptr, l: seq<nat>)
    requires Linked(next, head, l)
    ensures head == PtrAt(l, 0)
  {
  }

  // ---------------------------------------------------------------------------
  // Contents of live blocks
  // ---------------------------------------------------------------------------

  /** Memory inside live blocks other than one is untouched. */
  ghost predicate SameContents(h: Heap, v: View, mem': map<nat, nat>, except: nat)
    requires Ok(h, v)
  {
    forall a: nat, x: nat :: Live(v, a) && a != except && a <= x < a + Room(h, v, a) && x in h.mem ==>
      x in mem' && mem'[x] == h.mem[x]
  }

  /** Writing inside one's own block. */
  lemma BlockContents(h: Heap, v: View, mem': map<nat, nat>, b: nat)
    requires Ok(h, v) && Live(v, b) && SameOff(h.mem, mem', b, b + Room(h, v, b))
    ensures SameContents(h, v, mem', b)
  {
    hide Ok, Live;
    forall a: nat, x: nat | Live(v, a) && a != b && a <= x < a + Room(h, v, a) && x in h.mem
      ensures !(b <= x < b + Room(h, v, b)) {
      if a < b {
        LiveApart(h, v, a, b);
      } else {
        LiveApart(h, v, b, a);
      }
    }
  }

  lemma Listed(h: Heap, v: View, j: nat)
    requires Ok(h, v) && j in v.all && j < |h.refs|
    ensures Shape(h, v) && j < NPAGEREFS && Marked(h.inuse, j) && BlockType(h.refs[j]) < NSIZES
    ensures j in v.same[BlockType(h.refs[j])]
  {
    hide PagesOk, SupplyOk, RolesOk, ListsLinked, Marked;
    var t := BlockType(h.refs[j]);
    assert t < NSIZES;
    assert j in v.same[t] <==> j in v.all && BlockType(h.refs[j]) == t;
  }

  lemma OnlyLinksTwice(r: seq<PageRef>, r': seq<PageRef>, r'': seq<PageRef>)
    requires OnlyLinks(r, r') && OnlyLinks(r', r'')
    ensures OnlyLinks(r, r'')
  {
    forall i | 0 <= i < |r| ensures SameButLinks(r[i], r''[i]) {
      assert SameButLinks(r[i], r'[i]) && SameButLinks(r'[i], r''[i]);
    }
  }

  lemma NotBig(h: Heap, v: View, j: nat, b: nat)
    requires Ok(h, v) && j in v.all && j < |h.refs| && PageOf(b) == PageAddr(h.refs[j])
    ensures !IsBig(v, b)
  {
    hide Ok, PageOk;
    Managed(h, v, j);
    Supply(h, v);
    assert b % PAGE_SIZE == 0 ==> PageOf(b) == b;
  }

  /** A live block in a managed page has the size of that page's type. */
  lemma RoomInPage(h: Heap, v: View, j: nat, a: nat)
    requires Ok(h, v) && Live(v, a) && j in v.all && j < |h.refs| && PageOf(a) == PageAddr(h.refs[j])
    ensures BlockType(h.refs[j]) < NSIZES && Room(h, v, a) == Size(BlockType(h.refs[j]))
  {
    hide Ok, PageOk;
    NotBig(h, v, j, a);
    Managed(h, v, j);
    Listed(h, v, j);
  }

  lemma OnlyKey(m: map<nat, nat>, o: nat, x: nat)
    requires m - {o} == map[] && x in m
    ensures x == o
  {
    assert x != o ==> x in m - {o};
  }

  /** The block at ptr is the only live one in its page. */
  ghost predicate OnlyLive(v: View, ptr: nat)
  {
    forall b: nat :: Live(v, b) && PageOf(b) == PageOf(ptr) ==> b == ptr
  }

  /** A block is the last live one of its page exactly when no other is recorded for it. */
  lemma LastLive(h: Heap, v: View, j: nat, ptr: nat)
    requires Ok(h, v) && BlockOf(h, v, j, ptr)
    ensures v.used[j] - {ptr - PageAddr(h.refs[j])} == map[] <==>
            OnlyLive(v, ptr)
  {
    hide Ok, PageOk;
    Managed(h, v, j);
    Supply(h, v);
    var p, o := PageAddr(h.refs[j]), ptr - PageAddr(h.refs[j]);
    if v.used[j] - {o} == map[] {
      forall b: nat | Live(v, b) && PageOf(b) == p ensures b == ptr {
        NotBig(h, v, j, b);
        OnlyKey(v.used[j], o, b % PAGE_SIZE);
      }
    } else {
      var x :| x in v.used[j] - {o};
      assert x < PAGE_SIZE by { UsedInPage(h, v, j, x); }
      InPageAddress(p, x);
      assert Live(v, p + x);
    }
  }

  lemma UsedInPage(h: Heap, v: View, j: nat, o: nat)
    requires Ok(h, v) && j in v.all && j < |v.used| && o in v.used[j]
    ensures o < PAGE_SIZE
  {
    hide Ok;
    Managed(h, v, j);
  }

  lemma BlockRoom(h: Heap, v: View, j: nat, ptr: nat)
    requires Ok(h, v) && BlockOf(h, v, j, ptr)
    ensures Live(v, ptr) && Room(h, v, ptr) == Size(BlockType(h.refs[j]))
  {
    hide Ok, PageOk;
    Managed(h, v, j);
    InPageAddress(PageAddr(h.refs[j]), ptr - PageAddr(h.refs[j]));
  }

  /** The words of a block after its first, which holds the freelist link, are overwritten. */
  ghost predicate Poisoned(mem: map<nat, nat>, ptr: nat, size: nat)
  {
    forall i :: 0 < i < size / 4 ==> ptr + 4 * i in mem && mem[ptr + 4 * i] == 0xdeadbeef
  }

  lemma PoisonedStill(mem: map<nat, nat>, ptr: nat, size: nat, link: nat)
    requires Poisoned(mem, ptr, size)
    ensures Poisoned(mem[ptr := link], ptr, size)
  {
  }

  /** What kfree's two writes leave behind. */
  lemma Freed(mem: map<nat, nat>, mem': map<nat, nat>, p: nat, o: nat, size: nat, free: seq<nat>)
    requires SameOff(mem, mem', p + o, p + o + size) && size > 0
    ensures BlockFreed(mem, mem'[p + o := LinkTo(p, free)], p, o, size, free)
    ensures SameOff(mem, mem'[p + o := LinkTo(p, free)], p + o, p + o + size)
  {
  }

  /** The freelist link as the program computes it. */
  lemma LinkIs(h: Heap, v: View, j: nat)
    requires Ok(h, v) && j in v.all && j < |h.refs| && j < |v.free|
    ensures LinkTo(PageAddr(h.refs[j]), v.free[j]) ==
            if h.refs[j].freeOffset == INVALID_OFFSET then 0 else PageAddr(h.refs[j]) + h.refs[j].freeOffset
  {
    hide Ok;
    Managed(h, v, j);
    if v.free[j] != [] {
      assert v.free[j][0] in v.free[j];
      InPage(h, v, j, v.free[j][0]);
    }
  }

  lemma SamePage(r: PageRef, r': PageRef)
    requires r'.pab == r.pab
    ensures PageAddr(r') == PageAddr(r) && BlockType(r') == BlockType(r)
  {
  }

  /** A range nobody had touches no live block. */
  lemma VacantContents(h: Heap, v: View, mem': map<nat, nat>, p: nat)
    requires Ok(h, v) && Vacant(h.pages, p, 1) && SameOff(h.mem, mem', p, p + PAGE_SIZE)
    ensures SameContents(h, v, mem', 0)
  {
    hide Ok, Live;
    forall a: nat, x: nat | Live(v, a) && a <= x < a + Room(h, v, a) && x in h.mem ensures !(p <= x < p + PAGE_SIZE) {
      VacantApart(h, v, p, a);
    }
  }

  lemma VacantApart(h: Heap, v: View, p: nat, a: nat)
    requires Ok(h, v) && Vacant(h.pages, p, 1) && Live(v, a)
    ensures a + Room(h, v, a) <= p || p + PAGE_SIZE <= a
  {
    hide Ok;
    Supply(h, v);
    if IsSub(v, a) {
      SubBlock(h, v, a);
      BlocksApart(BlockType(h.refs[v.roles[PageOf(a)].index]), a % PAGE_SIZE, a % PAGE_SIZE);
    }
  }

  /** The pages some thread holds on its own account are the same. */
  ghost predicate SameHeld(v: View, v': View)
  {
    forall p :: (p in v.roles && v.roles[p].Held?) <==> (p in v'.roles && v'.roles[p].Held?)
  }

  lemma BusyRoles(v: View, roles': map<nat, Role>)
    requires Busy(v, Null)
    ensures Busy(v.(roles := roles'), Null)
  {
  }

  lemma SameLiveUnion(v: View, v': View, p: nat)
    requires SameLive(v, v', {p}) && !Live(v, p) && !Live(v', p)
    ensures SameLive(v, v', {})
  {
    hide Live;
    NotAsked(v, p);
  }

  lemma NotAsked(v: View, p: nat)
    requires !Live(v, p)
    ensures Asked(v, p) == 0
  {
  }

  lemma SameOffOne(mem: map<nat, nat>, x: nat, val: nat, lo: nat, hi: nat)
    requires lo <= x < hi
    ensures SameOff(mem, mem[x := val], lo, hi)
  {
  }

  lemma ContentsSelf(h: Heap, v: View)
    requires Ok(h, v)
    ensures SameContents(h, v, h.mem, 0)
  {
    hide Ok, Live;
  }

  lemma ContentsWeaker(h: Heap, v: View, ptr: nat)
    requires Ok(h, v)
    ensures SameContents(h, v, h.mem, ptr)
  {
    hide Ok, Live;
  }

  lemma SameLiveSelf(v: View)
    ensures SameLive(v, v, {})
  {
  }

  lemma SameHeldRoles(v: View, v': View)
    requires v'.roles == v.roles
    ensures SameHeld(v, v')
  {
  }

  lemma HeldForAWhile(v: View, v': View, p: nat)
    requires p !in v.roles && exists j :: v'.roles == v.roles[p := Held][p := Sub(j)]
    ensures SameHeld(v, v')
  {
  }

  lemma BigHeld(v: View, p: nat, asked: nat)
    requires p !in v.roles
    ensures SameHeld(v, v.(roles := v.roles[p := Big(asked)]))
  {
  }

  /** The page a live block is in; whole-page and subpage blocks are never mistaken. */
  lemma WhichPage(h: Heap, v: View, ptr: nat)
    requires Ok(h, v) && Live(v, ptr)
    ensures PageOf(ptr) in h.pages && 0 < PageOf(ptr)
    ensures (IsBig(v, ptr) <==> !IsSub(v, ptr)) && (IsBig(v, ptr) ==> PageOf(ptr) == ptr)
  {
    hide Ok;
    Supply(h, v);
    if IsSub(v, ptr) {
      SubBlock(h, v, ptr);
    }
  }
}
