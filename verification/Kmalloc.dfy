/** kmalloc.c: the subpage allocator and kmalloc/kfree over it. Every method that runs under
    kmalloc_spinlock is one atomic step; `Others` runs any steps of other threads in the places
    where the lock is not held. */
module Kmalloc {
  import opened PageRefs
  import opened KmallocState
  import opened KmallocSteps
  import opened KmallocLive
  import opened KmallocRuns

  /** The first block type that is large enough. */
  method FindBlockType(size: nat) returns (t: nat)
    requires size <= LARGEST_SUBPAGE_SIZE
    ensures t == TypeOf(size) && size <= Size(t) && forall u :: 0 <= u < t ==> Size(u) < size
  {
    t := 0;
    while size > Size(t)
      invariant t < NSIZES && forall u :: 0 <= u < t ==> Size(u) < size
      decreases NSIZES - t
    {
      t := t + 1;
    }
  }

  class Allocator {
    const pagerefs: array<PageRef>
    const pagerefsInuse: array<bv32>
    const sizebases: array<Ptr>
    var allbase: Ptr
    var mem: map<nat, nat>
    var pages: map<nat, nat>
    /** Who holds what: not part of the program, which never reads it. */
    var view: View

    ghost function H(): Heap
      reads this, pagerefs, pagerefsInuse, sizebases
    {
      Heap(pagerefs[..], pagerefsInuse[..], sizebases[..], allbase, mem, pages)
    }

    ghost predicate OwnArrays()
    {
      pagerefs as object != pagerefsInuse && pagerefs as object != sizebases && pagerefsInuse as object != sizebases
    }

    /** Between critical sections every page kept has a live block. */
    ghost predicate Valid()
      reads this, pagerefs, pagerefsInuse, sizebases
    {
      OwnArrays() && Ok(H(), view) && Busy(view, Null)
    }

    constructor ()
      ensures Valid() && H() == EmptyHeap() && view == EmptyView() && forall a :: !Live(view, a)
      ensures fresh(pagerefs) && fresh(pagerefsInuse) && fresh(sizebases)
    {
      pagerefs := new PageRef[NPAGEREFS](_ => PageRef(Null, Null, 0, 0, 0));
      pagerefsInuse := new bv32[INUSE_WORDS](_ => 0);
      sizebases := new Ptr[NSIZES](_ => Null);
      allbase, mem, pages := Null, map[], map[];
      view := EmptyView();
      new;
      hide Ok, Busy;
      EmptyOk();
      assert H() == EmptyHeap();
    }

    /** The code at doalloc: takes the first block of a page that has a free one. */
    method DoAlloc(j: nat, asked: nat) returns (ptr: nat)
      requires OwnArrays() && Ok(H(), view) && Busy(view, At(j)) && j in view.all && j < NPAGEREFS
      requires j < pagerefs.Length && pagerefs[j].nfree > 0
      requires BlockType(pagerefs[j]) < NSIZES && asked <= Size(BlockType(pagerefs[j]))
      modifies this`view, pagerefs
      ensures Valid() && ptr != 0 && Gained(old(view), view, ptr, asked)
      ensures view.roles == old(view.roles) && PageOf(ptr) == PageAddr(old(pagerefs[j]))
      ensures Room(H(), view, ptr) == Size(BlockType(old(pagerefs[j])))
    {
      hide Ok, Gained, Busy, PopView, PageAddr, BlockType, PageOf, Room, Live, Size;
      ghost var h, v := H(), view;
      FirstFree(h, v, j);
      PopAll(h, v, j, asked);
      assert pagerefs[j].freeOffset < PAGE_SIZE;
      var prpage := PageAddr(pagerefs[j]);
      var fla := prpage + pagerefs[j].freeOffset;
      ptr := fla;
      var fl := mem[fla];
      pagerefs[j] := pagerefs[j].(nfree := pagerefs[j].nfree - 1);
      if fl != 0 {
        assert pagerefs[j].nfree > 0 && prpage <= fl < prpage + PAGE_SIZE;
        pagerefs[j] := pagerefs[j].(freeOffset := fl - prpage);
      } else {
        assert pagerefs[j].nfree == 0;
        pagerefs[j] := pagerefs[j].(freeOffset := INVALID_OFFSET);
      }
      view := PopView(view, j, asked);
      PopRoles(v, j, asked);
      assert H().refs == PopHeap(h, v, j).refs;
      SamePage(h.refs[j], pagerefs[j]);
      GainedLive(v, view, ptr, asked);
      RoomInPage(H(), view, j, ptr);
    }

    /** First critical section of subpage_kmalloc: a block from a page of the right type that has
        room, or 0 when every such page is full. */
    method TryAlloc(t: nat, asked: nat) returns (ptr: nat)
      requires Valid() && t < NSIZES && asked <= Size(t)
      modifies this`view, pagerefs
      ensures Valid() && view.roles == old(view.roles)
      ensures ptr != 0 ==> Gained(old(view), view, ptr, asked) && Room(H(), view, ptr) == Size(t)
      ensures ptr == 0 ==> view == old(view) && pagerefs[..] == old(pagerefs[..])
      ensures ptr == 0 ==> forall k :: 0 <= k < |view.same[t]| ==> pagerefs[view.same[t][k]].nfree == 0
    {
      hide Ok, Gained, Size, BlockType, Room, Live;
      SameStart(H(), view, t);
      ghost var k, list := 0, view.same[t];
      var pr := sizebases[t];
      while pr.At?
        invariant Valid() && view == old(view) && pagerefs[..] == old(pagerefs[..])
        invariant k <= |list| && pr == PtrAt(list, k)
        invariant forall i :: 0 <= i < k ==> pagerefs[list[i]].nfree == 0
        decreases |list| - k
      {
        SameAt(H(), view, t, k, pr.index);
        if pagerefs[pr.index].nfree > 0 {
          ptr := DoAlloc(pr.index, asked);
          return;
        }
        pr := pagerefs[pr.index].nextSame;
        k := k + 1;
      }
      ptr := 0;
    }

    /** Links the blocks of a fresh page into a freelist, the last block first. */
    method ThreadFreelist(p: nat, t: nat)
      requires t < NSIZES
      modifies this`mem
      ensures SameOff(old(mem), mem, p, p + PAGE_SIZE) && Chain(mem, p, Descending(t))
    {
      var n, s := PerPage(t), Size(t);
      hide Size, PerPage, Threaded, BlockAt;
      mem := mem[p := 0];
      var i := 1;
      assert Threaded(mem, p, s, 1) by { ThreadFirst(mem, p, s); }
      while i < n
        invariant 1 <= i <= n && SameOff(old(mem), mem, p, p + PAGE_SIZE) && Threaded(mem, p, s, i)
      {
        ThreadOne(mem, p, s, i, n);
        mem := mem[BlockAt(p, s, i) := BlockAt(p, s, i - 1)];
        i := i + 1;
      }
      ThreadDone(mem, p, t);
    }

    /** Fills in a descriptor and puts it at the front of both lists. */
    method FillIn(j: nat, p: nat, t: nat)
      requires t < NSIZES == sizebases.Length && j < pagerefs.Length && p % PAGE_SIZE == 0
      modifies this`allbase, pagerefs, sizebases
      ensures pagerefs[..] == old(pagerefs[..])[j :=
                PageRef(old(sizebases[t]), old(allbase), Pack(p, t), LastBlock(t), PerPage(t))]
      ensures sizebases[..] == old(sizebases[..])[t := At(j)] && allbase == At(j)
    {
      var nfree, size := PerPage(t), Size(t);
      hide PerPage, Size;
      pagerefs[j] := pagerefs[j].(pab := Pack(p, t), nfree := nfree);
      pagerefs[j] := pagerefs[j].(freeOffset := (nfree - 1) * size);
      pagerefs[j] := pagerefs[j].(nextSame := sizebases[t]);
      sizebases[t] := At(j);
      pagerefs[j] := pagerefs[j].(nextAll := allbase);
      allbase := At(j);
    }

    /** Makes page p one of type t with all its blocks free, unless no descriptor is left. */
    method AddPage(p: nat, t: nat) returns (pr: Ptr)
      requires Valid() && t < NSIZES && p in view.roles && view.roles[p].Held?
      modifies this`view, this`mem, this`allbase, pagerefs, pagerefsInuse, sizebases
      ensures pr.Null? ==> H() == old(H()) && view == old(view) && NoDescriptor(pagerefsInuse[..])
      ensures pr.At? ==> Ok(H(), view) && Busy(view, pr) && SameLive(old(view), view, {})
      ensures pr.At? ==> view.roles == old(view.roles)[p := Sub(pr.index)] && pr.index in view.all
      ensures pr.At? ==> pr.index < NPAGEREFS == pagerefs.Length && Usable(pagerefs[pr.index], p, t)
      ensures SameOff(old(mem), mem, p, p + PAGE_SIZE)
    {
      hide Ok, Size, PerPage, BlockType, Chain, SameOff, PageOf, SameLive, Busy, Descending, Marked, Usable, Linked,
           LastBlock;
      ghost var h, v := H(), view;
      PageAligned(h, v, p);
      pr := AllocPageRef(pagerefsInuse);
      if pr.Null? {
        SameOffSelf(mem, p, p + PAGE_SIZE);
        return;
      }
      ThreadFreelist(p, t);
      ghost var h' := InstallHeap(h, pagerefsInuse[..], mem, pr.index, p, t);
      InstallAll(h, v, pagerefsInuse[..], mem, pr.index, p, t);
      hide Prepared;
      ghost var made := PageRef(sizebases[t], allbase, Pack(p, t), LastBlock(t), PerPage(t));
      assert made == FreshRef(h, p, t);
      FillIn(pr.index, p, t);
      assert pagerefs[..] == h.refs[pr.index := made];
      view := InstallView(view, pr.index, p, t);
      assert pagerefs[..] == h'.refs;
    }

    /** Second critical section of subpage_kmalloc: allocates from the made page p, or gives 0 when
        there is no descriptor left. */
    method Install(p: nat, t: nat, asked: nat) returns (ptr: nat)
      requires Valid() && t < NSIZES && asked <= Size(t) && p in view.roles && view.roles[p].Held?
      modifies this`view, this`mem, this`allbase, pagerefs, pagerefsInuse, sizebases
      ensures Valid()
      ensures ptr == 0 ==> H() == old(H()) && view == old(view) && NoDescriptor(pagerefsInuse[..])
      ensures ptr != 0 ==> Gained(old(view), view, ptr, asked) && PageOf(ptr) == p && Room(H(), view, ptr) == Size(t)
      ensures ptr != 0 ==> exists j :: view.roles == old(view.roles)[p := Sub(j)]
      ensures SameOff(old(mem), mem, p, p + PAGE_SIZE)
    {
      hide Ok, Gained, Size, SameOff, SameLive, Busy, Room, Live;
      ghost var v := view;
      var pr := AddPage(p, t);
      if pr.Null? {
        return 0;
      }
      ghost var v' := view;
      ptr := DoAlloc(pr.index, asked);
      GainedLater(v, v', view, ptr, asked);
    }

    /** The first loop of remove_lists: `prev` and `cur` are the two ends of the pointer `guy`. */
    method RemoveSame(j: nat, t: nat) returns (m: nat)
      requires OwnArrays() && SameLinked(pagerefs[..], sizebases[..], view) && t < NSIZES && j in view.same[t]
      modifies pagerefs, sizebases
      ensures SameDropped(pagerefs[..], sizebases[..], view, t, m) && view.same[t][m] == j
      ensures OnlyLinks(old(pagerefs[..]), pagerefs[..]) && NextAll(pagerefs[..]) == NextAll(old(pagerefs[..]))
    {
      hide Linked, Without, OnlyLinks;
      ghost var refs, bases, l := pagerefs[..], sizebases[..], view.same[t];
      m := 0;
      ListHead(NextSame(refs), bases[t], l);
      var prev, cur := Null, sizebases[t];
      while cur.At?
        invariant pagerefs[..] == refs && sizebases[..] == bases
        invariant m <= |l| && cur == PtrAt(l, m) && prev == (if m == 0 then Null else At(l[m - 1])) && j !in l[..m]
        decreases |l| - m
      {
        NextOf(refs, bases[t], l, m);
        if cur.index == j {
          if prev.Null? {
            UnlinkFirst(refs, bases, view, t);
            OnlyLinksSelf(refs);
            sizebases[t] := pagerefs[j].nextSame;
            assert sizebases[..] == bases[t := refs[l[0]].nextSame];
          } else {
            NextOf(refs, bases[t], l, m - 1);
            OnlyNextSame(refs, prev.index, refs[j].nextSame);
            pagerefs[prev.index] := pagerefs[prev.index].(nextSame := pagerefs[j].nextSame);
            UnlinkLater(refs, bases, view, t, m, pagerefs[..]);
          }
          return;
        }
        assert l[..m + 1] == l[..m] + [l[m]];
        prev, cur := cur, pagerefs[cur.index].nextSame;
        m := m + 1;
      }
      assert false;
    }

    /** The second loop of remove_lists. */
    method RemoveAll(j: nat) returns (k: nat)
      requires OwnArrays() && Linked(NextAll(pagerefs[..]), allbase, view.all) && j in view.all
      modifies pagerefs, this`allbase
      ensures k < |view.all| && view.all[k] == j && Linked(NextAll(pagerefs[..]), allbase, Without(view.all, k))
      ensures OnlyLinks(old(pagerefs[..]), pagerefs[..]) && NextSame(pagerefs[..]) == NextSame(old(pagerefs[..]))
    {
      hide Linked, Without, OnlyLinks;
      ghost var refs, l := pagerefs[..], view.all;
      k := 0;
      ListHead(NextAll(refs), allbase, l);
      var prev, cur := Null, allbase;
      while cur.At?
        invariant pagerefs[..] == refs && allbase == old(allbase)
        invariant k <= |l| && cur == PtrAt(l, k) && prev == (if k == 0 then Null else At(l[k - 1])) && j !in l[..k]
        decreases |l| - k
      {
        NextAllOf(refs, allbase, l, k);
        if cur.index == j {
          if prev.Null? {
            UnlinkAllFirst(refs, allbase, l);
            OnlyLinksSelf(refs);
            allbase := pagerefs[j].nextAll;
          } else {
            NextAllOf(refs, allbase, l, k - 1);
            OnlyNextAll(refs, prev.index, refs[j].nextAll);
            pagerefs[prev.index] := pagerefs[prev.index].(nextAll := pagerefs[j].nextAll);
            UnlinkAllLater(refs, allbase, l, k, pagerefs[..]);
          }
          return;
        }
        assert l[..k + 1] == l[..k] + [l[k]];
        prev, cur := cur, pagerefs[cur.index].nextAll;
        k := k + 1;
      }
      assert false;
    }

    /** fill_deadbeef over a whole block. */
    method FillDeadbeef(ptr: nat, len: nat)
      modifies this`mem
      ensures SameOff(old(mem), mem, ptr, ptr + len)
      ensures forall i :: 0 <= i < len / 4 ==> ptr + 4 * i in mem && mem[ptr + 4 * i] == 0xdeadbeef
    {
      for i := 0 to len / 4
        invariant SameOff(old(mem), mem, ptr, ptr + len)
        invariant forall k :: 0 <= k < i ==> ptr + 4 * k in mem && mem[ptr + 4 * k] == 0xdeadbeef
      {
        mem := mem[ptr + 4 * i := 0xdeadbeef];
      }
    }

    /** Takes descriptor j of type t off the lists and clears its mark; its page is the caller's. */
    method Unlist(j: nat, t: nat)
      requires OwnArrays() && Ok(H(), view) && Busy(view, At(j)) && j in view.all && j < |view.used|
               && view.used[j] == map[]
      requires j < pagerefs.Length && BlockType(pagerefs[j]) == t
      modifies this`view, this`allbase, pagerefs, pagerefsInuse, sizebases
      ensures Valid() && SameLive(old(view), view, {})
      ensures view.roles == old(view.roles)[old(PageAddr(pagerefs[j])) := Held]
    {
      hide Ok, Linked, SameLive, Marked, OnlyLinks, Busy, NextAll, NextSame, Without, BlockType, PageAddr;
      ghost var h, v := H(), view;
      var page := PageAddr(pagerefs[j]);
      Listed(h, v, j);
      SameLists(h, v);
      var m := RemoveSame(j, t);
      ghost var refs1 := pagerefs[..];
      var k := RemoveAll(j);
      OnlyLinksTwice(h.refs, refs1, pagerefs[..]);
      FreePageRef(pagerefsInuse, j);
      DropAll(h, v, H(), j, t, k, m);
      view := DropView(view, j, t, k, m, page);
    }

    /** The scan of subpage_kfree over all pages. */
    method FindPage(ptr: nat) returns (pr: Ptr)
      requires Valid() && Live(view, ptr)
      ensures pr.Null? ==> !IsSub(view, ptr)
      ensures pr.At? ==> IsSub(view, ptr) && BlockOf(H(), view, pr.index, ptr)
    {
      hide Ok, Busy, PageAddr, BlockType, IsSub, IsBig;
      ghost var h, k := H(), 0;
      AllStart(h, view);
      pr := allbase;
      while pr.At?
        invariant k <= |view.all| && pr == PtrAt(view.all, k)
        invariant forall i :: 0 <= i < k ==>
                    !(PageAddr(pagerefs[view.all[i]]) <= ptr < PageAddr(pagerefs[view.all[i]]) + PAGE_SIZE)
        decreases |view.all| - k
      {
        AllAt(h, view, k, pr.index);
        var prpage := PageAddr(pagerefs[pr.index]);
        if prpage <= ptr && ptr < prpage + PAGE_SIZE {
          FoundPage(h, view, pr.index, ptr);
          return;
        }
        pr := pagerefs[pr.index].nextAll;
        k := k + 1;
      }
      if IsSub(view, ptr) {
        NotFound(h, view, ptr);
      }
    }

    /** Overwrites a block of page j and links it in front of the page's freelist. */
    method PutBack(j: nat, ptr: nat)
      requires Valid() && j < pagerefs.Length && BlockOf(H(), view, j, ptr)
      modifies this`view, this`mem, pagerefs
      ensures Ok(H(), view) && Busy(view, if OnlyLive(old(view), ptr) then At(j) else Null)
      ensures Lost(old(view), view, ptr) && SameContents(old(H()), old(view), mem, ptr)
      ensures Poisoned(mem, ptr, Size(old(BlockType(pagerefs[j]))))
      ensures view.roles == old(view.roles) && view.all == old(view.all) && j < |view.used|
      ensures pagerefs[j].pab == old(pagerefs[j].pab)
      ensures OnlyLive(old(view), ptr) <==> view.used[j] == map[]
      ensures OnlyLive(old(view), ptr) <==> pagerefs[j].nfree == PerPage(old(BlockType(pagerefs[j])))
    {
      hide Ok, Busy, PageAddr, BlockType, IsSub, IsBig, Live, SameOff, SameContents, Lost, Size, PerPage, BlockFreed,
           OnlyLive;
      hide LinkTo, Room;
      ghost var h, v := H(), view;
      var prpage, t := PageAddr(pagerefs[j]), BlockType(pagerefs[j]);
      var offset := ptr - prpage;
      assert offset < PAGE_SIZE && offset % Size(t) == 0;
      BlockRoom(h, v, j, ptr);
      LastLive(h, v, j, ptr);
      LinkIs(h, v, j);
      FillDeadbeef(ptr, Size(t));
      assert Poisoned(mem, ptr, Size(t));
      PoisonedStill(mem, ptr, Size(t), LinkTo(prpage, v.free[j]));
      hide Poisoned;
      Freed(h.mem, mem, prpage, offset, Size(t), v.free[j]);
      mem := mem[ptr := if pagerefs[j].freeOffset == INVALID_OFFSET then 0 else prpage + pagerefs[j].freeOffset];
      BlockContents(h, v, mem, ptr);
      PushAll(h, v, mem, j, ptr);
      pagerefs[j] := pagerefs[j].(freeOffset := offset, nfree := pagerefs[j].nfree + 1);
      view := PushView(view, j, offset);
      assert H().refs == PushHeap(h, mem, j, offset).refs;
    }

    /** The critical section of subpage_kfree. A page left without live blocks comes back in
        `empty`, for the caller to return; a pointer on no page of ours is not found. */
    method FreeSection(ptr: nat) returns (found: bool, empty: nat)
      requires Valid() && Live(view, ptr)
      modifies this`view, this`mem, this`allbase, pagerefs, pagerefsInuse, sizebases
      ensures Valid() && found == IsSub(old(view), ptr)
      ensures !found ==> H() == old(H()) && view == old(view) && empty == 0
      ensures found ==> Lost(old(view), view, ptr) && SameContents(old(H()), old(view), mem, ptr)
      ensures found ==> Poisoned(mem, ptr, Room(old(H()), old(view), ptr))
      ensures found ==>
                view.roles == if OnlyLive(old(view), ptr) then old(view.roles)[PageOf(ptr) := Held] else old(view.roles)
      ensures found ==> empty == if OnlyLive(old(view), ptr) then PageOf(ptr) else 0
    {
      hide Ok, Busy, PageAddr, PageOf, BlockType, IsSub, IsBig, Live, SameContents, Lost, PerPage, OnlyLive;
      var pr := FindPage(ptr);
      if pr.Null? {
        return false, 0;
      }
      ghost var v := view;
      var j := pr.index;
      BlockRoom(H(), v, j, ptr);
      hide Room, Poisoned, Size;
      var prpage, t := PageAddr(pagerefs[j]), BlockType(pagerefs[j]);
      PutBack(j, ptr);
      SamePage(old(pagerefs[j]), pagerefs[j]);
      found, empty := true, 0;
      if pagerefs[j].nfree == PerPage(t) {
        ghost var v' := view;
        Unlist(j, t);
        LostLater(v, v', view, ptr);
        empty := prpage;
      }
    }

    /** The page allocator: fails, or gives out the range at `pick`, which can be any vacant one. */
    method AllocKPages(n: nat, pick: nat, role: Role) returns (p: nat)
      requires Valid()
      requires match role
               case Sub(_) => false
               case Big(asked) => LARGEST_SUBPAGE_SIZE <= asked < ADDRESSES && n == PagesFor(asked)
               case Held => n == 1
      modifies this`pages, this`view
      ensures Valid()
      ensures p == if Vacant(old(pages), pick, n) then pick else 0
      ensures p == 0 ==> H() == old(H()) && view == old(view)
      ensures p != 0 ==> Vacant(old(pages), p, n) && pages == old(pages)[p := n] && p !in old(view.roles)
      ensures p != 0 ==> view == old(view).(roles := old(view.roles)[p := role])
      ensures p != 0 && role.Held? ==> SameLive(old(view), view, {})
      ensures p != 0 && role.Big? ==> Gained(old(view), view, p, role.asked)
    {
      VacantPositive(pages, pick, n);
      hide Ok, Live, SameLive, Asked, Busy, PagesFor, Vacant;
      if !Vacant(pages, pick, n) {
        return 0;
      }
      p := pick;
      GiveKeeps(H(), view, p, n, role);
      GiveLive(view, p, role);
      BusyRoles(view, view.roles[p := role]);
      ghost var v := view;
      pages := pages[p := n];
      view := view.(roles := view.roles[p := role]);
      if role.Held? {
        SameLiveUnion(v, view, p);
      }
    }

    method FreeKPages(p: nat)
      requires Valid() && p in view.roles && !view.roles[p].Sub?
      modifies this`pages, this`view
      ensures Valid() && p in old(pages) && pages == old(pages) - {p}
      ensures view == old(view).(roles := old(view.roles) - {p})
      ensures old(view.roles[p]).Held? ==> SameLive(old(view), view, {})
      ensures old(view.roles[p]).Big? ==> Lost(old(view), view, p)
    {
      hide Ok, Live, SameLive, Asked, Busy;
      PageAligned(H(), view, p);
      TakeKeeps(H(), view, p);
      TakeLive(view, p);
      BusyRoles(view, view.roles - {p});
      ghost var v := view;
      pages := pages - {p};
      view := view.(roles := view.roles - {p});
      if v.roles[p].Held? {
        SameLiveUnion(v, view, p);
      }
    }

    /** A client writes into a live block. */
    method WriteBlock(block: nat, addr: nat, val: nat)
      requires Valid() && Live(view, block) && block <= addr < block + Room(H(), view, block)
      modifies this`mem
      ensures Valid() && mem == old(mem)[addr := val] && SameContents(old(H()), old(view), mem, block)
    {
      hide Ok, Live, Room, Busy, SameContents;
      WriteKeeps(H(), view, block, addr, val);
      SameOffOne(mem, addr, val, block, block + Room(H(), view, block));
      BlockContents(H(), view, mem[addr := val], block);
      mem := mem[addr := val];
    }

    ghost function Now(): State
      reads this, pagerefs, pagerefsInuse, sizebases
    {
      State(H(), view)
    }

    /** Any steps of other threads, in order. The range at `mine`, if not 0, belongs to the thread
        that is waiting. */
    method Others(ops: seq<Op>, mine: nat) returns (ghost run: seq<State>, ghost rs: seq<nat>)
      requires Valid() && (mine != 0 ==> mine in view.roles && !view.roles[mine].Sub?)
      modifies this, pagerefs, pagerefsInuse, sizebases
      ensures Valid() && (mine != 0 ==> mine in view.roles && view.roles[mine] == old(view.roles[mine]))
      ensures Runs(old(Now()), run, By(ops, mine), rs, Now())
      ensures ops == [] ==> Now() == old(Now())
    {
      hide Ok, Busy, Runs, Did, By;
      run, rs := [Now()], [];
      RunStart(Now());
      var i := 0;
      assert By(ops[..0], mine) == [];
      while i < |ops|
        invariant 0 <= i <= |ops| && Valid()
        invariant mine != 0 ==> mine in view.roles && view.roles[mine] == old(view.roles[mine])
        invariant Runs(old(Now()), run, By(ops[..i], mine), rs, Now())
        invariant i == 0 ==> Now() == old(Now())
      {
        ghost var s := Now();
        var r := OneOther(ops[i], mine);
        RunStep(old(Now()), run, By(ops[..i], mine), rs, s, Turn(ops[i], mine), r, Now());
        assert By(ops[..i + 1], mine) == By(ops[..i], mine) + [Turn(ops[i], mine)];
        run, rs := run + [Now()], rs + [r];
        i := i + 1;
      }
      assert ops[..i] == ops;
    }

    method OneOther(op: Op, mine: nat) returns (r: nat)
      requires Valid() && (mine != 0 ==> mine in view.roles && !view.roles[mine].Sub?)
      modifies this, pagerefs, pagerefsInuse, sizebases
      ensures Valid() && (mine != 0 ==> mine in view.roles && view.roles[mine] == old(view.roles[mine]))
      ensures Did(old(H()), old(view), op, mine, r, H(), view)
    {
      hide Ok, Busy, SameLive, Gained, Lost, SameContents, PagesFor, OnlyLive, SameOff, Vacant, FullFor, NoDescriptor,
           Poisoned, Room;
      r := 0;
      match op
      case Try(size) =>
        if size < LARGEST_SUBPAGE_SIZE {
          r := FirstSection(size);
        }
      case GetPage(pick) =>
        r := AllocKPages(1, pick, Held);
      case PutToUse(page, size) =>
        if size < LARGEST_SUBPAGE_SIZE && page != mine && page in view.roles && view.roles[page].Held? {
          r := SecondSection(page, size);
        }
      case GetBig(size, pick) =>
        if LARGEST_SUBPAGE_SIZE <= size < ADDRESSES {
          r := AllocKPages(PagesFor(size), pick, Big(size));
        }
      case Free(ptr) =>
        if Live(view, ptr) {
          var _, _ := FreeSection(ptr);
        }
      case FreeBig(ptr) =>
        if ptr != mine && ptr in view.roles && view.roles[ptr].Big? {
          FreeKPages(ptr);
        }
      case ReturnPage(page) =>
        if page != mine && page in view.roles && view.roles[page].Held? {
          FreeKPages(page);
        }
      case Store(block, addr, val) =>
        if Live(view, block) {
          var room := BlockRoomOf(block);
          if block <= addr < block + room {
            WriteBlock(block, addr, val);
          }
        }
    }

    /** subpage_kmalloc's first critical section. */
    method FirstSection(size: nat) returns (r: nat)
      requires Valid() && size < LARGEST_SUBPAGE_SIZE
      modifies this`view, pagerefs
      ensures Valid() && view.roles == old(view.roles) && Did(old(H()), old(view), Try(size), 0, r, H(), view)
      ensures r != 0 ==> Room(H(), view, r) == RoomFor(size)
    {
      hide Ok, Busy, Gained, Room, Live, Size;
      var t := FindBlockType(size);
      r := TryAlloc(t, size);
      if r == 0 {
        ShapeOf(H(), view);
      }
    }

    /** Its second, which puts the page fetched in between to use. */
    method SecondSection(page: nat, size: nat) returns (r: nat)
      requires Valid() && size < LARGEST_SUBPAGE_SIZE && page in view.roles && view.roles[page].Held?
      modifies this`view, this`mem, this`allbase, pagerefs, pagerefsInuse, sizebases
      ensures Valid() && Did(old(H()), old(view), PutToUse(page, size), 0, r, H(), view) && page != 0
      ensures r == 0 ==> Now() == old(Now())
      ensures r != 0 ==> Room(H(), view, r) == RoomFor(size)
      ensures SameOff(old(mem), mem, page, page + PAGE_SIZE)
    {
      hide Ok, Busy, Gained, NoDescriptor, SameOff, SameContents, Room, Live, Size;
      ghost var h, v := H(), view;
      PageAligned(h, v, page);
      var t := FindBlockType(size);
      r := Install(page, t, size);
      HeldContents(h, v, mem, page);
    }

    method BlockRoomOf(block: nat) returns (room: nat)
      requires Valid() && Live(view, block)
      ensures room == Room(H(), view, block)
    {
      if IsSub(view, block) {
        SubBlock(H(), view, block);
        room := Size(BlockType(pagerefs[view.roles[PageOf(block)].index]));
      } else {
        room := pages[block] * PAGE_SIZE;
      }
    }

    /** Steps of others, and then the page allocator is asked for a page. */
    method FetchPage(pick: nat, before: seq<Op>) returns (p: nat, ghost run: seq<State>, ghost rs: seq<nat>)
      requires Valid()
      modifies this, pagerefs, pagerefsInuse, sizebases
      ensures Valid() && Runs(old(Now()), run, By(before, 0) + [Turn(GetPage(pick), 0)], rs, Now()) && Last(rs) == p
      ensures p != 0 ==> p == pick && p in view.roles && view.roles[p].Held?
      ensures before == [] && p == 0 ==> Now() == old(Now())
      ensures before == [] && p != 0 ==>
                && Vacant(old(pages), p, 1) && p !in old(view.roles) && mem == old(mem) && SameLive(old(view), view, {})
                && view == old(view).(roles := old(view.roles)[p := Held])
    {
      hide Ok, Busy, Live, SameLive, Vacant, Runs, By;
      run, rs := Others(before, 0);
      ghost var s := Now();
      p := AllocKPages(1, pick, Held);
      RunStep(old(Now()), run, By(before, 0), rs, s, Turn(GetPage(pick), 0), p, Now());
      run, rs := run + [Now()], rs + [p];
    }

    /** Steps of others, and then the second critical section. */
    method UsePage(p: nat, size: nat, after: seq<Op>) returns (ptr: nat, ghost run: seq<State>, ghost rs: seq<nat>)
      requires Valid() && p in view.roles && view.roles[p].Held? && p != 0 && size < LARGEST_SUBPAGE_SIZE
      modifies this, pagerefs, pagerefsInuse, sizebases
      ensures Valid() && Runs(old(Now()), run, By(after, p) + [Turn(PutToUse(p, size), 0)], rs, Now())
              && Last(rs) == ptr
      ensures ptr != 0 ==> Live(view, ptr) && Asked(view, ptr) == size && Room(H(), view, ptr) == RoomFor(size)
      ensures ptr == 0 ==> p in view.roles && view.roles[p].Held?
      ensures after == [] && ptr == 0 ==> Now() == old(Now())
      ensures after == [] ==> Did(old(H()), old(view), PutToUse(p, size), 0, ptr, H(), view)
      ensures after == [] ==> SameOff(old(mem), mem, p, p + PAGE_SIZE)
    {
      hide Ok, Busy, Live, SameLive, SameContents, NoDescriptor, SameOff, Runs, By, Room, RoomFor;
      run, rs := Others(after, p);
      ghost var s := Now();
      ptr := SecondSection(p, size);
      RunStep(old(Now()), run, By(after, p), rs, s, Turn(PutToUse(p, size), 0), ptr, Now());
      run, rs := run + [Now()], rs + [ptr];
    }

    /** Steps of others, and then the page goes back. */
    method GiveUpPage(p: nat, late: seq<Op>) returns (ghost run: seq<State>, ghost rs: seq<nat>)
      requires Valid() && p in view.roles && view.roles[p].Held? && p != 0
      modifies this, pagerefs, pagerefsInuse, sizebases
      ensures Valid() && Runs(old(Now()), run, By(late, p) + [Turn(ReturnPage(p), 0)], rs, Now())
      ensures late == [] ==> view == old(view).(roles := old(view.roles) - {p}) && mem == old(mem)
    {
      hide Ok, Busy, Live, SameLive, Runs, By;
      run, rs := Others(late, p);
      ghost var s := Now();
      FreeKPages(p);
      RunStep(old(Now()), run, By(late, p), rs, s, Turn(ReturnPage(p), 0), 0, Now());
      run, rs := run + [Now()], rs + [0];
    }

    /** subpage_kmalloc. Other threads run before and after the page is fetched and, when there is
        no descriptor for it, before it is given back. */
    method SubpageKmalloc(size: nat, pick: nat, before: seq<Op>, after: seq<Op>, late: seq<Op>)
      returns (ptr: nat, ghost run: seq<State>, ghost turns: seq<Turn>, ghost rs: seq<nat>)
      requires Valid() && size < LARGEST_SUBPAGE_SIZE
      modifies this, pagerefs, pagerefsInuse, sizebases
      ensures Valid()
      ensures ptr != 0 ==> Live(view, ptr) && Asked(view, ptr) == size && Room(H(), view, ptr) == RoomFor(size)
      ensures Runs(old(Now()), run, turns, rs, Now()) && KmallocCall(size, pick, before, after, late, turns, rs, ptr)
      ensures before + after + late == [] ==> Undisturbed(old(Now()), size, ptr, Now())
    {
      hide Ok, Busy, Live, SameLive, SameContents, SameHeld, Vacant, Runs, By, FullFor, NoDescriptor, Undisturbed,
           SameOff;
      hide Onward, FirstPart, SecondPart, ThirdPart, LastPart, Room, RoomFor;
      ghost var s := Now();
      PartsJoin(size, pick, before, after, late);
      ptr := FirstSection(size);
      FirstRun(s, size, ptr, Now());
      run, turns, rs := [s, Now()], FirstPart(size), [ptr];
      if ptr != 0 {
        UndisturbedGain(s, size, ptr, Now());
        return;
      }
      ghost var s1 := Now();
      var p, run', rs' := FetchPage(pick, before);
      RunJoin(s, run, turns, rs, s1, run', By(before, 0) + [Turn(GetPage(pick), 0)], rs', Now());
      run, turns, rs := Onward(run, run'), SecondPart(size, pick, before), rs + rs';
      if p == 0 {
        UndisturbedNothing(s, size);
        return;
      }
      ghost var s2 := Now();
      ptr, run', rs' := UsePage(p, size, after);
      RunJoin(s, run, turns, rs, s2, run', By(after, p) + [Turn(PutToUse(p, size), 0)], rs', Now());
      run, turns, rs := Onward(run, run'), ThirdPart(size, pick, before, after), rs + rs';
      if ptr != 0 {
        if before + after + late == [] {
          UndisturbedPage(s, s2, size, p, ptr, Now());
        }
        return;
      }
      ghost var s3 := Now();
      run', rs' := GiveUpPage(p, late);
      RunJoin(s, run, turns, rs, s3, run', By(late, p) + [Turn(ReturnPage(p), 0)], rs', Now());
      run, turns, rs := Onward(run, run'), LastPart(size, pick, before, after, late), rs + rs';
      if before + after + late == [] {
        assert view.roles == s.v.roles;
        UndisturbedSame(s, size, Now());
      }
    }

    /** kmalloc: a block with the size asked for, unless that is so close to 2^32 that the page
        count wraps round (RoomEnough). */
    method Kmalloc(size: nat, pick: nat, before: seq<Op>, after: seq<Op>, late: seq<Op>)
      returns (ptr: nat, ghost run: seq<State>, ghost turns: seq<Turn>, ghost rs: seq<nat>)
      requires Valid() && size < ADDRESSES
      modifies this, pagerefs, pagerefsInuse, sizebases
      ensures Valid()
      ensures ptr != 0 ==> Live(view, ptr) && Asked(view, ptr) == size && Room(H(), view, ptr) == RoomFor(size)
      ensures Runs(old(Now()), run, turns, rs, Now()) && KmallocCall(size, pick, before, after, late, turns, rs, ptr)
      ensures before + after + late == [] ==> Undisturbed(old(Now()), size, ptr, Now())
    {
      hide Ok, Busy, Live, SameLive, SameContents, SameHeld, Vacant, PagesFor, Runs, Undisturbed, Room, Size;
      if size >= LARGEST_SUBPAGE_SIZE {
        ghost var s := Now();
        UndisturbedNothing(s, size);
        ptr := AllocKPages(PagesFor(size), pick, Big(size));
        if ptr != 0 {
          UndisturbedBig(s, size, ptr, Now());
          BigRoom(H(), view, ptr);
        }
        RunOne(s, Turn(GetBig(size, pick), 0), ptr, Now());
        run, turns, rs := [s, Now()], [Turn(GetBig(size, pick), 0)], [ptr];
      } else {
        ptr, run, turns, rs := SubpageKmalloc(size, pick, before, after, late);
      }
    }

    /** kfree of a live block, or of NULL. Its page goes back exactly when it was the last live
        block there, a whole-page block always. */
    method Kfree(ptr: nat, others: seq<Op>) returns (ghost run: seq<State>, ghost turns: seq<Turn>, ghost rs: seq<nat>)
      requires Valid() && (ptr != 0 ==> Live(view, ptr))
      modifies this, pagerefs, pagerefsInuse, sizebases
      ensures Valid()
      ensures ptr == 0 ==> Now() == old(Now())
      ensures ptr != 0 ==> Runs(old(Now()), run, turns, rs, Now()) && KfreeCall(old(view), ptr, others, turns)
      ensures ptr != 0 && others == [] ==>
                && Lost(old(view), view, ptr) && SameContents(old(H()), old(view), mem, ptr)
                && PageOf(ptr) in old(pages)
                && pages == (if IsBig(old(view), ptr) || OnlyLive(old(view), ptr) then old(pages) - {PageOf(ptr)}
                             else old(pages))
    {
      hide Ok, Busy, Live, SameLive, SameContents, OnlyLive, IsSub, Lost, PageOf, Poisoned, Room, Runs, By;
      run, turns, rs := [], [], [];
      if ptr == 0 {
        return;
      }
      ghost var s := Now();
      WhichPage(s.h, s.v, ptr);
      var found, empty := FreeSection(ptr);
      if !found {
        ContentsWeaker(s.h, s.v, ptr);
        run, turns, rs := FreeBigPart(ptr, others);
        return;
      }
      ghost var s1 := Now();
      RunOne(s, Turn(Free(ptr), 0), 0, s1);
      run, turns, rs := [s, s1], [Turn(Free(ptr), 0)], [0];
      if empty != 0 {
        ghost var run', rs' := Others(others, empty);
        RunJoin(s, run, turns, rs, s1, run', By(others, empty), rs', Now());
        ghost var s2 := Now();
        FreeKPages(empty);
        RunStep(s, Onward(run, run'), turns + By(others, empty), rs + rs', s2, Turn(ReturnPage(empty), 0), 0, Now());
        run, turns := Onward(run, run') + [Now()], turns + By(others, empty) + [Turn(ReturnPage(empty), 0)];
        rs := rs + rs' + [0];
        if others == [] {
          LostLater(s.v, s1.v, view, ptr);
        }
      }
    }

    /** kfree of a whole-page block, after the scan has not found it. */
    method FreeBigPart(ptr: nat, others: seq<Op>)
      returns (ghost run: seq<State>, ghost turns: seq<Turn>, ghost rs: seq<nat>)
      requires Valid() && IsBig(view, ptr)
      modifies this, pagerefs, pagerefsInuse, sizebases
      ensures Valid()
      ensures turns == By(others, ptr) + [Turn(FreeBig(ptr), 0)] && Runs(old(Now()), run, turns, rs, Now())
      ensures ptr % PAGE_SIZE == 0 && ptr in old(pages)
      ensures others == [] ==> Lost(old(view), view, ptr) && pages == old(pages) - {ptr} && mem == old(mem)
    {
      hide Ok, Busy, Live, SameLive, Lost, Runs, By;
      PageAligned(H(), view, ptr);
      Supply(H(), view);
      run, rs := Others(others, ptr);
      ghost var s := Now();
      FreeKPages(ptr);
      RunStep(old(Now()), run, By(others, ptr), rs, s, Turn(FreeBig(ptr), 0), 0, Now());
      run, turns, rs := run + [Now()], By(others, ptr) + [Turn(FreeBig(ptr), 0)], rs + [0];
    }
  }

  /** From an empty heap, any steps of any threads make a run: each does to the live blocks what Did
      says. Live blocks never overlap, each came out of one of the steps, and each has the room its
      client asked for unless the page count wrapped round. */
  method Session(ops: seq<Op>) returns (heap: Allocator, ghost run: seq<State>, ghost rs: seq<nat>)
    ensures heap.Valid() && Runs(State(EmptyHeap(), EmptyView()), run, By(ops, 0), rs, heap.Now())
    ensures forall a: nat, b: nat :: Live(heap.view, a) && Live(heap.view, b) && a < b ==>
              a + Room(heap.H(), heap.view, a) <= b
    ensures forall a: nat :: Live(heap.view, a) && Asked(heap.view, a) <= ADDRESSES - PAGE_SIZE ==>
              Asked(heap.view, a) <= Room(heap.H(), heap.view, a)
    ensures forall a: nat :: Live(heap.view, a) ==> a in rs
  {
    hide Ok, Live, Room, Busy, IsRun, EmptyHeap, EmptyView;
    heap := new Allocator();
    run, rs := heap.Others(ops, 0);
    RunSize(State(EmptyHeap(), EmptyView()), run, By(ops, 0), rs, heap.Now());
    forall a: nat, b: nat | Live(heap.view, a) && Live(heap.view, b) && a < b
      ensures a + Room(heap.H(), heap.view, a) <= b {
      LiveApart(heap.H(), heap.view, a, b);
    }
    forall a: nat | Live(heap.view, a) && Asked(heap.view, a) <= ADDRESSES - PAGE_SIZE
      ensures Asked(heap.view, a) <= Room(heap.H(), heap.view, a) {
      RoomEnough(heap.H(), heap.view, a);
    }
    forall a: nat | Live(heap.view, a) ensures a in rs {
      RunNothingNew(run, By(ops, 0), rs, 0, |ops|, a);
      assert rs[0..|ops|] == rs;
    }
  }
}
