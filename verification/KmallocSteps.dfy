/** What each critical section of kmalloc.c does to the heap, and that each keeps `Ok`. */
module KmallocSteps {
  import opened Basics
  import opened PageRefs
  import opened KmallocState

  /** Memory is the same outside [lo, hi). */
  ghost predicate SameOff(mem: map<nat, nat>, mem': map<nat, nat>, lo: nat, hi: nat)
  {
    forall a :: a in mem && !(lo <= a < hi) ==> a in mem' && mem'[a] == mem[a]
  }

  lemma ChainKept(mem: map<nat, nat>, mem': map<nat, nat>, page: nat, free: seq<nat>, lo: nat, hi: nat)
    requires Chain(mem, page, free) && SameOff(mem, mem', lo, hi)
    requires forall o :: o in free ==> page + o < lo || hi <= page + o
    ensures Chain(mem', page, free)
  {
    forall k | 0 <= k < |free|
      ensures page + free[k] in mem' && mem'[page + free[k]] == mem[page + free[k]] {
      assert free[k] in free;
    }
  }

  lemma InPage(h: Heap, v: View, j: nat, o: nat)
    requires Ok(h, v) && j in v.all && o in v.free[j]
    ensures o < PAGE_SIZE
  {
    hide Ok;
    Managed(h, v, j);
  }

  lemma PagesApart(h: Heap, v: View, p: nat, q: nat)
    requires Ok(h, v) && p in h.pages && q in h.pages && p != q
    ensures p + PAGE_SIZE <= q || q + PAGE_SIZE <= p
  {
    hide Ok;
    Supply(h, v);
  }

  /** Writes inside one page given out do not disturb the pages of other descriptors. */
  lemma OtherPageKept(h: Heap, v: View, mem': map<nat, nat>, p: nat, i: nat)
    requires Ok(h, v) && i in v.all && p in h.pages && PageAddr(h.refs[i]) != p
    requires SameOff(h.mem, mem', p, p + PAGE_SIZE)
    ensures PageOk(h.refs[i], mem', v.free[i], v.used[i])
  {
    hide Ok, SameOff, Chain;
    Managed(h, v, i);
    var q := PageAddr(h.refs[i]);
    PagesApart(h, v, p, q);
    forall o | o in v.free[i] ensures q + o < p || p + PAGE_SIZE <= q + o {
      InPage(h, v, i, o);
    }
    ChainKept(h.mem, mem', q, v.free[i], p, p + PAGE_SIZE);
  }

  // ---------------------------------------------------------------------------
  // Taking the first block of a freelist
  // ---------------------------------------------------------------------------

  function Popped(r: PageRef, free: seq<nat>): PageRef
    requires free != [] && 0 < r.nfree
  {
    r.(nfree := r.nfree - 1, freeOffset := if |free| > 1 then free[1] else INVALID_OFFSET)
  }

  lemma BlocksPop(t: nat, free: seq<nat>, used: map<nat, nat>, asked: nat)
    requires t < NSIZES && BlocksOk(t, free, used) && free != [] && asked <= Size(t)
    ensures BlocksOk(t, free[1..], used[free[0] := asked])
  {
    hide IsBlock;
    assert free == [free[0]] + free[1..];
    assert free[0] in free;
    forall o | o in free[1..] ensures o in free && o != free[0] {
    }
  }

  lemma PagePop(r: PageRef, mem: map<nat, nat>, free: seq<nat>, used: map<nat, nat>, asked: nat)
    requires PageOk(r, mem, free, used) && free != [] && asked <= Size(BlockType(r))
    ensures PageOk(Popped(r, free), mem, free[1..], used[free[0] := asked])
  {
    BlocksPop(BlockType(r), free, used, asked);
    ChainPop(mem, PageAddr(r), free);
    hide BlocksOk, Chain;
    assert PageAddr(Popped(r, free)) == PageAddr(r) && BlockType(Popped(r, free)) == BlockType(r);
  }

  lemma ChainPop(mem: map<nat, nat>, page: nat, free: seq<nat>)
    requires Chain(mem, page, free) && free != []
    ensures Chain(mem, page, free[1..])
  {
    var rest := free[1..];
    forall k | 0 <= k < |rest|
      ensures page + rest[k] in mem && mem[page + rest[k]] == if k + 1 < |rest| then page + rest[k + 1] else 0 {
      assert rest[k] == free[k + 1] && (k + 1 < |rest| ==> rest[k + 1] == free[k + 2]);
    }
  }

  function PopHeap(h: Heap, v: View, j: nat): Heap
    requires Shape(h, v) && j < NPAGEREFS && v.free[j] != [] && 0 < h.refs[j].nfree
  {
    h.(refs := h.refs[j := Popped(h.refs[j], v.free[j])])
  }

  function PopView(v: View, j: nat, asked: nat): View
    requires j < |v.free| == |v.used| && v.free[j] != []
  {
    var taken: map<nat, nat> := v.used[j][v.free[j][0] := asked];
    v.(free := v.free[j := v.free[j][1..]], used := v.used[j := taken])
  }

  lemma OkParts(h: Heap, v: View)
    requires Ok(h, v)
    ensures Shape(h, v) && ListsLinked(h, v) && SameSet(h, v) && PagesOk(h, v)
    ensures SupplyOk(h.pages) && RolesOk(h.pages, v.roles)
  {
  }

  lemma ListDistinct(h: Heap, v: View)
    requires Ok(h, v)
    ensures Distinct(v.all)
  {
    hide Distinct;
  }

  lemma NextKept(refs: seq<PageRef>, j: nat, r: PageRef)
    requires j < |refs| && r.nextSame == refs[j].nextSame && r.nextAll == refs[j].nextAll
    ensures NextAll(refs[j := r]) == NextAll(refs) && NextSame(refs[j := r]) == NextSame(refs)
  {
  }

  lemma SameSetKept(h: Heap, v: View, h': Heap, v': View)
    requires Shape(h, v) && SameSet(h, v) && Shape(h', v') && v'.all == v.all && v'.same == v.same
             && h'.inuse == h.inuse
    requires forall i :: 0 <= i < NPAGEREFS ==> h'.refs[i].pab == h.refs[i].pab
    ensures SameSet(h', v')
  {
    hide Marked;
    forall i | 0 <= i < NPAGEREFS ensures BlockType(h'.refs[i]) == BlockType(h.refs[i]) {
    }
  }

  /** A descriptor changed except in its links and its page. */
  lemma LinksKept(h: Heap, v: View, h': Heap, v': View, j: nat, r: PageRef)
    requires Ok(h, v) && Shape(h', v') && j < NPAGEREFS && |h.refs| == NPAGEREFS
    requires h'.refs == h.refs[j := r] && r.nextSame == h.refs[j].nextSame && r.nextAll == h.refs[j].nextAll
    requires r.pab == h.refs[j].pab && h'.inuse == h.inuse && h'.bases == h.bases && h'.allbase == h.allbase
    requires v'.all == v.all && v'.same == v.same
    ensures ListsLinked(h', v') && SameSet(h', v')
  {
    hide Ok, SameSet, PagesOk, Linked;
    OkParts(h, v);
    NextKept(h.refs, j, r);
    SameSetKept(h, v, h', v');
  }

  /** One page changes, all others are as they were. */
  lemma OnePage(h: Heap, v: View, h': Heap, v': View, j: nat)
    requires Ok(h, v) && Shape(h', v') && j in v.all && j < NPAGEREFS
    requires v'.all == v.all && v'.roles == v.roles && h'.pages == h.pages
    requires h'.refs == h.refs[j := h'.refs[j]] && h'.refs[j].pab == h.refs[j].pab
    requires v'.free == v.free[j := v'.free[j]] && v'.used == v.used[j := v'.used[j]]
    requires SameOff(h.mem, h'.mem, PageAddr(h.refs[j]), PageAddr(h.refs[j]) + PAGE_SIZE)
    requires PageOk(h'.refs[j], h'.mem, v'.free[j], v'.used[j])
    ensures PagesOk(h', v')
  {
    hide Ok, PageOk, SameOff;
    Managed(h, v, j);
    var p := PageAddr(h.refs[j]);
    forall i | i in v'.all
      ensures && i < NPAGEREFS && PageOk(h'.refs[i], h'.mem, v'.free[i], v'.used[i])
              && PageAddr(h'.refs[i]) in v'.roles && v'.roles[PageAddr(h'.refs[i])] == Sub(i) {
      Managed(h, v, i);
      if i != j {
        OtherPageKept(h, v, h'.mem, p, i);
      }
    }
    forall q | q in v'.roles && v'.roles[q].Sub?
      ensures v'.roles[q].index in v'.all && v'.roles[q].index < NPAGEREFS
      ensures PageAddr(h'.refs[v'.roles[q].index]) == q {
      ManagedBy(h, v, q);
    }
  }

  lemma OkIntro(h: Heap, v: View)
    requires Shape(h, v) && ListsLinked(h, v) && SameSet(h, v) && PagesOk(h, v)
    requires SupplyOk(h.pages) && RolesOk(h.pages, v.roles)
    ensures Ok(h, v)
  {
  }

  lemma PopKeeps(h: Heap, v: View, j: nat, asked: nat)
    requires Ok(h, v) && j in v.all && j < NPAGEREFS && v.free[j] != [] && 0 < h.refs[j].nfree
    requires BlockType(h.refs[j]) < NSIZES && asked <= Size(BlockType(h.refs[j]))
    ensures Ok(PopHeap(h, v, j), PopView(v, j, asked))
  {
    hide Ok, PageOk, ListsLinked, SameSet, PagesOk, SupplyOk, RolesOk;
    OkParts(h, v);
    var h', v' := PopHeap(h, v, j), PopView(v, j, asked);
    Managed(h, v, j);
    PagePop(h.refs[j], h.mem, v.free[j], v.used[j], asked);
    OnePage(h, v, h', v', j);
    LinksKept(h, v, h', v', j, h'.refs[j]);
    OkIntro(h', v');
  }

  // ---------------------------------------------------------------------------
  // Putting a block back on its page's freelist
  // ---------------------------------------------------------------------------

  function Pushed(r: PageRef, o: nat): PageRef { r.(nfree := r.nfree + 1, freeOffset := o) }

  lemma BlocksPush(t: nat, free: seq<nat>, used: map<nat, nat>, o: nat)
    requires t < NSIZES && BlocksOk(t, free, used) && o in used
    ensures BlocksOk(t, [o] + free, used - {o})
  {
    hide IsBlock;
    var free', used' := [o] + free, used - {o};
    assert o !in free;
    assert used == used'[o := used[o]];
    forall x | x in free' ensures x == o || x in free {
    }
    forall x: nat | IsBlock(t, x) ensures x in free' || x in used' {
      assert x in free ==> x in free';
    }
  }

  /** The freelist link kfree writes into a block it takes back. */
  function LinkTo(page: nat, free: seq<nat>): nat { if free == [] then 0 else page + free[0] }

  /** Memory after kfree has overwritten a block and linked it in front of the freelist. */
  ghost predicate BlockFreed(mem: map<nat, nat>, mem': map<nat, nat>, page: nat, o: nat, size: nat, free: seq<nat>)
  {
    SameOff(mem, mem', page + o, page + o + size) && page + o in mem' && mem'[page + o] == LinkTo(page, free)
  }

  /** The link in the first free block. */
  lemma ChainFirst(mem: map<nat, nat>, page: nat, free: seq<nat>)
    requires Chain(mem, page, free) && free != []
    ensures page + free[0] in mem && mem[page + free[0]] == LinkTo(page, free[1..])
    ensures LinkTo(page, free[1..]) == if |free| > 1 then page + free[1] else 0
  {
    var k := 0;
    assert page + free[k] in mem && mem[page + free[k]] == if k + 1 < |free| then page + free[k + 1] else 0;
    var rest := free[1..];
    assert |free| > 1 ==> rest[0] == free[1];
  }

  lemma ChainPush(mem: map<nat, nat>, mem': map<nat, nat>, page: nat, free: seq<nat>, used: map<nat, nat>, t: nat,
                  o: nat)
    requires t < NSIZES && BlocksOk(t, free, used) && o in used
    requires Chain(mem, page, free) && BlockFreed(mem, mem', page, o, Size(t), free)
    ensures Chain(mem', page, [o] + free)
  {
    forall x | x in free ensures page + x < page + o || page + o + Size(t) <= page + x {
      BlocksApart(t, o, x);
    }
    hide BlocksOk, SameOff;
    ChainKept(mem, mem', page, free, page + o, page + o + Size(t));
    var free' := [o] + free;
    forall k | 0 <= k < |free'|
      ensures page + free'[k] in mem'
      ensures mem'[page + free'[k]] == if k + 1 < |free'| then page + free'[k + 1] else 0 {
      if k > 0 {
        assert free'[k] == free[k - 1] && (k + 1 < |free'| ==> free'[k + 1] == free[k]);
      } else {
        assert free'[0] == o && (1 < |free'| ==> free'[1] == free[0]);
      }
    }
    assert Chain(mem', page, free');
  }

  lemma PagePush(r: PageRef, mem: map<nat, nat>, mem': map<nat, nat>, free: seq<nat>, used: map<nat, nat>, o: nat)
    requires PageOk(r, mem, free, used) && o in used
    requires BlockFreed(mem, mem', PageAddr(r), o, Size(BlockType(r)), free)
    ensures PageOk(Pushed(r, o), mem', [o] + free, used - {o})
  {
    BlocksPush(BlockType(r), free, used, o);
    ChainPush(mem, mem', PageAddr(r), free, used, BlockType(r), o);
    hide BlocksOk, Chain;
    assert PageAddr(Pushed(r, o)) == PageAddr(r) && BlockType(Pushed(r, o)) == BlockType(r);
  }

  function PushHeap(h: Heap, mem': map<nat, nat>, j: nat, o: nat): Heap
    requires j < |h.refs|
  {
    h.(refs := h.refs[j := Pushed(h.refs[j], o)], mem := mem')
  }

  function PushView(v: View, j: nat, o: nat): View
    requires j < |v.free| == |v.used|
  {
    v.(free := v.free[j := [o] + v.free[j]], used := v.used[j := v.used[j] - {o}])
  }

  lemma SameOffWider(mem: map<nat, nat>, mem': map<nat, nat>, lo: nat, hi: nat, lo': nat, hi': nat)
    requires SameOff(mem, mem', lo, hi) && lo' <= lo && hi <= hi'
    ensures SameOff(mem, mem', lo', hi')
  {
  }

  lemma PushKeeps(h: Heap, v: View, mem': map<nat, nat>, j: nat, o: nat)
    requires Ok(h, v) && j in v.all && j < NPAGEREFS && o in v.used[j] && BlockType(h.refs[j]) < NSIZES
    requires BlockFreed(h.mem, mem', PageAddr(h.refs[j]), o, Size(BlockType(h.refs[j])), v.free[j])
    ensures Ok(PushHeap(h, mem', j, o), PushView(v, j, o))
  {
    hide Ok, ListsLinked, SameSet, PagesOk, SupplyOk, RolesOk, SameOff, Chain;
    OkParts(h, v);
    var h', v', p, t := PushHeap(h, mem', j, o), PushView(v, j, o), PageAddr(h.refs[j]), BlockType(h.refs[j]);
    Managed(h, v, j);
    BlocksApart(t, o, o);
    SameOffWider(h.mem, mem', p + o, p + o + Size(t), p, p + PAGE_SIZE);
    PagePush(h.refs[j], h.mem, mem', v.free[j], v.used[j], o);
    hide PageOk, BlocksOk, BlockFreed;
    OnePage(h, v, h', v', j);
    LinksKept(h, v, h', v', j, h'.refs[j]);
    OkIntro(h', v');
  }

  // ---------------------------------------------------------------------------
  // Giving up a page whose blocks are all free
  // ---------------------------------------------------------------------------

  /** Only links changed. */
  predicate SameButLinks(r: PageRef, r': PageRef)
  {
    r'.pab == r.pab && r'.nfree == r.nfree && r'.freeOffset == r.freeOffset
  }

  ghost predicate OnlyLinks(refs: seq<PageRef>, refs': seq<PageRef>)
  {
    |refs'| == |refs| && forall i :: 0 <= i < |refs| ==> SameButLinks(refs[i], refs'[i])
  }

  lemma PageRelinked(r: PageRef, r': PageRef, mem: map<nat, nat>, free: seq<nat>, used: map<nat, nat>)
    requires PageOk(r, mem, free, used) && SameButLinks(r, r')
    ensures PageOk(r', mem, free, used)
  {
    hide BlocksOk, Chain;
  }

  function DropView(v: View, j: nat, t: nat, k: nat, m: nat, p: nat): View
    requires k < |v.all| && t < |v.same| && m < |v.same[t]|
  {
    v.(all := Without(v.all, k), same := v.same[t := Without(v.same[t], m)], roles := v.roles[p := Held])
  }

  /** remove_lists and freepageref have taken descriptor j off both lists and cleared its mark. */
  ghost predicate Dropped(h: Heap, v: View, h': Heap, j: nat, t: nat, k: nat, m: nat)
    requires Shape(h, v)
  {
    && |h'.inuse| == INUSE_WORDS && |h'.bases| == NSIZES && OnlyLinks(h.refs, h'.refs)
    && h'.mem == h.mem && h'.pages == h.pages
    && (forall n :: 0 <= n < NPAGEREFS ==> (Marked(h'.inuse, n) <==> n != j && Marked(h.inuse, n)))
    && t < NSIZES && k < |v.all| && v.all[k] == j && m < |v.same[t]| && v.same[t][m] == j
    && Linked(NextAll(h'.refs), h'.allbase, Without(v.all, k))
    && Linked(NextSame(h'.refs), h'.bases[t], Without(v.same[t], m))
    && (forall u :: 0 <= u < NSIZES && u != t ==> Linked(NextSame(h'.refs), h'.bases[u], v.same[u]))
  }

  /** Descriptor j leaves every set it is in. */
  lemma LeaveSets(h: Heap, v: View, h': Heap, v': View, j: nat)
    requires Shape(h, v) && SameSet(h, v) && Shape(h', v') && OnlyLinks(h.refs, h'.refs)
    requires forall n :: 0 <= n < NPAGEREFS ==> (Marked(h'.inuse, n) <==> n != j && Marked(h.inuse, n))
    requires forall n :: n in v'.all <==> n in v.all && n != j
    requires forall u, n :: 0 <= u < NSIZES ==> (n in v'.same[u] <==> n in v.same[u] && n != j)
    ensures SameSet(h', v')
  {
    hide Marked;
    forall i | 0 <= i < NPAGEREFS ensures BlockType(h'.refs[i]) == BlockType(h.refs[i]) {
      assert SameButLinks(h.refs[i], h'.refs[i]);
    }
  }

  lemma OnlyItsList(h: Heap, v: View, j: nat, t: nat, u: nat)
    requires Shape(h, v) && SameSet(h, v) && t < NSIZES && u < NSIZES && u != t && j in v.same[t]
    ensures j !in v.same[u]
  {
    hide Marked;
    assert j in v.all && BlockType(h.refs[j]) == t;
    assert j in v.same[u] <==> j in v.all && BlockType(h.refs[j]) == u;
  }

  lemma DropSets(h: Heap, v: View, h': Heap, v': View, j: nat, t: nat, k: nat, m: nat)
    requires Ok(h, v) && Shape(h, v) && Dropped(h, v, h', j, t, k, m)
    requires v' == DropView(v, j, t, k, m, PageAddr(h.refs[j]))
    ensures Shape(h', v') && SameSet(h', v')
  {
    hide Ok, PagesOk, SupplyOk, RolesOk, Marked, OnlyLinks, Without, SameSet, Distinct, PtrAt;
    OkParts(h, v);
    assert Linked(NextSame(h.refs), h.bases[t], v.same[t]);
    WithoutDistinct(v.all, k);
    WithoutDistinct(v.same[t], m);
    hide ListsLinked, Linked;
    forall u, n | 0 <= u < NSIZES ensures n in v'.same[u] <==> n in v.same[u] && n != j {
      assert j in v.same[t];
      if u != t {
        OnlyItsList(h, v, j, t, u);
      }
    }
    assert |h'.refs| == NPAGEREFS by { Sizes(h.refs, h'.refs); }
    LeaveSets(h, v, h', v', j);
  }

  lemma Sizes(refs: seq<PageRef>, refs': seq<PageRef>)
    requires OnlyLinks(refs, refs')
    ensures |refs'| == |refs|
  {
  }

  lemma DropPages(h: Heap, v: View, h': Heap, v': View, j: nat)
    requires Ok(h, v) && Shape(h, v) && Shape(h', v') && OnlyLinks(h.refs, h'.refs) && h'.mem == h.mem
    requires j in v.all && j < NPAGEREFS && (forall n :: n in v'.all <==> n in v.all && n != j)
    requires v'.free == v.free && v'.used == v.used && v'.roles == v.roles[PageAddr(h.refs[j]) := Held]
    ensures PagesOk(h', v')
  {
    hide Ok, PageOk;
    Managed(h, v, j);
    forall i | i in v'.all
      ensures && i < NPAGEREFS && PageOk(h'.refs[i], h'.mem, v'.free[i], v'.used[i])
              && PageAddr(h'.refs[i]) in v'.roles && v'.roles[PageAddr(h'.refs[i])] == Sub(i) {
      Managed(h, v, i);
      assert SameButLinks(h.refs[i], h'.refs[i]);
      PageRelinked(h.refs[i], h'.refs[i], h.mem, v.free[i], v.used[i]);
    }
    forall q | q in v'.roles && v'.roles[q].Sub?
      ensures v'.roles[q].index in v'.all && v'.roles[q].index < NPAGEREFS
      ensures PageAddr(h'.refs[v'.roles[q].index]) == q {
      ManagedBy(h, v, q);
      assert SameButLinks(h.refs[v.roles[q].index], h'.refs[v.roles[q].index]);
    }
  }

  lemma DropKeeps(h: Heap, v: View, h': Heap, j: nat, t: nat, k: nat, m: nat)
    requires Ok(h, v) && Shape(h, v) && Dropped(h, v, h', j, t, k, m) && j < NPAGEREFS
    ensures Ok(h', DropView(v, j, t, k, m, PageAddr(h.refs[j])))
  {
    hide Ok, PagesOk, SupplyOk, SameSet, Marked, Linked, OnlyLinks, Without;
    var v' := DropView(v, j, t, k, m, PageAddr(h.refs[j]));
    OkParts(h, v);
    DropSets(h, v, h', v', j, t, k, m);
    assert j in v.all;
    assert forall n :: n in v'.all <==> n in v.all && n != j by {
      ListDistinct(h, v);
      WithoutDistinct(v.all, k);
    }
    DropPages(h, v, h', v', j);
    Managed(h, v, j);
    OkIntro(h', v');
  }

  // ---------------------------------------------------------------------------
  // Putting a fresh page to use
  // ---------------------------------------------------------------------------

  /** The freelist of a fresh page: the last block first. */
  function Descending(t: nat): (l: seq<nat>)
    requires t < NSIZES
    ensures |l| == PerPage(t) && forall k :: 0 <= k < |l| ==> l[k] == (PerPage(t) - 1 - k) * Size(t)
  {
    seq(PerPage(t), k requires 0 <= k < PerPage(t) => (PerPage(t) - 1 - k) * Size(t))
  }

  lemma Multiples(s: nat, n: nat, i: nat, k: nat)
    requires s > 0 && i < n && k < n
    ensures 0 <= i * s < n * s && (i * s) % s == 0 && (i * s) / s == i && (i != k ==> i * s != k * s)
  {
    ModUnique(i * s, s, i, 0);
    ModUnique(k * s, s, k, 0);
    MulLe(i + 1, n, s);
  }

  lemma Quotient(o: nat, s: nat, n: nat)
    requires s > 0 && o < n * s && o % s == 0
    ensures o / s < n && (o / s) * s == o
  {
    if o / s >= n {
      MulLe(n, o / s, s);
    }
  }

  lemma BlocksFresh(t: nat)
    requires t < NSIZES
    ensures BlocksOk(t, Descending(t), map[])
  {
    var l, s, n := Descending(t), Size(t), PerPage(t);
    hide Descending, Size, PerPage;
    forall o | o in l ensures IsBlock(t, o) {
      var k :| 0 <= k < |l| && l[k] == o;
      Multiples(s, n, n - 1 - k, 0);
    }
    forall i, k | 0 <= i < k < |l| ensures l[i] != l[k] {
      Multiples(s, n, n - 1 - i, n - 1 - k);
    }
    forall o: nat | IsBlock(t, o) ensures o in l {
      Quotient(o, s, n);
      assert l[n - 1 - o / s] == o;
    }
  }

  function LastBlock(t: nat): nat
    requires t < NSIZES
  {
    (PerPage(t) - 1) * Size(t)
  }

  function FreshRef(h: Heap, p: nat, t: nat): PageRef
    requires |h.bases| == NSIZES && t < NSIZES && p % PAGE_SIZE == 0
  {
    PageRef(h.bases[t], h.allbase, Pack(p, t), LastBlock(t), PerPage(t))
  }

  function InstallHeap(h: Heap, inuse': seq<bv32>, mem': map<nat, nat>, j: nat, p: nat, t: nat): Heap
    requires |h.bases| == NSIZES && t < NSIZES && p % PAGE_SIZE == 0 && j < |h.refs|
  {
    h.(refs := h.refs[j := FreshRef(h, p, t)], inuse := inuse', bases := h.bases[t := At(j)], allbase := At(j),
       mem := mem')
  }

  function InstallView(v: View, j: nat, p: nat, t: nat): View
    requires t < NSIZES == |v.same| && j < |v.free| == |v.used|
  {
    v.(all := [j] + v.all, same := v.same[t := [j] + v.same[t]], free := v.free[j := Descending(t)],
       used := v.used[j := map[]], roles := v.roles[p := Sub(j)])
  }

  /** Descriptor j was free and is now marked; the page's freelist has been threaded. */
  ghost predicate Prepared(h: Heap, v: View, inuse': seq<bv32>, mem': map<nat, nat>, j: nat, p: nat, t: nat)
    requires Shape(h, v)
  {
    && |inuse'| == INUSE_WORDS && j < NPAGEREFS && !Marked(h.inuse, j) && t < NSIZES
    && (forall n :: 0 <= n < NPAGEREFS ==> (Marked(inuse', n) <==> n == j || Marked(h.inuse, n)))
    && p in v.roles && v.roles[p].Held? && p % PAGE_SIZE == 0
    && SameOff(h.mem, mem', p, p + PAGE_SIZE) && Chain(mem', p, Descending(t))
  }

  lemma InstallLinks(h: Heap, v: View, h': Heap, v': View, j: nat, p: nat, t: nat)
    requires Ok(h, v) && Shape(h, v) && j < NPAGEREFS && j !in v.all && t < NSIZES && p % PAGE_SIZE == 0
    requires h'.refs == h.refs[j := FreshRef(h, p, t)] && h'.bases == h.bases[t := At(j)] && h'.allbase == At(j)
    requires Shape(h', v') && v'.all == [j] + v.all && v'.same == v.same[t := [j] + v.same[t]]
    ensures ListsLinked(h', v')
  {
    hide Ok, PagesOk, SameSet, SupplyOk, RolesOk, Pack, PerPage, Size, Linked, Marked, LastBlock;
    OkParts(h, v);
    assert NextAll(h'.refs) == NextAll(h.refs)[j := h.allbase];
    assert NextSame(h'.refs) == NextSame(h.refs)[j := h.bases[t]];
    hide NextAll, NextSame;
    LinkedPush(NextAll(h.refs), h.allbase, v.all, j);
    forall u | 0 <= u < NSIZES ensures Linked(NextSame(h'.refs), h'.bases[u], v'.same[u]) {
      NotListed(h, v, j, u);
      assert Linked(NextSame(h.refs), h.bases[u], v.same[u]);
      if u == t {
        LinkedPush(NextSame(h.refs), h.bases[t], v.same[t], j);
      } else {
        LinkedApart(NextSame(h.refs), NextSame(h'.refs), h.bases[u], v.same[u]);
      }
    }
  }

  lemma NotListed(h: Heap, v: View, j: nat, u: nat)
    requires Shape(h, v) && SameSet(h, v) && u < NSIZES && j !in v.all
    ensures j !in v.same[u]
  {
    hide Marked;
  }

  lemma InstallSets(h: Heap, v: View, h': Heap, v': View, j: nat, p: nat, t: nat)
    requires Shape(h, v) && SameSet(h, v) && Shape(h', v') && j < NPAGEREFS && j !in v.all && t < NSIZES
             && p % PAGE_SIZE == 0
    requires forall n :: 0 <= n < NPAGEREFS ==> (Marked(h'.inuse, n) <==> n == j || Marked(h.inuse, n))
    requires h'.refs == h.refs[j := FreshRef(h, p, t)] && v'.all == [j] + v.all
             && v'.same == v.same[t := [j] + v.same[t]]
    ensures SameSet(h', v')
  {
    hide Marked;
    assert BlockType(h'.refs[j]) == t;
    forall i, u | 0 <= u < NSIZES ensures i in v'.same[u] <==> i in v'.all && BlockType(h'.refs[i]) == u {
      NotListed(h, v, j, u);
      assert i in v.same[u] <==> i in v.all && BlockType(h.refs[i]) == u;
      assert i in v'.all <==> i == j || i in v.all;
      assert i in v'.same[u] <==> (i == j && u == t) || i in v.same[u];
    }
  }

  lemma FreshPage(h: Heap, mem': map<nat, nat>, p: nat, t: nat)
    requires |h.bases| == NSIZES && t < NSIZES && p % PAGE_SIZE == 0 && Chain(mem', p, Descending(t))
    ensures PageOk(FreshRef(h, p, t), mem', Descending(t), map[]) && PageAddr(FreshRef(h, p, t)) == p
  {
    BlocksFresh(t);
    hide BlocksOk, Chain;
  }

  lemma InstallPages(h: Heap, v: View, h': Heap, v': View, j: nat, p: nat, t: nat)
    requires Ok(h, v) && Shape(h, v) && j < NPAGEREFS && j !in v.all && t < NSIZES
    requires p in v.roles && v.roles[p].Held? && p % PAGE_SIZE == 0
    requires Shape(h', v') && h'.refs == h.refs[j := FreshRef(h, p, t)] && v' == InstallView(v, j, p, t)
    requires SameOff(h.mem, h'.mem, p, p + PAGE_SIZE) && Chain(h'.mem, p, Descending(t))
    ensures PagesOk(h', v')
  {
    hide Ok, PageOk, SameOff, Chain, Descending;
    FreshPage(h, h'.mem, p, t);
    Supply(h, v);
    hide FreshRef, SupplyOk;
    forall i | i in v'.all
      ensures && i < NPAGEREFS && PageOk(h'.refs[i], h'.mem, v'.free[i], v'.used[i])
              && PageAddr(h'.refs[i]) in v'.roles && v'.roles[PageAddr(h'.refs[i])] == Sub(i) {
      if i != j {
        Managed(h, v, i);
        OtherPageKept(h, v, h'.mem, p, i);
      }
    }
    forall q | q in v'.roles && v'.roles[q].Sub?
      ensures v'.roles[q].index in v'.all && v'.roles[q].index < NPAGEREFS
      ensures PageAddr(h'.refs[v'.roles[q].index]) == q {
      if q != p {
        ManagedBy(h, v, q);
      }
    }
  }

  lemma InstallKeeps(h: Heap, v: View, inuse': seq<bv32>, mem': map<nat, nat>, j: nat, p: nat, t: nat)
    requires Ok(h, v) && Shape(h, v) && Prepared(h, v, inuse', mem', j, p, t)
    ensures Ok(InstallHeap(h, inuse', mem', j, p, t), InstallView(v, j, p, t))
  {
    hide Ok, PagesOk, ListsLinked, SupplyOk, SameOff, Chain, Descending, FreshRef;
    var h', v' := InstallHeap(h, inuse', mem', j, p, t), InstallView(v, j, p, t);
    OkParts(h, v);
    assert j !in v.all;
    hide SameSet;
    InstallSets(h, v, h', v', j, p, t);
    InstallLinks(h, v, h', v', j, p, t);
    InstallPages(h, v, h', v', j, p, t);
    OkIntro(h', v');
  }
}
