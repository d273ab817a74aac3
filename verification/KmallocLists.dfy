/** The freelists and page lists as a program sees them, by following pointers from their heads:
    they end, and they hold exactly the free blocks and exactly the descriptors in use. */
module KmallocLists {
  import opened Basics
  import opened PageRefs
  import opened KmallocState
  import opened KmallocSteps
  import opened KmallocLive

  // ---------------------------------------------------------------------------
  // Freelists
  // ---------------------------------------------------------------------------

  /** The addresses met by following freelist links from a, at most `fuel` of them. */
  function Walk(mem: map<nat, nat>, a: nat, fuel: nat): seq<nat>
    decreases fuel
  {
    if a == 0 || fuel == 0 || a !in mem then [] else [a] + Walk(mem, mem[a], fuel - 1)
  }

  function FreeHead(r: PageRef): nat { if r.freeOffset == INVALID_OFFSET then 0 else PageAddr(r) + r.freeOffset }

  lemma {:induction false} WalkChain(mem: map<nat, nat>, page: nat, free: seq<nat>, fuel: nat, w: seq<nat>)
    requires Chain(mem, page, free) && 0 < page && fuel >= |free|
    requires w == Walk(mem, LinkTo(page, free), fuel)
    ensures |w| == |free| && forall k :: 0 <= k < |w| ==> w[k] == page + free[k]
    decreases |free|
  {
    if free != [] {
      ChainPop(mem, page, free);
      var a := page + free[0];
      ChainFirst(mem, page, free);
      WalkChain(mem, page, free[1..], fuel - 1, Walk(mem, mem[a], fuel - 1));
    }
  }

  lemma Shifted(page: nat, free: seq<nat>, w: seq<nat>)
    requires |w| == |free| && (forall k :: 0 <= k < |w| ==> w[k] == page + free[k]) && Distinct(free)
    ensures Distinct(w) && (forall a :: a in w ==> page <= a) && (forall o: nat :: page + o in w <==> o in free)
  {
    forall o: nat | o in free ensures page + o in w {
      var k :| 0 <= k < |free| && free[k] == o;
      assert w[k] == page + o;
    }
  }

  /** w lists, each once, the blocks of descriptor r's page that are not live. */
  ghost predicate ListsFree(r: PageRef, v: View, w: seq<nat>)
    requires BlockType(r) < NSIZES
  {
    && |w| == r.nfree && Distinct(w) && (forall a :: a in w ==> PageAddr(r) <= a)
    && (forall o: nat :: PageAddr(r) + o in w <==> IsBlock(BlockType(r), o) && !Live(v, PageAddr(r) + o))
  }

  /** However far one follows page j's freelist, it ends after nfree blocks: distinct, inside the
      page, aligned, and exactly the blocks of the page that are not live. */
  lemma FreelistIsFreeBlocks(h: Heap, v: View, j: nat, fuel: nat)
    requires Ok(h, v) && j in v.all && j < |h.refs| && fuel >= h.refs[j].nfree && BlockType(h.refs[j]) < NSIZES
    ensures ListsFree(h.refs[j], v, Walk(h.mem, FreeHead(h.refs[j]), fuel))
    ensures h.refs[j].freeOffset == INVALID_OFFSET <==> h.refs[j].nfree == 0
  {
    hide Ok, Live, IsBlock, Walk, PageAddr, BlockType, Distinct;
    var r, w := h.refs[j], Walk(h.mem, FreeHead(h.refs[j]), fuel);
    WalkPage(h, v, j, fuel);
    FreeDistinct(h, v, j);
    Shifted(PageAddr(r), v.free[j], w);
    forall o: nat ensures o in v.free[j] <==> IsBlock(BlockType(r), o) && !Live(v, PageAddr(r) + o) {
      FreeOrLive(h, v, j, o);
    }
  }

  lemma WalkPage(h: Heap, v: View, j: nat, fuel: nat)
    requires Ok(h, v) && j in v.all && j < |h.refs| && fuel >= h.refs[j].nfree
    ensures var w := Walk(h.mem, FreeHead(h.refs[j]), fuel);
            && j < |v.free| && |w| == |v.free[j]| == h.refs[j].nfree
            && forall k :: 0 <= k < |w| ==> w[k] == PageAddr(h.refs[j]) + v.free[j][k]
  {
    hide Ok, BlocksOk, Chain, Walk;
    Managed(h, v, j);
    LinkIs(h, v, j);
    WalkChain(h.mem, PageAddr(h.refs[j]), v.free[j], fuel, Walk(h.mem, FreeHead(h.refs[j]), fuel));
  }

  lemma FreeDistinct(h: Heap, v: View, j: nat)
    requires Ok(h, v) && j in v.all && j < |v.free| && j < |h.refs|
    ensures Distinct(v.free[j]) && (h.refs[j].freeOffset == INVALID_OFFSET <==> h.refs[j].nfree == 0)
  {
    hide Ok;
    Managed(h, v, j);
    if v.free[j] != [] {
      assert v.free[j][0] in v.free[j];
      InPage(h, v, j, v.free[j][0]);
    }
  }

  lemma FreeOrLive(h: Heap, v: View, j: nat, o: nat)
    requires Ok(h, v) && j in v.all && j < |h.refs| && BlockType(h.refs[j]) < NSIZES && j < |v.free|
    ensures o in v.free[j] <==> IsBlock(BlockType(h.refs[j]), o) && !Live(v, PageAddr(h.refs[j]) + o)
  {
    hide Ok, Live, Asked, SameLive, PageOk;
    Managed(h, v, j);
    FreeOrUsed(h, v, j, o);
    if o < PAGE_SIZE {
      OneUsed(h, v, v, j, o);
    }
  }

  lemma FreeOrUsed(h: Heap, v: View, j: nat, o: nat)
    requires Ok(h, v) && j in v.all && j < |h.refs| && BlockType(h.refs[j]) < NSIZES && j < |v.free| && j < |v.used|
    ensures o in v.free[j] <==> IsBlock(BlockType(h.refs[j]), o) && o !in v.used[j]
  {
    hide Ok, IsBlock;
    Managed(h, v, j);
  }

  // ---------------------------------------------------------------------------
  // Page lists
  // ---------------------------------------------------------------------------

  /** The descriptors met by following `next` links, at most `fuel` of them. */
  function Visit(next: seq<Ptr>, p: Ptr, fuel: nat): seq<nat>
    decreases fuel
  {
    if p.Null? || fuel == 0 || p.index >= |next| then [] else [p.index] + Visit(next, next[p.index], fuel - 1)
  }

  lemma {:induction false} VisitLinked(next: seq<Ptr>, l: seq<nat>, k: nat, fuel: nat)
    requires Linked(next, PtrAt(l, 0), l) && k <= |l| && fuel >= |l| - k
    ensures Visit(next, PtrAt(l, k), fuel) == l[k..]
    decreases |l| - k
  {
    hide Linked;
    if k < |l| {
      hide Visit;
      LinkAt(next, l, k);
      VisitLinked(next, l, k + 1, fuel - 1);
      VisitStep(next, l[k], fuel);
      assert l[k..] == [l[k]] + l[k + 1..];
    }
  }

  lemma LinkAt(next: seq<Ptr>, l: seq<nat>, k: nat)
    requires Linked(next, PtrAt(l, 0), l) && k < |l|
    ensures l[k] < |next| && next[l[k]] == PtrAt(l, k + 1)
  {
  }

  lemma VisitStep(next: seq<Ptr>, j: nat, fuel: nat)
    requires j < |next| && fuel > 0
    ensures Visit(next, At(j), fuel) == [j] + Visit(next, next[j], fuel - 1)
  {
  }

  /** A list of distinct numbers below n has at most n of them. */
  lemma {:induction false} BoundedList(l: seq<nat>, n: nat)
    requires Distinct(l) && forall k :: 0 <= k < |l| ==> l[k] < n
    ensures |l| <= n
  {
    assert l != [] ==> l[0] < n;
    if n > 0 {
      if k :| 0 <= k < |l| && l[k] == n - 1 {
        WithoutDistinct(l, k);
        var r := Without(l, k);
        forall i | 0 <= i < |r| ensures r[i] < n - 1 {
          assert r[i] in r;
        }
        BoundedList(r, n - 1);
      } else {
        BoundedList(l, n - 1);
      }
    }
  }

  /** A list of the heap, followed far enough, is what the view says. */
  lemma VisitAll(next: seq<Ptr>, head: Ptr, l: seq<nat>, fuel: nat)
    requires Linked(next, head, l) && |next| == NPAGEREFS && fuel >= NPAGEREFS
    ensures Visit(next, head, fuel) == l && Distinct(l)
  {
    BoundedList(l, NPAGEREFS);
    VisitLinked(next, l, 0, fuel);
    assert l[0..] == l;
  }

  /** The descriptors in use. */
  predicate InUse(h: Heap, j: nat)
    requires |h.inuse| == INUSE_WORDS
  {
    j < NPAGEREFS && Marked(h.inuse, j)
  }

  /** Following allbase terminates and visits exactly the marked descriptors, each once; following
      a sizebases entry visits exactly those of its block type. */
  lemma ListsAreTheMarks(h: Heap, v: View, fuel: nat, t: nat)
    requires Ok(h, v) && t < NSIZES && fuel >= NPAGEREFS
    requires |h.refs| == NPAGEREFS && |h.inuse| == INUSE_WORDS && |h.bases| == NSIZES
    ensures Distinct(Visit(NextAll(h.refs), h.allbase, fuel)) && Distinct(Visit(NextSame(h.refs), h.bases[t], fuel))
    ensures forall j: nat :: j in Visit(NextAll(h.refs), h.allbase, fuel) <==> InUse(h, j)
    ensures forall j: nat :: j in Visit(NextSame(h.refs), h.bases[t], fuel) <==>
              InUse(h, j) && BlockType(h.refs[j]) == t
  {
    OkParts(h, v);
    hide Ok, PagesOk, SupplyOk, RolesOk, Marked, BlockType, Visit, Linked, Distinct;
    VisitAll(NextAll(h.refs), h.allbase, v.all, fuel);
    VisitAll(NextSame(h.refs), h.bases[t], v.same[t], fuel);
  }
}
