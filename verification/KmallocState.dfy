/** The kernel heap of kmalloc.c as one value: page descriptors, the two families of lists through
    them, the freelists threaded through the pages, and the pages the page allocator has given out.
    `Ok` is what every critical section of the allocator keeps. */
module KmallocState {
  import opened Basics
  import opened PageRefs

  const PAGE_SIZE := 4096
  const NSIZES := 8
  const LARGEST_SUBPAGE_SIZE := 2048
  const INVALID_OFFSET := 0xffff
  const ADDRESSES := WORD

  function Size(t: nat): (n: nat)
    requires t < NSIZES
    ensures 16 <= n <= 2048
  {
    if t == 0 then 16 else if t == 1 then 32 else if t == 2 then 64 else if t == 3 then 128
    else if t == 4 then 256 else if t == 5 then 512 else if t == 6 then 1024 else 2048
  }

  function PerPage(t: nat): (n: nat)
    requires t < NSIZES
    ensures 2 <= n <= 256 && n * Size(t) == PAGE_SIZE
  {
    PAGE_SIZE / Size(t)
  }

  /** pageaddr_and_blocktype packs both into one word. */
  datatype PageRef = PageRef(nextSame: Ptr, nextAll: Ptr, pab: nat, freeOffset: nat, nfree: nat)

  function PageOf(a: nat): nat { a - a % PAGE_SIZE }

  function PageAddr(r: PageRef): nat { PageOf(r.pab) }

  function BlockType(r: PageRef): nat { r.pab % PAGE_SIZE }

  function Pack(page: nat, t: nat): (pab: nat)
    requires page % PAGE_SIZE == 0 && t < NSIZES
    ensures PageOf(pab) == page && pab % PAGE_SIZE == t
  {
    page + t
  }

  /** What a page given out by the page allocator is used for. */
  datatype Role = Sub(index: nat) | Big(asked: nat) | Held

  /** `free[j]` is page j's freelist as offsets, `used[j]` the sizes asked for its live blocks. */
  datatype View = View(all: seq<nat>, same: seq<seq<nat>>, free: seq<seq<nat>>, used: seq<map<nat, nat>>,
                       roles: map<nat, Role>)

  /** `mem` holds the words of memory by address, `pages` the ranges given out: start and page count. */
  datatype Heap = Heap(refs: seq<PageRef>, inuse: seq<bv32>, bases: seq<Ptr>, allbase: Ptr,
                       mem: map<nat, nat>, pages: map<nat, nat>)

  // ---------------------------------------------------------------------------
  // Lists
  // ---------------------------------------------------------------------------

  function PtrAt(l: seq<nat>, k: nat): Ptr { if k < |l| then At(l[k]) else Null }

  /** Following next from head visits exactly l. */
  ghost predicate Linked(next: seq<Ptr>, head: Ptr, l: seq<nat>)
  {
    && head == PtrAt(l, 0) && Distinct(l)
    && forall k :: 0 <= k < |l| ==> l[k] < |next| && next[l[k]] == PtrAt(l, k + 1)
  }

  function NextSame(refs: seq<PageRef>): (r: seq<Ptr>)
    ensures |r| == |refs| && forall i :: 0 <= i < |r| ==> r[i] == refs[i].nextSame
  {
    seq(|refs|, i requires 0 <= i < |refs| => refs[i].nextSame)
  }

  function NextAll(refs: seq<PageRef>): (r: seq<Ptr>)
    ensures |r| == |refs| && forall i :: 0 <= i < |r| ==> r[i] == refs[i].nextAll
  {
    seq(|refs|, i requires 0 <= i < |refs| => refs[i].nextAll)
  }

  function Without(l: seq<nat>, k: nat): seq<nat>
    requires k < |l|
  {
    l[..k] + l[k + 1..]
  }

  lemma LinkedPush(next: seq<Ptr>, head: Ptr, l: seq<nat>, j: nat)
    requires Linked(next, head, l) && j < |next| && j !in l
    ensures Linked(next[j := head], At(j), [j] + l)
  {
    var l', next' := [j] + l, next[j := head];
    forall k | 0 <= k < |l'| ensures l'[k] < |next'| && next'[l'[k]] == PtrAt(l', k + 1) {
      if k > 0 {
        assert l'[k] == l[k - 1] && l[k - 1] in l;
      }
    }
    forall i, k | 0 <= i < k < |l'| ensures l'[i] != l'[k] {
      assert l'[k] == l[k - 1] && l[k - 1] in l;
    }
  }

  /** Changing the link of a node that is not on the list. */
  lemma LinkedApart(next: seq<Ptr>, next': seq<Ptr>, head: Ptr, l: seq<nat>)
    requires Linked(next, head, l) && |next'| == |next|
    requires forall i :: 0 <= i < |next| && i in l ==> next'[i] == next[i]
    ensures Linked(next', head, l)
  {
    forall k | 0 <= k < |l| ensures next'[l[k]] == next[l[k]] {
      assert l[k] in l;
    }
  }

  lemma WithoutDistinct(l: seq<nat>, k: nat)
    requires Distinct(l) && k < |l|
    ensures Distinct(Without(l, k)) && forall j :: j in Without(l, k) <==> j in l && j != l[k]
  {
    var r := Without(l, k);
    forall i | 0 <= i < |r| ensures r[i] == l[if i < k then i else i + 1] && r[i] in l {
    }
    forall j | j in l && j != l[k] ensures j in r {
      var m :| 0 <= m < |l| && l[m] == j;
      assert r[if m < k then m else m - 1] == j;
    }
  }

  /** `*guy = pr->next` when guy is the list's base pointer. */
  lemma LinkedDropFirst(next: seq<Ptr>, head: Ptr, l: seq<nat>)
    requires Linked(next, head, l) && l != []
    ensures Linked(next, next[l[0]], Without(l, 0))
  {
    WithoutDistinct(l, 0);
    var r := l[1..];
    assert Without(l, 0) == r;
    forall k | 0 <= k < |r| ensures r[k] < |next| && next[r[k]] == PtrAt(r, k + 1) {
      assert r[k] == l[k + 1];
    }
  }

  /** `*guy = pr->next` when guy points into the element before. */
  lemma LinkedDropLater(next: seq<Ptr>, head: Ptr, l: seq<nat>, k: nat)
    requires Linked(next, head, l) && 0 < k < |l|
    ensures Linked(next[l[k - 1] := next[l[k]]], head, Without(l, k))
  {
    WithoutDistinct(l, k);
    var r, next' := Without(l, k), next[l[k - 1] := next[l[k]]];
    forall i | 0 <= i < |r| ensures r[i] < |next'| && next'[r[i]] == PtrAt(r, i + 1) {
      assert r[i] == l[if i < k then i else i + 1];
    }
  }

  // ---------------------------------------------------------------------------
  // One page
  // ---------------------------------------------------------------------------

  predicate IsBlock(t: nat, o: nat)
    requires t < NSIZES
  {
    o < PAGE_SIZE && o % Size(t) == 0
  }

  /** Blocks of a page stay inside it and do not overlap. */
  lemma BlocksApart(t: nat, o: nat, p: nat)
    requires t < NSIZES && IsBlock(t, o) && IsBlock(t, p)
    ensures o + Size(t) <= PAGE_SIZE && (o < p ==> o + Size(t) <= p)
  {
  }

  /** The freelist threaded through the first words of the free blocks. */
  ghost predicate Chain(mem: map<nat, nat>, page: nat, free: seq<nat>)
  {
    forall k :: 0 <= k < |free| ==>
      && page + free[k] in mem
      && mem[page + free[k]] == if k + 1 < |free| then page + free[k + 1] else 0
  }

  /** Every block is live or on the freelist, never both, and the list holds each once. */
  ghost predicate BlocksOk(t: nat, free: seq<nat>, used: map<nat, nat>)
    requires t < NSIZES
  {
    && Distinct(free)
    && (forall o :: o in free ==> IsBlock(t, o))
    && (forall o :: o in used ==> IsBlock(t, o) && used[o] <= Size(t))
    && (forall o :: o in free ==> o !in used)
    && (forall o: nat :: IsBlock(t, o) ==> o in free || o in used)
    && |free| + |used| == PerPage(t)
  }

  ghost predicate PageOk(r: PageRef, mem: map<nat, nat>, free: seq<nat>, used: map<nat, nat>)
  {
    && BlockType(r) < NSIZES && BlocksOk(BlockType(r), free, used) && Chain(mem, PageAddr(r), free)
    && r.nfree == |free| && r.freeOffset == (if free == [] then INVALID_OFFSET else free[0])
  }

  // ---------------------------------------------------------------------------
  // The whole heap
  // ---------------------------------------------------------------------------

  ghost predicate Shape(h: Heap, v: View)
  {
    && |h.refs| == NPAGEREFS && |h.inuse| == INUSE_WORDS && |h.bases| == NSIZES
    && |v.same| == NSIZES && |v.free| == NPAGEREFS && |v.used| == NPAGEREFS
  }

  ghost predicate ListsLinked(h: Heap, v: View)
    requires Shape(h, v)
  {
    && Linked(NextAll(h.refs), h.allbase, v.all)
    && forall t :: 0 <= t < NSIZES ==> Linked(NextSame(h.refs), h.bases[t], v.same[t])
  }

  /** The same descriptors are marked, on allbase, and on the list of their own block type. */
  ghost predicate SameSet(h: Heap, v: View)
    requires Shape(h, v)
  {
    && (forall j :: 0 <= j < NPAGEREFS ==> (Marked(h.inuse, j) <==> j in v.all))
    && (forall j :: j in v.all ==> j < NPAGEREFS && BlockType(h.refs[j]) < NSIZES)
    && (forall j, t :: 0 <= t < NSIZES ==> (j in v.same[t] <==> j in v.all && BlockType(h.refs[j]) == t))
  }

  ghost predicate PagesOk(h: Heap, v: View)
    requires Shape(h, v)
  {
    && (forall j :: j in v.all ==>
          && j < NPAGEREFS && PageOk(h.refs[j], h.mem, v.free[j], v.used[j])
          && PageAddr(h.refs[j]) in v.roles && v.roles[PageAddr(h.refs[j])] == Sub(j))
    && (forall p :: p in v.roles && v.roles[p].Sub? ==>
          v.roles[p].index in v.all && v.roles[p].index < NPAGEREFS && PageAddr(h.refs[v.roles[p].index]) == p)
  }

  /** How many pages kmalloc asks for, in 32-bit arithmetic. */
  function PagesFor(size: nat): nat { (size + PAGE_SIZE - 1) % ADDRESSES / PAGE_SIZE }

  /** The first block type that is large enough. */
  function TypeOf(size: nat): (t: nat)
    requires size <= LARGEST_SUBPAGE_SIZE
    ensures t < NSIZES && size <= Size(t) && forall u :: 0 <= u < t ==> Size(u) < size
  {
    if size <= 16 then 0 else if size <= 32 then 1 else if size <= 64 then 2 else if size <= 128 then 3
    else if size <= 256 then 4 else if size <= 512 then 5 else if size <= 1024 then 6 else 7
  }

  /** The bytes kmalloc reserves for a request: a whole block, or whole pages. */
  function RoomFor(size: nat): nat
  {
    if size < LARGEST_SUBPAGE_SIZE then Size(TypeOf(size)) else PagesFor(size) * PAGE_SIZE
  }

  /** A range of no pages still has an address of its own. */
  function Extent(n: nat): (r: nat)
    ensures r >= PAGE_SIZE
  {
    if n == 0 then PAGE_SIZE else n * PAGE_SIZE
  }

  /** What the page allocator guarantees: aligned ranges that do not overlap. */
  ghost predicate SupplyOk(pages: map<nat, nat>)
  {
    && (forall p :: p in pages ==> p % PAGE_SIZE == 0 && 0 < p && p + Extent(pages[p]) <= ADDRESSES)
    && (forall p, q :: p in pages && q in pages && p < q ==> p + Extent(pages[p]) <= q)
  }

  ghost predicate RolesOk(pages: map<nat, nat>, roles: map<nat, Role>)
  {
    && roles.Keys == pages.Keys
    && (forall p :: p in roles ==>
          match roles[p]
          case Sub(_) => pages[p] == 1
          case Big(asked) => LARGEST_SUBPAGE_SIZE <= asked < ADDRESSES && pages[p] == PagesFor(asked)
          case Held => pages[p] == 1)
  }

  ghost predicate Ok(h: Heap, v: View)
  {
    && Shape(h, v) && ListsLinked(h, v) && SameSet(h, v) && PagesOk(h, v)
    && SupplyOk(h.pages) && RolesOk(h.pages, v.roles)
  }

  /** No page without a live block is kept, except perhaps one being worked on. */
  ghost predicate Busy(v: View, except: Ptr)
  {
    forall j :: j in v.all && j < |v.used| && except != At(j) ==> v.used[j] != map[]
  }

  // ---------------------------------------------------------------------------
  // Live blocks
  // ---------------------------------------------------------------------------

  predicate IsSub(v: View, a: nat)
  {
    && PageOf(a) in v.roles && v.roles[PageOf(a)].Sub? && v.roles[PageOf(a)].index < |v.used|
    && a % PAGE_SIZE in v.used[v.roles[PageOf(a)].index]
  }

  predicate IsBig(v: View, a: nat) { a in v.roles && v.roles[a].Big? }

  /** Handed to a client by kmalloc and not yet given back. */
  predicate Live(v: View, a: nat) { IsSub(v, a) || IsBig(v, a) }

  /** The size its client asked for. */
  function Asked(v: View, a: nat): nat
  {
    if IsSub(v, a) then v.used[v.roles[PageOf(a)].index][a % PAGE_SIZE]
    else if IsBig(v, a) then v.roles[a].asked
    else 0
  }

  /** The bytes reserved for a live block. */
  ghost function Room(h: Heap, v: View, a: nat): nat
    requires Ok(h, v) && Live(v, a)
  {
    if IsSub(v, a) then Size(BlockType(h.refs[v.roles[PageOf(a)].index])) else h.pages[a] * PAGE_SIZE
  }

  lemma Supply(h: Heap, v: View)
    requires Ok(h, v)
    ensures SupplyOk(h.pages) && RolesOk(h.pages, v.roles)
  {
  }

  /** The page behind a descriptor. */
  lemma Managed(h: Heap, v: View, j: nat)
    requires Ok(h, v) && j in v.all
    ensures Shape(h, v) && j < NPAGEREFS && PageOk(h.refs[j], h.mem, v.free[j], v.used[j])
    ensures var p := PageAddr(h.refs[j]);
            && p in v.roles && v.roles[p] == Sub(j) && p in h.pages && h.pages[p] == 1
            && 0 < p && p + PAGE_SIZE <= ADDRESSES
  {
    hide PageOk, Linked;
  }

  /** The descriptor behind a page. */
  lemma ManagedBy(h: Heap, v: View, p: nat)
    requires Ok(h, v) && p in v.roles && v.roles[p].Sub?
    ensures Shape(h, v)
    ensures v.roles[p].index in v.all && v.roles[p].index < NPAGEREFS && PageAddr(h.refs[v.roles[p].index]) == p
  {
    hide PageOk, Linked;
  }

  lemma SubBlock(h: Heap, v: View, a: nat)
    requires Ok(h, v) && IsSub(v, a)
    ensures Shape(h, v)
    ensures var j := v.roles[PageOf(a)].index;
            && j in v.all && j < NPAGEREFS && PageAddr(h.refs[j]) == PageOf(a) && BlockType(h.refs[j]) < NSIZES
            && IsBlock(BlockType(h.refs[j]), a % PAGE_SIZE) && PageOf(a) in h.pages && h.pages[PageOf(a)] == 1
            && v.used[j][a % PAGE_SIZE] <= Size(BlockType(h.refs[j])) && !IsBig(v, a)
  {
    hide Ok;
    ManagedBy(h, v, PageOf(a));
    Managed(h, v, v.roles[PageOf(a)].index);
    Supply(h, v);
    assert a % PAGE_SIZE == 0 ==> PageOf(a) == a;
  }

  /** Live blocks never overlap. */
  lemma LiveApart(h: Heap, v: View, a: nat, b: nat)
    requires Ok(h, v) && Live(v, a) && Live(v, b) && a < b
    ensures a + Room(h, v, a) <= b
  {
    hide Ok;
    Supply(h, v);
    if IsSub(v, a) {
      SubBlock(h, v, a);
    }
    if IsSub(v, b) {
      SubBlock(h, v, b);
    }
    if IsSub(v, a) && IsSub(v, b) && PageOf(a) == PageOf(b) {
      BlocksApart(BlockType(h.refs[v.roles[PageOf(a)].index]), a % PAGE_SIZE, b % PAGE_SIZE);
    } else if IsSub(v, a) {
      BlocksApart(BlockType(h.refs[v.roles[PageOf(a)].index]), a % PAGE_SIZE, a % PAGE_SIZE);
    }
  }

  lemma PagesEnough(asked: nat)
    requires asked < ADDRESSES
    ensures PagesFor(asked) * PAGE_SIZE >= asked <==> asked <= ADDRESSES - PAGE_SIZE || asked == 0
    ensures asked > ADDRESSES - PAGE_SIZE ==> PagesFor(asked) == 0
  {
  }

  /** A block has the room that was asked for, unless the page count wrapped round. */
  lemma RoomEnough(h: Heap, v: View, a: nat)
    requires Ok(h, v) && Live(v, a)
    ensures Room(h, v, a) >= Asked(v, a) <==> Asked(v, a) <= ADDRESSES - PAGE_SIZE
    ensures Asked(v, a) > ADDRESSES - PAGE_SIZE ==> Room(h, v, a) == 0
  {
    hide Ok, PagesFor;
    Supply(h, v);
    if IsSub(v, a) {
      SubBlock(h, v, a);
    } else {
      PagesEnough(v.roles[a].asked);
    }
  }
}
