/** `pmm_arena`: the physical page allocator of the bootstrap kernel. An
    arena covers `size` bytes from physical address `base`, split into
    4096-byte pages. Every page has a descriptor in the arena's page array;
    free pages are chained into a singly linked free list (LIFO) whose
    length `free_count` tracks. A page pointer is modelled as the index of
    its descriptor in the page array, and the free list as the sequence of
    those indices from head to tail. */
module PmmArena {
  import opened Common
  import Zx

  /** `PAGE_SIZE`. */
  const PAGE_SIZE: nat := 4096

  /** `vm_page_state_t`. The arena only ever uses FREE and ALLOCATED; the
      WIRED and OBJECT states of the header are never assigned. */
  datatype PageState = Free | Allocated

  /** `vm_page_t` without its `next` link, which the free list replaces. */
  datatype Page = Page(paddr: u64, state: PageState, refCount: u32)

  /** The physical address of page `i` of an arena at `base`:
      `base + i * PAGE_SIZE` in 64-bit arithmetic. */
  function PageAddress(base: u64, i: nat): u64
  {
    (base + i * PAGE_SIZE) % U64_MOD
  }

  /** The free list `init` builds over `n` pages: each page is pushed on the
      front in turn, so the head is the last page, `[n - 1, ..., 1, 0]`. */
  function Countdown(n: nat): (r: seq<nat>)
    ensures |r| == n
    decreases n
  {
    if n == 0 then [] else [n - 1] + Countdown(n - 1)
  }

  /** `Countdown(n)` holds every page index below `n` exactly once. */
  lemma {:induction false} CountdownMembers(n: nat)
    ensures forall k :: 0 <= k < n ==> Countdown(n)[k] == n - 1 - k
    ensures forall i :: i in Countdown(n) <==> 0 <= i < n
  {
    if n > 0 {
      CountdownMembers(n - 1);
      assert Countdown(n) == [n - 1] + Countdown(n - 1);
      forall i | i in Countdown(n)
        ensures 0 <= i < n
      {
        if i != n - 1 {
          assert i in Countdown(n - 1);
        }
      }
    }
  }

  /** No index appears twice in the list. */
  ghost predicate Distinct(s: seq<nat>)
  {
    forall k, l :: 0 <= k < l < |s| ==> s[k] != s[l]
  }

  class Arena {
    var base: u64
    var size: u64
    /** `page_array`, one descriptor per page. */
    var pageArray: array<Page>
    /** `free_list`, head first. */
    var freeList: seq<nat>
    /** `free_count`. */
    var freeCount: nat

    /** The free list holds each free page exactly once and nothing else,
        `free_count` is its length, and page `i` describes physical address
        `base + i * PAGE_SIZE`. */
    ghost predicate Valid()
      reads this, pageArray
    {
      && freeCount == |freeList|
      && Distinct(freeList)
      && (forall k :: 0 <= k < |freeList| ==> freeList[k] < pageArray.Length)
      && (forall i :: 0 <= i < pageArray.Length ==> (pageArray[i].state == Free <==> i in freeList))
      && (forall i :: 0 <= i < pageArray.Length ==> pageArray[i].paddr == PageAddress(base, i))
    }

    /** An arena structure before `pmm_arena_init`: no pages. */
    constructor ()
      ensures Valid() && pageArray.Length == 0 && freeList == []
    {
      base, size := 0, 0;
      pageArray := new Page[0];
      freeList := [];
      freeCount := 0;
    }
  }

  /** `pmm_arena_init`. A null arena or a size of 0 is rejected. Otherwise
      the arena gets `size / PAGE_SIZE` pages (a partial last page is not
      used), all free with reference count 0, pushed on the free list in
      index order. A failing `calloc` is not modelled. */
  method Init(arena: Arena?, base: u64, size: u64) returns (status: Zx.Status)
    modifies arena
    ensures arena == null || size == 0 ==> status == Zx.InvalidArgs
    ensures arena != null && size == 0 ==> unchanged(arena)
    ensures arena != null && size != 0 ==>
      && status == Zx.Ok && arena.Valid() && fresh(arena.pageArray)
      && arena.base == base && arena.size == size
      && arena.pageArray.Length == size / PAGE_SIZE && arena.freeCount == size / PAGE_SIZE
      && arena.freeList == Countdown(size / PAGE_SIZE)
      && forall i :: 0 <= i < arena.pageArray.Length ==> arena.pageArray[i] == Page(PageAddress(base, i), Free, 0)
  {
    if arena == null || size == 0 {
      return Zx.InvalidArgs;
    }
    arena.base := base;
    arena.size := size;
    var pageCount := size / PAGE_SIZE;
    // `calloc` zero-fills: address 0, state FREE (0), reference count 0.
    var pages := new Page[pageCount](_ => Page(0, Free, 0));
    arena.pageArray := pages;
    arena.freeList := [];
    arena.freeCount := 0;
    for i := 0 to pageCount
      invariant arena.pageArray == pages && arena.base == base && arena.size == size
      invariant forall j :: 0 <= j < i ==> pages[j] == Page(PageAddress(base, j), Free, 0)
      invariant arena.freeList == Countdown(i) && arena.freeCount == i
    {
      pages[i] := Page(PageAddress(base, i), Free, 0);
      arena.freeList := [i] + arena.freeList;
      arena.freeCount := arena.freeCount + 1;
    }
    CountdownMembers(pageCount);
    return Zx.Ok;
  }

  /** `pmm_arena_alloc_page`. A null arena or output pointer is rejected and
      an empty free list gives NO_MEMORY, with nothing changed. Otherwise the
      head of the free list is unlinked, `free_count` drops by one, and the
      page becomes ALLOCATED with reference count 1; it is returned. */
  method AllocPage(arena: Arena?, outPresent: bool) returns (status: Zx.Status, page: Option<nat>)
    requires arena != null ==> arena.Valid()
    modifies if arena != null then {arena, arena.pageArray} else {}
    ensures arena == null || !outPresent ==> status == Zx.InvalidArgs && page == None
    ensures arena != null ==>
      && arena.Valid() && arena.pageArray == old(arena.pageArray)
      && arena.base == old(arena.base) && arena.size == old(arena.size)
    ensures arena != null && (!outPresent || old(arena.freeList) == []) ==> unchanged(arena, arena.pageArray)
    ensures arena != null && outPresent && old(arena.freeList) == [] ==> status == Zx.NoMemory && page == None
    ensures arena != null && outPresent && old(arena.freeList) != [] ==>
      && status == Zx.Ok && page == Some(old(arena.freeList[0]))
      && arena.freeList == old(arena.freeList[1..]) && arena.freeCount == old(arena.freeCount) - 1
      && page.value < arena.pageArray.Length && old(arena.pageArray[page.value].state) == Free
      && arena.pageArray[..] == old(arena.pageArray[..])[page.value := Page(old(arena.pageArray[page.value].paddr), Allocated, 1)]
  {
    if arena == null || !outPresent {
      return Zx.InvalidArgs, None;
    }
    if arena.freeList == [] {
      return Zx.NoMemory, None;
    }
    var p := arena.freeList[0];
    arena.freeList := arena.freeList[1..];
    arena.freeCount := arena.freeCount - 1;
    arena.pageArray[p] := arena.pageArray[p].(state := Allocated, refCount := 1);
    assert p !in arena.freeList;
    return Zx.Ok, Some(p);
  }

  /** `pmm_arena_free_page`. `page` is the index of the descriptor the
      caller passes (`None` for a null pointer); a pointer that is not one of
      this arena's descriptors is outside what the source defines. A page
      that is not ALLOCATED, or has reference count 0, is rejected. Otherwise
      the reference count drops by one, and only when it reaches 0 does the
      page become FREE and go back on the front of the free list. */
  method FreePage(arena: Arena?, page: Option<nat>) returns (status: Zx.Status)
    requires arena != null ==> arena.Valid()
    requires arena != null && page.Some? ==> page.value < arena.pageArray.Length
    modifies if arena != null then {arena, arena.pageArray} else {}
    ensures arena != null ==>
      && arena.Valid() && arena.pageArray == old(arena.pageArray)
      && arena.base == old(arena.base) && arena.size == old(arena.size)
    ensures arena == null || page == None ==> status == Zx.InvalidArgs
    ensures arena != null && page.Some? ==>
      var p := page.value;
      var before := old(arena.pageArray[p]);
      if before.state != Allocated || before.refCount == 0 then
        status == Zx.InvalidArgs && unchanged(arena, arena.pageArray)
      else if before.refCount > 1 then
        && status == Zx.Ok && arena.freeList == old(arena.freeList)
        && arena.pageArray[..] == old(arena.pageArray[..])[p := before.(refCount := before.refCount - 1)]
      else
        && status == Zx.Ok && arena.freeList == [p] + old(arena.freeList)
        && arena.freeCount == old(arena.freeCount) + 1
        && arena.pageArray[..] == old(arena.pageArray[..])[p := before.(state := Free, refCount := 0)]
    ensures arena != null && page == None ==> unchanged(arena, arena.pageArray)
  {
    if arena == null || page == None {
      return Zx.InvalidArgs;
    }
    var p := page.value;
    if arena.pageArray[p].state != Allocated {
      return Zx.InvalidArgs;
    }
    if arena.pageArray[p].refCount == 0 {
      return Zx.InvalidArgs;
    }
    var count := arena.pageArray[p].refCount - 1;
    arena.pageArray[p] := arena.pageArray[p].(refCount := count);
    if count > 0 {
      return Zx.Ok;
    }
    arena.pageArray[p] := arena.pageArray[p].(state := Free);
    arena.freeList := [p] + arena.freeList;
    arena.freeCount := arena.freeCount + 1;
    return Zx.Ok;
  }

  /** `pmm_arena_free_count`: 0 for a null arena, otherwise the number of
      pages on the free list, each free page counted once. */
  function FreeCount(arena: Arena?): (n: nat)
    requires arena != null ==> arena.Valid()
    reads arena, if arena != null then {arena.pageArray} else {}
    ensures arena == null ==> n == 0
    ensures arena != null ==>
      && n == |arena.freeList| && Distinct(arena.freeList)
      && forall i :: 0 <= i < arena.pageArray.Length && arena.pageArray[i].state == Free ==> i in arena.freeList
  {
    if arena == null then 0 else arena.freeCount
  }

  /** Allocating `k` pages and then freeing each of them once gives the
      arena back the free count it started with, and every one of those
      pages is FREE again. */
  method AllocThenFree(arena: Arena, k: nat) returns (pages: seq<nat>)
    requires arena.Valid() && k <= arena.freeCount
    modifies arena, arena.pageArray
    ensures arena.Valid() && arena.freeCount == old(arena.freeCount) && |pages| == k
    ensures forall j :: 0 <= j < k ==> pages[j] < arena.pageArray.Length && arena.pageArray[pages[j]].state == Free
  {
    pages := [];
    for i := 0 to k
      invariant arena.Valid() && arena.pageArray == old(arena.pageArray)
      invariant arena.freeCount == old(arena.freeCount) - i && |pages| == i
      invariant forall j :: 0 <= j < i ==> pages[j] < arena.pageArray.Length
      invariant forall j :: 0 <= j < i ==> arena.pageArray[pages[j]].state == Allocated && arena.pageArray[pages[j]].refCount == 1
      invariant Distinct(pages)
    {
      var status, page := AllocPage(arena, true);
      pages := pages + [page.value];
    }
    for i := 0 to k
      invariant arena.Valid() && arena.pageArray == old(arena.pageArray)
      invariant arena.freeCount == old(arena.freeCount) - k + i
      invariant forall j :: 0 <= j < k ==> pages[j] < arena.pageArray.Length
      invariant forall j :: 0 <= j < i ==> arena.pageArray[pages[j]].state == Free
      invariant forall j :: i <= j < k ==> arena.pageArray[pages[j]].state == Allocated && arena.pageArray[pages[j]].refCount == 1
    {
      var _ := FreePage(arena, Some(pages[i]));
    }
  }
}
