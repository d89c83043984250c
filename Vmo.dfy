/** `vmo_bootstrap`: a virtual memory object whose pages are committed
    lazily from a page arena. The VMO keeps one slot per page of its size;
    a slot is empty until the page is first committed, and then holds the
    arena page backing it (the index of that page's descriptor). */
module Vmo {
  import opened Common
  import Zx
  import opened PmmArena

  class Vmo {
    var size: u64
    /** `pages`: the slot of each page, `None` while uncommitted. The null
        table of an uninitialised or destroyed VMO is an empty one. */
    var pages: array<Option<nat>>
    /** `page_count`. */
    var pageCount: nat

    ghost predicate Valid()
      reads this
    {
      pageCount == pages.Length
    }

    /** A VMO structure before `vmo_bootstrap_init`: no pages. */
    constructor ()
      ensures Valid() && pageCount == 0 && size == 0
    {
      size := 0;
      pages := new Option<nat>[0];
      pageCount := 0;
    }
  }

  /** `(size + PAGE_SIZE - 1) / PAGE_SIZE`, with the 64-bit addition
      wrapping as it does in C. */
  function PageCount(size: u64): nat
  {
    ((size + PAGE_SIZE - 1) % U64_MOD) / PAGE_SIZE
  }

  /** Up to the last 4095 sizes, the page count rounds the size up to whole
      pages; the addition wraps for the others and they get far fewer. */
  lemma PageCountIsCeiling(size: u64)
    ensures size <= U64_MOD - PAGE_SIZE ==> PageCount(size) * PAGE_SIZE >= size > (PageCount(size) - 1) * PAGE_SIZE
    ensures size > U64_MOD - PAGE_SIZE ==> PageCount(size) == 0
  {
  }

  /** The number of committed slots. */
  function Committed(s: seq<Option<nat>>): nat
  {
    if s == [] then 0 else Committed(s[..|s| - 1]) + (if s[|s| - 1].Some? then 1 else 0)
  }

  /** Committing an empty slot adds one committed page; emptying a
      committed slot removes one. */
  lemma {:induction false} CommittedUpdate(s: seq<Option<nat>>, i: nat, v: Option<nat>)
    requires i < |s|
    ensures Committed(s[i := v]) + (if s[i].Some? then 1 else 0) == Committed(s) + (if v.Some? then 1 else 0)
    decreases |s|
  {
    var t := s[i := v];
    var n := |s| - 1;
    assert t[..n] == if i < n then s[..n][i := v] else s[..n];
    if i < n {
      CommittedUpdate(s[..n], i, v);
    }
  }

  /** A prefix one slot longer counts that slot. */
  lemma CommittedPrefix(s: seq<Option<nat>>, i: nat)
    requires i < |s|
    ensures Committed(s[..i + 1]) == Committed(s[..i]) + (if s[i].Some? then 1 else 0)
  {
    assert s[..i + 1][..i] == s[..i];
  }

  /** Only empty slots count nothing. */
  lemma {:induction false} NoneCommitted(s: seq<Option<nat>>)
    requires forall i :: 0 <= i < |s| ==> s[i].None?
    ensures Committed(s) == 0
  {
    if s != [] {
      NoneCommitted(s[..|s| - 1]);
    }
  }

  /** The VMO's committed slots name distinct pages of `arena`, each
      ALLOCATED with reference count 1: the pages commit took from it. */
  ghost predicate Backed(vmo: Vmo, arena: Arena)
    reads vmo, vmo.pages, arena, arena.pageArray
  {
    && vmo.Valid() && arena.Valid()
    && (forall i :: 0 <= i < vmo.pages.Length && vmo.pages[i].Some? ==>
          && vmo.pages[i].value < arena.pageArray.Length
          && arena.pageArray[vmo.pages[i].value].state == Allocated
          && arena.pageArray[vmo.pages[i].value].refCount == 1)
    && (forall i, j :: 0 <= i < j < vmo.pages.Length && vmo.pages[i].Some? && vmo.pages[j].Some? ==>
          vmo.pages[i].value != vmo.pages[j].value)
  }

  /** `vmo_bootstrap_init`. A null VMO or arena, or a size of 0, is
      rejected. Otherwise the VMO gets `PageCount(size)` slots, all empty.
      A failing `calloc` is not modelled. */
  method Init(vmo: Vmo?, arena: Arena?, size: u64) returns (status: Zx.Status)
    modifies vmo
    ensures vmo == null || arena == null || size == 0 ==> status == Zx.InvalidArgs
    ensures vmo != null && (arena == null || size == 0) ==> unchanged(vmo)
    ensures vmo != null && arena != null && size != 0 ==>
      && status == Zx.Ok && vmo.Valid() && fresh(vmo.pages)
      && vmo.size == size && vmo.pageCount == PageCount(size)
      && (forall i :: 0 <= i < vmo.pages.Length ==> vmo.pages[i] == None)
      && Committed(vmo.pages[..]) == 0
  {
    if vmo == null || arena == null || size == 0 {
      return Zx.InvalidArgs;
    }
    vmo.size := size;
    vmo.pageCount := PageCount(size);
    var slots := new Option<nat>[vmo.pageCount](_ => None);
    vmo.pages := slots;
    for i := 0 to vmo.pageCount
      invariant vmo.pages == slots && vmo.pageCount == slots.Length && vmo.size == size
      invariant forall j :: 0 <= j < slots.Length ==> slots[j] == None
    {
      slots[i] := None;
    }
    NoneCommitted(slots[..]);
    return Zx.Ok;
  }

  /** `vmo_bootstrap_commit_page`. A null VMO or arena, or an index past
      the last page, is rejected. A committed slot is left as it is. An
      empty slot takes the page at the head of the arena's free list; when
      the arena has none, NO_MEMORY is passed on and the slot stays empty.
      Either way the arena's free pages and the VMO's committed pages
      together stay the same in number. */
  method Commit(vmo: Vmo?, arena: Arena?, index: u64) returns (status: Zx.Status)
    requires vmo != null && arena != null ==> Backed(vmo, arena)
    modifies if vmo != null && arena != null then {vmo.pages, arena, arena.pageArray} else {}
    ensures vmo == null || arena == null ==> status == Zx.InvalidArgs
    ensures vmo != null && arena != null ==>
      && Backed(vmo, arena) && vmo.pages == old(vmo.pages) && arena.pageArray == old(arena.pageArray)
      && arena.freeCount + Committed(vmo.pages[..]) == old(arena.freeCount + Committed(vmo.pages[..]))
    ensures vmo != null && arena != null && index >= vmo.pageCount ==>
      status == Zx.InvalidArgs && unchanged(vmo.pages, arena, arena.pageArray)
    ensures vmo != null && arena != null && index < vmo.pageCount && old(vmo.pages[index]).Some? ==>
      status == Zx.Ok && unchanged(vmo.pages, arena, arena.pageArray)
    ensures vmo != null && arena != null && index < vmo.pageCount && old(vmo.pages[index]).None? ==>
      if old(arena.freeList) == [] then
        status == Zx.NoMemory && unchanged(vmo.pages, arena, arena.pageArray)
      else
        && status == Zx.Ok
        && vmo.pages[..] == old(vmo.pages[..])[index := Some(old(arena.freeList[0]))]
        && arena.freeList == old(arena.freeList[1..])
  {
    if vmo == null || arena == null {
      return Zx.InvalidArgs;
    }
    if index >= vmo.pageCount {
      return Zx.InvalidArgs;
    }
    if vmo.pages[index].Some? {
      return Zx.Ok;
    }
    ghost var before := vmo.pages[..];
    var page;
    status, page := AllocPage(arena, true);
    if status != Zx.Ok {
      return status;
    }
    vmo.pages[index] := page;
    CommittedUpdate(before, index, page);
    return Zx.Ok;
  }

  /** Destroy part-way: slots before `i` are emptied and their pages freed,
      the others still hold the distinct ALLOCATED pages they held at the
      start (`slots`), and the arena has gained one free page per emptied
      committed slot since it had `count0`. */
  ghost predicate Draining(vmo: Vmo, arena: Arena, slots: seq<Option<nat>>, i: nat, count0: nat)
    reads vmo, vmo.pages, arena, arena.pageArray
  {
    && vmo.pages.Length == |slots| && i <= |slots| && arena.Valid()
    && (forall j :: 0 <= j < i ==> vmo.pages[j] == None)
    && (forall j :: i <= j < |slots| ==> vmo.pages[j] == slots[j])
    && (forall j :: 0 <= j < |slots| && slots[j].Some? ==> slots[j].value < arena.pageArray.Length)
    && (forall j :: 0 <= j < i && slots[j].Some? ==> arena.pageArray[slots[j].value].state == Free)
    && (forall j :: i <= j < |slots| && slots[j].Some? ==>
          arena.pageArray[slots[j].value].state == Allocated && arena.pageArray[slots[j].value].refCount == 1)
    && (forall j, k :: 0 <= j < k < |slots| && slots[j].Some? && slots[k].Some? ==> slots[j].value != slots[k].value)
    && arena.freeCount == count0 + Committed(slots[..i])
  }

  /** One iteration of the destroy loop: free the page of slot `i`, if
      any, and empty the slot. */
  method ReleaseSlot(vmo: Vmo, arena: Arena, ghost slots: seq<Option<nat>>, i: nat, ghost count0: nat)
    requires i < |slots| && Draining(vmo, arena, slots, i, count0)
    modifies vmo.pages, arena, arena.pageArray
    ensures vmo.pages == old(vmo.pages) && arena.pageArray == old(arena.pageArray)
    ensures Draining(vmo, arena, slots, i + 1, count0)
  {
    if vmo.pages[i].Some? {
      var _ := FreePage(arena, vmo.pages[i]);
      vmo.pages[i] := None;
    }
    CommittedPrefix(slots, i);
  }

  /** `vmo_bootstrap_destroy`. Nothing happens for a null VMO or arena.
      Otherwise every committed page goes back to the arena, and the VMO is
      left with no pages and size 0: the arena regains exactly as many free
      pages as the VMO had committed. */
  method Destroy(vmo: Vmo?, arena: Arena?)
    requires vmo != null && arena != null ==> Backed(vmo, arena)
    modifies if vmo != null && arena != null then {vmo, vmo.pages, arena, arena.pageArray} else {}
    ensures vmo != null && arena != null ==>
      && vmo.Valid() && arena.Valid() && vmo.pageCount == 0 && vmo.size == 0
      && arena.freeCount == old(arena.freeCount) + old(Committed(vmo.pages[..]))
      && forall i :: 0 <= i < old(vmo.pages.Length) && old(vmo.pages[i]).Some? ==>
           old(vmo.pages[i]).value < arena.pageArray.Length && arena.pageArray[old(vmo.pages[i]).value].state == Free
  {
    if vmo == null || arena == null {
      return;
    }
    ghost var slots := vmo.pages[..];
    for i := 0 to vmo.pageCount
      invariant vmo.pages == old(vmo.pages) && arena.pageArray == old(arena.pageArray)
      invariant vmo.pageCount == |slots| && Draining(vmo, arena, slots, i, old(arena.freeCount))
    {
      ReleaseSlot(vmo, arena, slots, i, old(arena.freeCount));
    }
    assert slots[..|slots|] == slots;
    vmo.pages := new Option<nat>[0];
    vmo.pageCount := 0;
    vmo.size := 0;
  }
}
