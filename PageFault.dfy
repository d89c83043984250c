/** `page_fault`: the page-fault handler of the bootstrap kernel. A handler
    is bound to one VMO and the arena its pages come from; a fault at a
    virtual address inside the VMO commits the page under it on first
    touch. */
module PageFault {
  import opened Common
  import Zx
  import opened Bits
  import opened PmmArena
  import opened Vmo

  /** `PAGE_FAULT_FLAG_*`: the bit position of each flag in `flags`. */
  const FLAG_READ: nat := 0
  const FLAG_WRITE: nat := 1
  const FLAG_EXEC: nat := 2
  const FLAG_USER: nat := 3

  class Handler {
    var vmo: Vmo?
    var arena: Arena?

    /** A handler structure before `page_fault_handler_init`. */
    constructor ()
      ensures vmo == null && arena == null
    {
      vmo, arena := null, null;
    }
  }

  /** `flags & FLAG_WRITE && !(flags & FLAG_USER)`: a write fault from
      kernel mode, which the handler refuses. */
  predicate KernelWrite(flags: u32)
  {
    Bit(flags, FLAG_WRITE) && !Bit(flags, FLAG_USER)
  }

  /** The flag test by position agrees with the C test under the masks
      `1 << 1` and `1 << 3`. */
  lemma KernelWriteIsMasked(flags: u32)
    ensures KernelWrite(flags) <==> Mask(flags, BitMask(FLAG_WRITE)) != 0 && Mask(flags, BitMask(FLAG_USER)) == 0
  {
    TestBit(flags, FLAG_WRITE);
    TestBit(flags, FLAG_USER);
  }

  /** `page_fault_handler_init`: binds the handler to `vmo` and `arena`;
      any null argument is rejected with nothing changed. */
  method HandlerInit(handler: Handler?, vmo: Vmo?, arena: Arena?) returns (status: Zx.Status)
    modifies handler
    ensures handler == null || vmo == null || arena == null ==> status == Zx.InvalidArgs
    ensures handler != null && (vmo == null || arena == null) ==> unchanged(handler)
    ensures handler != null && vmo != null && arena != null ==>
      status == Zx.Ok && handler.vmo == vmo && handler.arena == arena
  {
    if handler == null || vmo == null || arena == null {
      return Zx.InvalidArgs;
    }
    handler.vmo := vmo;
    handler.arena := arena;
    return Zx.Ok;
  }

  /** The index of the page holding `addr`. */
  function PageIndex(addr: u64): nat
  {
    addr / PAGE_SIZE
  }

  /** `page_fault_handle`. A null handler is rejected, and so is a kernel
      write fault. An address past the VMO's last page gives NOT_FOUND. A
      fault on a committed page changes nothing; a fault on an uncommitted
      page commits exactly that page, or passes on NO_MEMORY with nothing
      changed. The handler must have been initialised: the source reads its
      VMO without a check. */
  method Handle(handler: Handler?, faultAddr: u64, flags: u32) returns (status: Zx.Status)
    requires handler != null ==> handler.vmo != null && handler.arena != null
    requires handler != null ==> Backed(handler.vmo, handler.arena)
    modifies if handler != null && handler.vmo != null && handler.arena != null
      then {handler.vmo.pages, handler.arena, handler.arena.pageArray} else {}
    ensures handler == null ==> status == Zx.InvalidArgs
    ensures handler != null ==>
      var vmo, arena := handler.vmo, handler.arena;
      var i := PageIndex(faultAddr);
      && Backed(vmo, arena) && vmo.pages == old(vmo.pages) && arena.pageArray == old(arena.pageArray)
      && (KernelWrite(flags) ==> status == Zx.InvalidArgs && unchanged(vmo.pages, arena, arena.pageArray))
      && (!KernelWrite(flags) && i >= vmo.pageCount ==>
            status == Zx.NotFound && unchanged(vmo.pages, arena, arena.pageArray))
      && (!KernelWrite(flags) && i < vmo.pageCount && old(vmo.pages[i]).Some? ==>
            status == Zx.Ok && unchanged(vmo.pages, arena, arena.pageArray))
      && (!KernelWrite(flags) && i < vmo.pageCount && old(vmo.pages[i]).None? ==>
            if old(arena.freeList) == [] then
              status == Zx.NoMemory && unchanged(vmo.pages, arena, arena.pageArray)
            else
              && status == Zx.Ok
              && vmo.pages[..] == old(vmo.pages[..])[i := Some(old(arena.freeList[0]))]
              && arena.freeList == old(arena.freeList[1..]))
  {
    if handler == null {
      return Zx.InvalidArgs;
    }
    if KernelWrite(flags) {
      return Zx.InvalidArgs;
    }
    var pageIndex := faultAddr / PAGE_SIZE;
    if pageIndex >= handler.vmo.pageCount {
      return Zx.NotFound;
    }
    if handler.vmo.pages[pageIndex].None? {
      status := Commit(handler.vmo, handler.arena, pageIndex);
      if status != Zx.Ok {
        return status;
      }
    }
    return Zx.Ok;
  }
}
