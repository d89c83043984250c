/** `handle`: the kernel's handle table. Each entry holds an object, the
    rights the handle grants on it and a reference count; entries hang in
    hash buckets chosen by `handle % num_buckets`, newest first. The object
    pointer is the type parameter `T`; each bucket chain is kept as a
    sequence from its head. Handles are numbered `count + 1` when allocated,
    and a lookup takes the entry at chain position `handle - 1` of the
    handle's bucket, as the source does. */
module HandleTable {
  import opened Common
  import Zx
  import opened Bits

  /** `HANDLE_TABLE_INITIAL_BUCKETS`. */
  const INITIAL_BUCKETS: u32 := 64

  /** `ZX_HANDLE_INVALID`. */
  const HANDLE_INVALID: u32 := 0

  /** `ZX_RIGHT_*`. */
  const RIGHT_NONE: u32 := 0
  const RIGHT_READ: u32 := 1
  const RIGHT_WRITE: u32 := 2
  const RIGHT_DUPLICATE: u32 := 4
  const RIGHT_TRANSFER: u32 := 8

  /** `handle_table_entry_t` without its `next` link. */
  datatype Entry<T> = Entry(obj: T, rights: u32, refCount: u32)

  /** `handle_has_rights`: `(handle_rights & required) == required`. */
  function HasRights(handleRights: u32, required: u32): (b: bool)
  {
    Mask(handleRights, required) == required
  }

  /** A handle has the required rights exactly when it has every one of
      them. */
  lemma HasRightsIsSubset(handleRights: u32, required: u32)
    ensures HasRights(handleRights, required) ==> forall k: nat :: Bit(required, k) ==> Bit(handleRights, k)
    ensures (forall k: nat :: Bit(required, k) ==> Bit(handleRights, k)) ==> HasRights(handleRights, required)
  {
    if HasRights(handleRights, required) {
      forall k: nat | Bit(required, k)
        ensures Bit(handleRights, k)
      {
        assert Bit(Mask(handleRights, required), k);
      }
    }
    if forall k: nat :: Bit(required, k) ==> Bit(handleRights, k) {
      forall k: nat
        ensures Bit(Mask(handleRights, required), k) == Bit(required, k)
      {
      }
      BitsDetermine(Mask(handleRights, required), required);
    }
  }

  /** Every handle has `ZX_RIGHT_NONE`: requiring no rights never fails. */
  lemma NoRightsRequired(handleRights: u32)
    ensures HasRights(handleRights, RIGHT_NONE)
  {
    ZeroHasNoBitsEverywhere();
    BitsDetermine(Mask(handleRights, RIGHT_NONE), RIGHT_NONE);
  }

  lemma ZeroHasNoBitsEverywhere()
    ensures forall k: nat :: !Bit(0, k)
  {
    NoBitsOfZero();
  }

  /** The rights a duplicate gets, `rights & entry->rights`, are rights
      the original handle has, and include every requested right the
      original has. */
  lemma DuplicateNarrows(rights: u32, existing: u32)
    ensures HasRights(existing, Mask(rights, existing))
    ensures forall k: nat :: Bit(rights, k) && Bit(existing, k) ==> Bit(Mask(rights, existing), k)
  {
    HasRightsIsSubset(existing, Mask(rights, existing));
  }

  /** `handle - 1` in 32-bit arithmetic: the chain position a lookup of
      `handle` inspects. */
  function Position(handle: u32): nat
  {
    (handle + U32_MOD - 1) % U32_MOD
  }

  /** `find_entry` on bucket chains `buckets`: the entry at position
      `handle - 1` of bucket `handle % num_buckets`, if the chain is that
      long. */
  function Find<T>(buckets: seq<seq<Entry<T>>>, handle: u32): (r: Option<Entry<T>>)
    requires |buckets| > 0
    ensures r.Some? <==> Position(handle) < |buckets[handle % |buckets|]|
    ensures r.Some? ==> r.value in buckets[handle % |buckets|]
  {
    var chain := buckets[handle % |buckets|];
    if Position(handle) < |chain| then Some(chain[Position(handle)]) else None
  }

  class Table<T> {
    /** `buckets`, null before `handle_table_init` and after destroy. */
    var buckets: array?<seq<Entry<T>>>
    var numBuckets: u32
    var count: u32

    /** An initialised table has `num_buckets` buckets, at least one. */
    ghost predicate Valid()
      reads this
    {
      buckets != null ==> buckets.Length == numBuckets > 0
    }

    /** A zero-filled table structure, such as a static one before
        `handle_table_init`. */
    constructor ()
      ensures Valid() && buckets == null && numBuckets == 0 && count == 0
    {
      buckets := null;
      numBuckets := 0;
      count := 0;
    }

  }

  /** `handle_table_init`: `initial_buckets` empty buckets, or 64 when it
      is 0, and count 0. A null table is rejected. A failing `calloc` is not
      modelled. */
  method TableInit<T>(table: Table?<T>, initialBuckets: u32) returns (status: Zx.Status)
    modifies table
    ensures table == null ==> status == Zx.InvalidArgs
    ensures table != null ==>
      && status == Zx.Ok && table.Valid() && table.buckets != null && fresh(table.buckets)
      && table.numBuckets == (if initialBuckets > 0 then initialBuckets else INITIAL_BUCKETS)
      && table.count == 0 && (forall b :: 0 <= b < table.buckets.Length ==> table.buckets[b] == [])
  {
    if table == null {
      return Zx.InvalidArgs;
    }
    table.numBuckets := if initialBuckets > 0 then initialBuckets else INITIAL_BUCKETS;
    table.buckets := new seq<Entry<T>>[table.numBuckets](_ => []);
    table.count := 0;
    return Zx.Ok;
  }

  /** `handle_table_destroy`: the entries are released, the buckets are
      dropped and the count is 0; `num_buckets` keeps its value. Nothing
      happens for a null table or one without buckets. */
  method TableDestroy<T>(table: Table?<T>)
    modifies table
    ensures table != null && old(table.buckets) != null ==>
      table.buckets == null && table.count == 0 && table.numBuckets == old(table.numBuckets)
    ensures table != null && old(table.buckets) == null ==> unchanged(table)
    ensures table != null ==> table.Valid()
  {
    if table == null || table.buckets == null {
      return;
    }
    table.buckets := null;
    table.count := 0;
  }

  /** `handle_alloc`. A null table, object or output pointer is rejected.
      Otherwise the new handle is `count + 1` (32-bit), its entry (the
      object, the rights, reference count 1) goes on the front of bucket
      `handle % num_buckets`, and the count goes up by one. The table must
      be initialised: the source indexes its buckets without a check. A
      failing `malloc` is not modelled. */
  method Alloc<T>(table: Table?<T>, obj: Option<T>, rights: u32, outPresent: bool)
    returns (status: Zx.Status, handle: u32)
    requires table != null ==> table.Valid() && table.buckets != null
    modifies if table != null then {table, table.buckets} else {}
    ensures table == null || obj.None? || !outPresent ==> status == Zx.InvalidArgs
    ensures table != null ==>
      table.Valid() && table.buckets == old(table.buckets) && table.numBuckets == old(table.numBuckets)
    ensures table != null && (obj.None? || !outPresent) ==> unchanged(table, table.buckets)
    ensures table != null && obj.Some? && outPresent ==>
      && status == Zx.Ok && handle == (old(table.count) + 1) % U32_MOD
      && table.count == (old(table.count) + 1) % U32_MOD
      && table.buckets[..] == old(table.buckets[..])[handle % table.numBuckets :=
           [Entry(obj.value, rights, 1)] + old(table.buckets[handle % table.numBuckets])]
  {
    if table == null || obj.None? || !outPresent {
      return Zx.InvalidArgs, 0;
    }
    handle := (table.count + 1) % U32_MOD;
    var bucket := handle % table.numBuckets;
    table.buckets[bucket] := [Entry(obj.value, rights, 1)] + table.buckets[bucket];
    table.count := (table.count + 1) % U32_MOD;
    return Zx.Ok, handle;
  }

  /** `find_entry`: walk the chain of the handle's bucket, counting
      positions, and stop at position `handle - 1`. Returns that position,
      or `None` when the chain is shorter. */
  method FindEntry<T>(table: Table<T>, handle: u32) returns (position: Option<nat>)
    requires table.Valid() && table.buckets != null
    ensures position.Some? <==> Find(table.buckets[..], handle).Some?
    ensures position.Some? ==>
      && position.value == Position(handle)
      && position.value < |table.buckets[handle % table.numBuckets]|
      && Find(table.buckets[..], handle).value == table.buckets[handle % table.numBuckets][position.value]
  {
    var bucket := handle % table.numBuckets;
    var chain := table.buckets[bucket];
    var targetIndex := (handle + U32_MOD - 1) % U32_MOD;
    var currentIndex := 0;
    while currentIndex < |chain|
      invariant currentIndex <= |chain| && currentIndex <= targetIndex
      decreases |chain| - currentIndex
    {
      if currentIndex == targetIndex {
        return Some(currentIndex);
      }
      currentIndex := currentIndex + 1;
    }
    return None;
  }

  /** `handle_get`. A null table, the invalid handle 0 or a null output is
      rejected; a handle `find_entry` does not find gives BAD_HANDLE; an
      entry without all the required rights gives INVALID_ARGS. Otherwise
      the entry's object is returned. Nothing changes. */
  method Get<T>(table: Table?<T>, handle: u32, required: u32, outPresent: bool)
    returns (status: Zx.Status, obj: Option<T>)
    requires table != null ==> table.Valid() && table.buckets != null
    ensures table == null || handle == HANDLE_INVALID || !outPresent ==>
      status == Zx.InvalidArgs && obj == None
    ensures table != null && handle != HANDLE_INVALID && outPresent ==>
      match Find(table.buckets[..], handle)
      case None => status == Zx.BadHandle && obj == None
      case Some(e) =>
        if HasRights(e.rights, required) then status == Zx.Ok && obj == Some(e.obj)
        else status == Zx.InvalidArgs && obj == None
  {
    if table == null || handle == HANDLE_INVALID || !outPresent {
      return Zx.InvalidArgs, None;
    }
    var position := FindEntry(table, handle);
    if position.None? {
      return Zx.BadHandle, None;
    }
    var entry := table.buckets[handle % table.numBuckets][position.value];
    if !HasRights(entry.rights, required) {
      return Zx.InvalidArgs, None;
    }
    return Zx.Ok, Some(entry.obj);
  }

  /** A 32-bit decrement reaches 0 exactly from 1. */
  lemma DecrementWraps(x: u32)
    ensures (x + U32_MOD - 1) % U32_MOD == if x == 0 then U32_MOD - 1 else x - 1
  {
  }

  /** The chain with the entry at `i` unlinked. */
  function Unlink<T>(chain: seq<Entry<T>>, i: nat): (r: seq<Entry<T>>)
    requires i < |chain|
    ensures |r| == |chain| - 1
    ensures forall j :: 0 <= j < |r| ==> r[j] == if j < i then chain[j] else chain[j + 1]
  {
    chain[..i] + chain[i + 1..]
  }

  /** `handle_close`. A null table or the invalid handle is rejected, a
      handle `find_entry` does not find gives BAD_HANDLE. Otherwise the
      entry's reference count drops by one (32-bit); at 0 the entry is
      unlinked from its chain and the count goes down by one. */
  method Close<T>(table: Table?<T>, handle: u32) returns (status: Zx.Status)
    requires table != null ==> table.Valid() && table.buckets != null
    modifies if table != null then {table, table.buckets} else {}
    ensures table == null || handle == HANDLE_INVALID ==> status == Zx.InvalidArgs
    ensures table != null ==>
      table.Valid() && table.buckets == old(table.buckets) && table.numBuckets == old(table.numBuckets)
    ensures table != null && handle == HANDLE_INVALID ==> unchanged(table, table.buckets)
    ensures table != null && handle != HANDLE_INVALID ==>
      var b := handle % table.numBuckets;
      var chain := old(table.buckets[b]);
      var i := Position(handle);
      match old(Find(table.buckets[..], handle))
      case None => status == Zx.BadHandle && unchanged(table, table.buckets)
      case Some(e) =>
        && status == Zx.Ok && i < |chain|
        && if e.refCount == 1 then
             table.buckets[..] == old(table.buckets[..])[b := Unlink(chain, i)]
             && table.count == (old(table.count) + U32_MOD - 1) % U32_MOD
           else
             table.buckets[..] == old(table.buckets[..])[b := chain[i := e.(refCount := (e.refCount + U32_MOD - 1) % U32_MOD)]]
             && table.count == old(table.count)
  {
    if table == null || handle == HANDLE_INVALID {
      return Zx.InvalidArgs;
    }
    var position := FindEntry(table, handle);
    if position.None? {
      return Zx.BadHandle;
    }
    var b := handle % table.numBuckets;
    var i := position.value;
    var entry := table.buckets[b][i];
    ghost var before := table.buckets[..];
    var refCount := (entry.refCount + U32_MOD - 1) % U32_MOD;
    DecrementWraps(entry.refCount);
    if refCount == 0 {
      table.buckets[b] := Unlink(table.buckets[b], i);
      table.count := (table.count + U32_MOD - 1) % U32_MOD;
      assert table.buckets[..] == before[b := Unlink(before[b], i)];
    } else {
      table.buckets[b] := table.buckets[b][i := entry.(refCount := refCount)];
      assert table.buckets[..] == before[b := before[b][i := entry.(refCount := refCount)]];
    }
    return Zx.Ok;
  }

  /** `handle_duplicate`. A null table, the invalid handle or a null output
      is rejected; a handle `find_entry` does not find gives BAD_HANDLE; an
      entry without DUPLICATE gives INVALID_ARGS. Otherwise a new handle is
      allocated for the same object with the requested rights narrowed to
      the entry's: `rights & entry->rights`. */
  method Duplicate<T>(table: Table?<T>, handle: u32, rights: u32, outPresent: bool)
    returns (status: Zx.Status, newHandle: u32)
    requires table != null ==> table.Valid() && table.buckets != null
    modifies if table != null then {table, table.buckets} else {}
    ensures table == null || handle == HANDLE_INVALID || !outPresent ==> status == Zx.InvalidArgs
    ensures table != null ==>
      table.Valid() && table.buckets == old(table.buckets) && table.numBuckets == old(table.numBuckets)
    ensures table != null && handle != HANDLE_INVALID && outPresent ==>
      match old(Find(table.buckets[..], handle))
      case None => status == Zx.BadHandle && unchanged(table, table.buckets)
      case Some(e) =>
        if !HasRights(e.rights, RIGHT_DUPLICATE) then
          status == Zx.InvalidArgs && unchanged(table, table.buckets)
        else
          && status == Zx.Ok && newHandle == (old(table.count) + 1) % U32_MOD
          && table.count == (old(table.count) + 1) % U32_MOD
          && table.buckets[..] == old(table.buckets[..])[newHandle % table.numBuckets :=
               [Entry(e.obj, Mask(rights, e.rights), 1)] + old(table.buckets[newHandle % table.numBuckets])]
  {
    if table == null || handle == HANDLE_INVALID || !outPresent {
      return Zx.InvalidArgs, 0;
    }
    var position := FindEntry(table, handle);
    if position.None? {
      return Zx.BadHandle, 0;
    }
    var entry := table.buckets[handle % table.numBuckets][position.value];
    if !HasRights(entry.rights, RIGHT_DUPLICATE) {
      return Zx.InvalidArgs, 0;
    }
    status, newHandle := Alloc(table, Some(entry.obj), Mask(rights, entry.rights), true);
  }

  // ------------------------------------------------- lookup by position

  /** The lookup of a fresh table's first handle finds it: handle 1 is
      entry 0 of bucket 1. */
  method FirstHandleFound() returns (status: Zx.Status, obj: Option<int>)
    ensures status == Zx.Ok && obj == Some(7)
  {
    var table := new Table<int>();
    var _ := TableInit(table, 0);
    var _, h1 := Alloc(table, Some(7), RIGHT_READ, true);
    status, obj := Get(table, h1, RIGHT_READ, true);
  }

  /** Because a lookup takes position `handle - 1` of the handle's bucket,
      the second handle of a fresh 64-bucket table, alone at position 0 of
      bucket 2, is never found: `handle_get` answers BAD_HANDLE for a handle
      `handle_alloc` just returned. */
  method SecondHandleLost() returns (h2: u32, status: Zx.Status, obj: Option<int>)
    ensures h2 == 2 && status == Zx.BadHandle && obj == None
  {
    var table := new Table<int>();
    var _ := TableInit(table, 0);
    var _, h1 := Alloc(table, Some(7), RIGHT_READ, true);
    var _, h := Alloc(table, Some(8), RIGHT_READ, true);
    h2 := h;
    status, obj := Get(table, h2, RIGHT_READ, true);
  }

  /** Handle numbers come from the live count, so once a handle is closed
      the next allocation hands out a number that is still in use: after
      handles 1 and 2 are allocated and 1 is closed, the next handle is 2
      again. */
  method HandleNumberReused() returns (h2: u32, h3: u32)
    ensures h2 == h3 == 2
  {
    var table := new Table<int>();
    var _ := TableInit(table, 0);
    var _, h1 := Alloc(table, Some(7), RIGHT_READ, true);
    var _, h := Alloc(table, Some(8), RIGHT_READ, true);
    h2 := h;
    var _ := Close(table, h1);
    var _, h' := Alloc(table, Some(9), RIGHT_READ, true);
    h3 := h';
  }
}
