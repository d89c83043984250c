/** `channel`: pairs of endpoints that carry message packets to each other.
    Each endpoint owns a message queue and points at its peer; a message
    written on one endpoint is queued on its peer, and read from there.
    Endpoints are reached through handles of one global handle table that
    the first channel call initialises with 64 buckets. */
module Channel {
  import opened Common
  import Zx
  import opened MessagePacket
  import opened HandleTable
  import opened Bits

  /** `ZX_RIGHT_READ | ZX_RIGHT_WRITE | ZX_RIGHT_TRANSFER`, the rights of
      both handles of a new channel. */
  const CHANNEL_RIGHTS: u32 := 11

  /** `channel_endpoint_t`. */
  class Endpoint {
    const queue: MessageQueue
    var peer: Endpoint?
    var isClosed: bool
    var refCount: u32

    /** `channel_endpoint_init`: an empty queue, no peer, open, reference
        count 1. */
    constructor ()
      ensures fresh(queue) && queue.Valid() && queue.packets == []
      ensures peer == null && !isClosed && refCount == 1
    {
      queue := new MessageQueue();
      peer := null;
      isClosed := false;
      refCount := 1;
    }
  }

  /** The globals `g_handle_table` and `g_handle_table_initialized`, and
      the endpoints channels have created so far. */
  class Kernel {
    const table: Table<Endpoint>
    var initialized: bool
    ghost var endpoints: set<Endpoint>

    /** The queues of all endpoints. */
    ghost function Queues(): set<MessageQueue>
      reads this
    {
      set e <- endpoints :: e.queue
    }

    /** The table has its 64 buckets exactly once it is initialised, and
        a count of 0 before; every handle refers to a known endpoint; the
        peer of a known endpoint is known; every queue is well formed. */
    ghost predicate Valid()
      reads this, table, table.buckets, endpoints, Queues()
    {
      && table.Valid()
      && (initialized <==> table.buckets != null)
      && (table.buckets == null ==> table.count == 0)
      && (table.buckets != null ==>
            && table.numBuckets == INITIAL_BUCKETS
            && forall b, i :: 0 <= b < table.buckets.Length && 0 <= i < |table.buckets[b]| ==>
                 table.buckets[b][i].obj in endpoints)
      && (forall e <- endpoints :: e.peer == null || e.peer in endpoints)
      && (forall e <- endpoints :: e.queue.Valid())
    }

    /** The kernel at start-up: the static table zero-filled, no endpoints. */
    constructor ()
      ensures Valid() && fresh(table) && !initialized && endpoints == {} && table.count == 0
    {
      table := new Table<Endpoint>();
      initialized := false;
      endpoints := {};
    }
  }

  /** The buckets every channel call sees: the table's, or the 64 empty
      buckets the first call creates. */
  ghost function Buckets(k: Kernel): (r: seq<seq<Entry<Endpoint>>>)
    reads k, k.table, k.table.buckets
  {
    if k.table.buckets != null then k.table.buckets[..] else seq(INITIAL_BUCKETS, _ => [])
  }

  /** The entry a lookup of `handle` finds in that table. */
  ghost function Found(k: Kernel, handle: u32): Option<Entry<Endpoint>>
    reads k, k.table, k.table.buckets
  {
    var buckets := Buckets(k);
    if |buckets| == 0 then None else Find(buckets, handle)
  }

  /** `get_current_handle_table`: the first call initialises the table
      with 64 buckets; the table's contents, as `Buckets` has them, stay
      the same. */
  method CurrentTable(k: Kernel) returns (table: Table<Endpoint>)
    requires k.Valid()
    modifies k, k.table
    ensures table == k.table && k.Valid() && k.initialized && k.table.buckets != null
    ensures k.endpoints == old(k.endpoints) && k.table.count == old(k.table.count)
    ensures Buckets(k) == old(Buckets(k))
    ensures old(k.initialized) ==> unchanged(k, k.table)
    ensures !old(k.initialized) ==> fresh(k.table.buckets)
  {
    if !k.initialized {
      var _ := TableInit(k.table, INITIAL_BUCKETS);
      k.initialized := true;
      assert Buckets(k) == seq(INITIAL_BUCKETS, _ => []);
    }
    return k.table;
  }

  /** `channel_create`. A null output is rejected before anything else.
      Otherwise two new endpoints, each the other's peer, get handles
      `count + 1` and `count + 2` with READ, WRITE and TRANSFER, their
      entries pushed on the front of their buckets. The endpoints are
      returned as ghost results so the contract can name them. */
  method Create(k: Kernel, out0Present: bool, out1Present: bool)
    returns (status: Zx.Status, h0: u32, h1: u32, ghost e0: Endpoint?, ghost e1: Endpoint?)
    requires k.Valid()
    modifies k, k.table, k.table.buckets
    ensures k.Valid()
    ensures !out0Present || !out1Present ==>
      status == Zx.InvalidArgs && unchanged(k, k.table) && Buckets(k) == old(Buckets(k))
    ensures out0Present && out1Present ==>
      && status == Zx.Ok && e0 != null && e1 != null && fresh(e0) && fresh(e1) && e0 != e1
      && fresh(e0.queue) && fresh(e1.queue)
      && e0.peer == e1 && e1.peer == e0 && !e0.isClosed && !e1.isClosed
      && e0.queue.packets == [] && e1.queue.packets == []
      && k.endpoints == old(k.endpoints) + {e0, e1}
      && h0 == (old(k.table.count) + 1) % U32_MOD && h1 == (h0 + 1) % U32_MOD && k.table.count == h1
      && var b0 := old(Buckets(k))[h0 % INITIAL_BUCKETS := [Entry(e0, CHANNEL_RIGHTS, 1)] + old(Buckets(k))[h0 % INITIAL_BUCKETS]];
         Buckets(k) == b0[h1 % INITIAL_BUCKETS := [Entry(e1, CHANNEL_RIGHTS, 1)] + b0[h1 % INITIAL_BUCKETS]]
  {
    if !out0Present || !out1Present {
      return Zx.InvalidArgs, 0, 0, null, null;
    }
    var endpoint0, endpoint1 := NewPair(k);
    var _ := CurrentTable(k);
    h0 := AllocEndpoint(k, endpoint0);
    h1 := AllocEndpoint(k, endpoint1);
    return Zx.Ok, h0, h1, endpoint0, endpoint1;
  }

  /** `channel_endpoint_init` on both endpoints of a new channel, each
      made the other's peer; the kernel now knows them. */
  method NewPair(k: Kernel) returns (e0: Endpoint, e1: Endpoint)
    requires k.Valid()
    modifies k
    ensures k.Valid() && k.endpoints == old(k.endpoints) + {e0, e1} && k.initialized == old(k.initialized)
    ensures fresh(e0) && fresh(e1) && fresh(e0.queue) && fresh(e1.queue) && e0 != e1
    ensures e0.peer == e1 && e1.peer == e0 && !e0.isClosed && !e1.isClosed
    ensures e0.queue.packets == [] && e1.queue.packets == []
  {
    e0 := new Endpoint();
    e1 := new Endpoint();
    e0.peer := e1;
    e1.peer := e0;
    k.endpoints := k.endpoints + {e0, e1};
  }

  /** `handle_alloc` of a handle with READ, WRITE and TRANSFER for a known
      endpoint, on the initialised table. */
  method AllocEndpoint(k: Kernel, e: Endpoint) returns (h: u32)
    requires k.Valid() && k.initialized && e in k.endpoints
    modifies k.table, k.table.buckets
    ensures k.Valid() && k.table.buckets == old(k.table.buckets)
    ensures h == (old(k.table.count) + 1) % U32_MOD && k.table.count == h
    ensures Buckets(k) == old(Buckets(k))[h % INITIAL_BUCKETS := [Entry(e, CHANNEL_RIGHTS, 1)] + old(Buckets(k))[h % INITIAL_BUCKETS]]
  {
    ghost var before := k.table.buckets[..];
    var _, handle := Alloc(k.table, Some(e), CHANNEL_RIGHTS, true);
    InTable(k, k.table.buckets[..], before, handle % INITIAL_BUCKETS, e);
    return handle;
  }

  /** Pushing an entry for a known endpoint keeps every handle's endpoint
      known. */
  lemma InTable(k: Kernel, after: seq<seq<Entry<Endpoint>>>, before: seq<seq<Entry<Endpoint>>>, b: nat, e: Endpoint)
    requires b < |before| && e in k.endpoints
    requires forall c, i :: 0 <= c < |before| && 0 <= i < |before[c]| ==> before[c][i].obj in k.endpoints
    requires after == before[b := [Entry(e, CHANNEL_RIGHTS, 1)] + before[b]]
    ensures forall c, i :: 0 <= c < |after| && 0 <= i < |after[c]| ==> after[c][i].obj in k.endpoints
  {
    forall c, i | 0 <= c < |after| && 0 <= i < |after[c]|
      ensures after[c][i].obj in k.endpoints
    {
      if c == b && i > 0 {
        assert after[c][i] == before[b][i - 1];
      }
    }
  }

  /** `channel_write`. The invalid handle is rejected. A handle the table
      does not resolve, or one without WRITE, fails as `handle_get` does.
      A closed endpoint, a missing peer or a closed peer gives BAD_HANDLE.
      A packet `message_packet_create` refuses passes on its status.
      Otherwise the packet is queued on the peer's queue, and no other
      queue changes. */
  method Write(k: Kernel, handle: u32, data: Option<seq<u8>>, dataSize: u32,
               handles: Option<seq<u32>>, numHandles: u32) returns (status: Zx.Status)
    requires k.Valid()
    requires data.Some? ==> |data.value| >= dataSize
    requires handles.Some? ==> |handles.value| >= numHandles
    modifies k, k.table, k.Queues()
    ensures k.Valid() && k.endpoints == old(k.endpoints)
    ensures Buckets(k) == old(Buckets(k)) && k.table.count == old(k.table.count)
    ensures handle == HANDLE_INVALID ==> status == Zx.InvalidArgs && unchanged(k.Queues())
    ensures handle != HANDLE_INVALID ==>
      match old(Found(k, handle))
      case None => status == Zx.BadHandle && unchanged(k.Queues())
      case Some(entry) =>
        var e := entry.obj;
        if !HasRights(entry.rights, RIGHT_WRITE) then status == Zx.InvalidArgs && unchanged(k.Queues())
        else if e.isClosed || e.peer == null || e.peer.isClosed then
          status == Zx.BadHandle && unchanged(k.Queues())
        else
          var created := MessagePacket.Create(data, dataSize, handles, numHandles, true);
          if created.status != Zx.Ok then status == created.status && unchanged(k.Queues())
          else
            && status == Zx.Ok
            && e.peer.queue.packets == old(e.peer.queue.packets) + [created.packet.value]
            && forall q <- k.Queues() :: q != e.peer.queue ==> unchanged(q)
  {
    if handle == HANDLE_INVALID {
      return Zx.InvalidArgs;
    }
    var table := CurrentTable(k);
    var endpoint;
    status, endpoint := Get(table, handle, RIGHT_WRITE, true);
    if status != Zx.Ok {
      return status;
    }
    var e := endpoint.value;
    if e.isClosed || e.peer == null || e.peer.isClosed {
      return Zx.BadHandle;
    }
    var created := MessagePacket.Create(data, dataSize, handles, numHandles, true);
    if created.status != Zx.Ok {
      return created.status;
    }
    Enqueue(e.peer.queue, created.packet);
    return Zx.Ok;
  }

  /** `channel_read`. The invalid handle is rejected. A handle the table
      does not resolve, or one without READ, fails as `handle_get` does. A
      closed endpoint, or one whose queue reports itself empty, gives
      BAD_HANDLE. Otherwise the head packet is dequeued; its sizes are
      reported through the pointers that are present, and its data and
      handles are copied into the caller's buffers (`data`, `handles`, each
      `None` for a null pointer) only when their stated capacity is large
      enough. On failure the buffers and every queue are left as they were. */
  method Read(k: Kernel, handle: u32, data: Option<seq<u8>>, dataSize: u32, actualDataPresent: bool,
              handles: Option<seq<u32>>, numHandles: u32, actualHandlesPresent: bool)
    returns (status: Zx.Status, actualDataSize: Option<nat>, dataOut: Option<seq<u8>>,
             actualNumHandles: Option<nat>, handlesOut: Option<seq<u32>>)
    requires k.Valid()
    requires data.Some? ==> |data.value| >= dataSize
    requires handles.Some? ==> |handles.value| >= numHandles
    modifies k, k.table, k.Queues()
    ensures k.Valid() && k.endpoints == old(k.endpoints)
    ensures Buckets(k) == old(Buckets(k)) && k.table.count == old(k.table.count)
    ensures status != Zx.Ok ==>
      && actualDataSize == None && dataOut == data && actualNumHandles == None && handlesOut == handles
      && unchanged(k.Queues())
    ensures handle == HANDLE_INVALID ==> status == Zx.InvalidArgs
    ensures handle != HANDLE_INVALID ==>
      match old(Found(k, handle))
      case None => status == Zx.BadHandle
      case Some(entry) =>
        var e := entry.obj;
        if !HasRights(entry.rights, RIGHT_READ) then status == Zx.InvalidArgs
        else if e.isClosed || old(IsEmpty(e.queue)) then status == Zx.BadHandle
        else
          && status == Zx.Ok && old(e.queue.packets) != []
          && var p := old(e.queue.packets)[0];
          && e.queue.packets == old(e.queue.packets)[1..]
          && (forall q <- k.Queues() :: q != e.queue ==> unchanged(q))
          && actualDataSize == (if actualDataPresent then Some(|p.data|) else None)
          && actualNumHandles == (if actualHandlesPresent then Some(|p.handles|) else None)
          && dataOut == (if data.Some? && dataSize >= |p.data| then Some(p.data + data.value[|p.data|..]) else data)
          && handlesOut == (if handles.Some? && numHandles >= |p.handles| then Some(p.handles + handles.value[|p.handles|..]) else handles)
  {
    actualDataSize, dataOut, actualNumHandles, handlesOut := None, data, None, handles;
    if handle == HANDLE_INVALID {
      return Zx.InvalidArgs, actualDataSize, dataOut, actualNumHandles, handlesOut;
    }
    var table := CurrentTable(k);
    var endpoint;
    status, endpoint := Get(table, handle, RIGHT_READ, true);
    if status != Zx.Ok {
      return;
    }
    var e := endpoint.value;
    if e.isClosed {
      return Zx.BadHandle, actualDataSize, dataOut, actualNumHandles, handlesOut;
    }
    if IsEmpty(e.queue) {
      return Zx.BadHandle, actualDataSize, dataOut, actualNumHandles, handlesOut;
    }
    // A queue whose count is not 0 holds a packet, so the source's check
    // for a null packet never fires.
    var packet := Dequeue(e.queue);
    var p := packet.value;
    if actualDataPresent {
      actualDataSize := Some(|p.data|);
    }
    if data.Some? && dataSize >= |p.data| {
      dataOut := Some(p.data + data.value[|p.data|..]);
    }
    if actualHandlesPresent {
      actualNumHandles := Some(|p.handles|);
    }
    if handles.Some? && numHandles >= |p.handles| {
      handlesOut := Some(p.handles + handles.value[|p.handles|..]);
    }
    return Zx.Ok, actualDataSize, dataOut, actualNumHandles, handlesOut;
  }

  /** `channel_close`. The invalid handle is rejected and a handle the
      table does not resolve gives BAD_HANDLE (no rights are required).
      Otherwise the endpoint is marked closed, its queue is emptied, its
      peer's back-pointer is cleared, and the handle is closed in the table
      as `handle_close` does. */
  method Close(k: Kernel, handle: u32) returns (status: Zx.Status)
    requires k.Valid()
    modifies k, k.table, k.table.buckets, k.endpoints, k.Queues()
    ensures k.Valid() && k.endpoints == old(k.endpoints)
    ensures handle == HANDLE_INVALID ==>
      status == Zx.InvalidArgs && unchanged(k.endpoints) && unchanged(k.Queues()) && Buckets(k) == old(Buckets(k))
    ensures handle != HANDLE_INVALID ==>
      match old(Found(k, handle))
      case None =>
        && status == Zx.BadHandle && unchanged(k.endpoints) && unchanged(k.Queues())
        && Buckets(k) == old(Buckets(k)) && k.table.count == old(k.table.count)
      case Some(entry) =>
        var e := entry.obj;
        var b := handle % INITIAL_BUCKETS;
        var chain := old(Buckets(k))[b];
        var i := Position(handle);
        && status == Zx.Ok && e.isClosed && e.queue.packets == [] && e.queue.count == 0
        && (old(e.peer) != null ==> old(e.peer).peer == null)
        && (old(e.peer) != e ==> e.peer == old(e.peer))
        && (forall x <- k.endpoints :: x != e && x != old(e.peer) ==> unchanged(x))
        && (forall q <- k.Queues() :: q != e.queue ==> unchanged(q))
        && i < |chain|
        && if entry.refCount == 1 then
             && Buckets(k) == old(Buckets(k))[b := Unlink(chain, i)]
             && k.table.count == (old(k.table.count) + U32_MOD - 1) % U32_MOD
           else
             && Buckets(k) == old(Buckets(k))[b := chain[i := entry.(refCount := (entry.refCount + U32_MOD - 1) % U32_MOD)]]
             && k.table.count == old(k.table.count)
  {
    if handle == HANDLE_INVALID {
      return Zx.InvalidArgs;
    }
    var table := CurrentTable(k);
    var endpoint;
    status, endpoint := Get(table, handle, RIGHT_NONE, true);
    if Found(k, handle).Some? {
      NoRightsRequired(Found(k, handle).value.rights);
    }
    if status != Zx.Ok {
      return status;
    }
    status := CloseFound(k, handle, endpoint.value);
  }

  /** `channel_close` once the handle has resolved to endpoint `e`. */
  method CloseFound(k: Kernel, handle: u32, e: Endpoint) returns (status: Zx.Status)
    requires k.Valid() && k.initialized && handle != HANDLE_INVALID
    requires Found(k, handle).Some? && Found(k, handle).value.obj == e
    modifies k.table, k.table.buckets, e, e.peer, e.queue
    ensures k.Valid() && k.endpoints == old(k.endpoints)
    ensures
      var entry := old(Found(k, handle)).value;
      var b := handle % INITIAL_BUCKETS;
      var chain := old(Buckets(k))[b];
      var i := Position(handle);
      && status == Zx.Ok && e.isClosed && e.queue.packets == [] && e.queue.count == 0
      && (old(e.peer) != null ==> old(e.peer).peer == null)
      && (old(e.peer) != e ==> e.peer == old(e.peer))
      && i < |chain|
      && if entry.refCount == 1 then
           && Buckets(k) == old(Buckets(k))[b := Unlink(chain, i)]
           && k.table.count == (old(k.table.count) + U32_MOD - 1) % U32_MOD
         else
           && Buckets(k) == old(Buckets(k))[b := chain[i := entry.(refCount := (entry.refCount + U32_MOD - 1) % U32_MOD)]]
           && k.table.count == old(k.table.count)
  {
    ghost var found, buckets := Found(k, handle), Buckets(k);
    Shutdown(k, e);
    assert Found(k, handle) == found && Buckets(k) == buckets;
    status := CloseHandle(k, handle);
  }

  /** The endpoint side of `channel_close`: mark the endpoint closed,
      empty its queue and clear its peer's back-pointer. */
  method Shutdown(k: Kernel, e: Endpoint)
    requires k.Valid() && e in k.endpoints
    modifies e, e.peer, e.queue
    ensures k.Valid()
    ensures e.isClosed && e.queue.packets == [] && e.queue.count == 0
    ensures old(e.peer) != null ==> old(e.peer).peer == null
    ensures old(e.peer) != e ==> e.peer == old(e.peer)
    ensures old(e.peer) != null ==> old(e.peer).isClosed == old(e.peer.isClosed) || old(e.peer) == e
  {
    e.isClosed := true;
    QueueDestroy(e.queue);
    if e.peer != null {
      e.peer.peer := null;
    }
  }

  /** `handle_close` on the initialised table, in terms of `Buckets`. */
  method CloseHandle(k: Kernel, handle: u32) returns (status: Zx.Status)
    requires k.Valid() && k.initialized && handle != HANDLE_INVALID && Found(k, handle).Some?
    modifies k.table, k.table.buckets
    ensures k.Valid() && k.table.buckets == old(k.table.buckets)
    ensures
      var entry := old(Found(k, handle)).value;
      var b := handle % INITIAL_BUCKETS;
      var chain := old(Buckets(k))[b];
      var i := Position(handle);
      && status == Zx.Ok && i < |chain|
      && if entry.refCount == 1 then
           && Buckets(k) == old(Buckets(k))[b := Unlink(chain, i)]
           && k.table.count == (old(k.table.count) + U32_MOD - 1) % U32_MOD
         else
           && Buckets(k) == old(Buckets(k))[b := chain[i := entry.(refCount := (entry.refCount + U32_MOD - 1) % U32_MOD)]]
           && k.table.count == old(k.table.count)
  {
    ghost var before := k.table.buckets[..];
    status := HandleTable.Close(k.table, handle);
    Unlinked(k, k.table.buckets[..], before, handle);
  }

  /** Closing a handle leaves only entries that were there before, so every
      handle's endpoint stays known. */
  lemma Unlinked(k: Kernel, after: seq<seq<Entry<Endpoint>>>, before: seq<seq<Entry<Endpoint>>>, handle: u32)
    requires |before| > 0 && |after| == |before|
    requires forall c, i :: 0 <= c < |before| && 0 <= i < |before[c]| ==> before[c][i].obj in k.endpoints
    requires var b := handle % |before|; var i := Position(handle);
      forall c :: 0 <= c < |before| && c != b ==> after[c] == before[c]
    requires var b := handle % |before|; var i := Position(handle);
      i < |before[b]| ==>
        after[b] == before[b] || after[b] == Unlink(before[b], i)
        || after[b] == before[b][i := before[b][i].(refCount := (before[b][i].refCount + U32_MOD - 1) % U32_MOD)]
    requires var b := handle % |before|; Position(handle) >= |before[b]| ==> after[b] == before[b]
    ensures forall c, i :: 0 <= c < |after| && 0 <= i < |after[c]| ==> after[c][i].obj in k.endpoints
  {
    var b := handle % |before|;
    forall c, j | 0 <= c < |after| && 0 <= j < |after[c]|
      ensures after[c][j].obj in k.endpoints
    {
      if c == b && Position(handle) < |before[b]| && after[b] == Unlink(before[b], Position(handle)) {
        if j >= Position(handle) {
          assert after[c][j] == before[b][j + 1];
        }
      }
    }
  }

  /** A channel handle has READ and WRITE. */
  lemma ChannelRights()
    ensures HasRights(CHANNEL_RIGHTS, RIGHT_READ) && HasRights(CHANNEL_RIGHTS, RIGHT_WRITE)
  {
    forall k: nat | Bit(RIGHT_WRITE, k)
      ensures Bit(CHANNEL_RIGHTS, k)
    {
      if k >= 2 {
        assert Bit(RIGHT_WRITE, k) == Bit(1, k - 1) == Bit(0, k - 2);
        ZeroHasNoBits(k - 2);
      } else {
        assert k == 1 && Bit(5, 0);
      }
    }
    forall k: nat | Bit(RIGHT_READ, k)
      ensures Bit(CHANNEL_RIGHTS, k)
    {
      if k >= 1 {
        ZeroHasNoBits(k - 1);
      }
    }
    HasRightsIsSubset(CHANNEL_RIGHTS, RIGHT_READ);
    HasRightsIsSubset(CHANNEL_RIGHTS, RIGHT_WRITE);
  }

  /** A new channel on a fresh kernel: its handles are 1 and 2, handle 1
      resolves to the first endpoint, and handle 2 resolves to nothing. */
  method FreshChannel() returns (k: Kernel, h0: u32, h1: u32, ghost e0: Endpoint, ghost e1: Endpoint)
    ensures fresh(k) && fresh(k.table) && fresh(e0.queue) && fresh(e1.queue) && k.Valid()
    ensures k.endpoints == {e0, e1}
    ensures e0 in k.endpoints && e1 in k.endpoints && e0.peer == e1 && !e0.isClosed && !e1.isClosed
    ensures e1.queue.packets == []
    ensures h0 == 1 && h1 == 2
    ensures Found(k, h0) == Some(Entry(e0, CHANNEL_RIGHTS, 1)) && Found(k, h1) == None
  {
    k := new Kernel();
    var _, handle0, handle1, endpoint0, endpoint1 := Create(k, true, true);
    h0, h1, e0, e1 := handle0, handle1, endpoint0, endpoint1;
    assert Buckets(k)[1] == [Entry(e0, CHANNEL_RIGHTS, 1)];
    assert |Buckets(k)[2]| == 1;
  }

  /** On a fresh kernel, a message written on the first handle of a new
      channel is queued on the second endpoint, but reading it through the
      second handle gives BAD_HANDLE: handle 2 sits at position 0 of bucket
      2, and the lookup inspects position 1. */
  method FirstChannelUnreadable() returns (written: Zx.Status, read: Zx.Status, ghost queued: nat)
    ensures written == Zx.Ok && read == Zx.BadHandle && queued == 1
  {
    var k, h0, h1, e0, e1 := FreshChannel();
    ChannelRights();
    written := Write(k, h0, Some([72, 105]), 2, None, 0);
    queued := |e1.queue.packets|;
    var status, _, _, _, _ := Read(k, h1, Some([0, 0, 0, 0]), 4, true, None, 0, true);
    read := status;
  }
}
