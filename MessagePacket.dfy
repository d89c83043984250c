/** `message_packet`: the messages a channel carries and the FIFO queue
    that holds them. A packet owns a copy of the caller's bytes and
    handles. The queue is a doubly linked list with head, tail and a 32-bit
    count; the model keeps the linked packets as a sequence from head to
    tail, which is all that the links encode. */
module MessagePacket {
  import opened Common
  import Zx

  /** A packet: its bytes (`data_size` of them) and its handles
      (`num_handles` of them). */
  datatype Packet = Packet(data: seq<u8>, handles: seq<u32>)

  /** The status of `message_packet_create` and the packet it stores
      through `out_packet`. */
  datatype Created = Created(status: Zx.Status, packet: Option<Packet>)

  /** `message_packet_create`. `data` and `handles` are the caller's
      buffers (`None` for a null pointer), which the source reads for
      `data_size` and `num_handles` entries. A null output pointer, or a
      null buffer with a non-zero size, is rejected; otherwise the packet
      holds copies of exactly the first `data_size` bytes and the first
      `num_handles` handles. A failing `malloc` is not modelled. */
  function Create(data: Option<seq<u8>>, dataSize: u32, handles: Option<seq<u32>>, numHandles: u32,
                  outPresent: bool): (r: Created)
    requires data.Some? ==> |data.value| >= dataSize
    requires handles.Some? ==> |handles.value| >= numHandles
    ensures r.status == Zx.Ok || r.status == Zx.InvalidArgs
    ensures r.status == Zx.Ok <==> outPresent && (dataSize == 0 || data.Some?) && (numHandles == 0 || handles.Some?)
    ensures r.status == Zx.Ok ==>
      && r.packet.Some?
      && |r.packet.value.data| == dataSize && |r.packet.value.handles| == numHandles
      && (forall i :: 0 <= i < dataSize ==> r.packet.value.data[i] == data.value[i])
      && (forall i :: 0 <= i < numHandles ==> r.packet.value.handles[i] == handles.value[i])
    ensures r.status != Zx.Ok ==> r.packet == None
  {
    if !outPresent then Created(Zx.InvalidArgs, None)
    else if dataSize > 0 && data.None? then Created(Zx.InvalidArgs, None)
    else if numHandles > 0 && handles.None? then Created(Zx.InvalidArgs, None)
    else
      var bytes := if dataSize > 0 then data.value[..dataSize] else [];
      var hs := if numHandles > 0 then handles.value[..numHandles] else [];
      Created(Zx.Ok, Some(Packet(bytes, hs)))
  }

  class MessageQueue {
    /** The linked packets from `head` to `tail`. */
    var packets: seq<Packet>
    /** `count`, a 32-bit counter. */
    var count: u32

    /** `count` is the number of queued packets, in 32-bit arithmetic. */
    ghost predicate Valid()
      reads this
    {
      count == |packets| % U32_MOD
    }

    /** A queue as `message_queue_init` leaves it. */
    constructor ()
      ensures Valid() && packets == [] && count == 0
    {
      packets := [];
      count := 0;
    }
  }

  /** `message_queue_init`: an empty queue; nothing for a null queue. */
  method QueueInit(queue: MessageQueue?)
    modifies queue
    ensures queue != null ==> queue.Valid() && queue.packets == [] && queue.count == 0
  {
    if queue == null {
      return;
    }
    queue.packets := [];
    queue.count := 0;
  }

  /** `message_queue_enqueue`: the packet is linked in after the tail and
      the count goes up by one (wrapping at 2^32). Nothing happens for a
      null queue or packet. */
  method Enqueue(queue: MessageQueue?, packet: Option<Packet>)
    modifies queue
    ensures queue != null && packet.Some? ==>
      queue.packets == old(queue.packets) + [packet.value] && queue.count == (old(queue.count) + 1) % U32_MOD
    ensures queue != null && packet.None? ==> unchanged(queue)
    ensures queue != null && old(queue.Valid()) ==> queue.Valid()
  {
    if queue == null || packet.None? {
      return;
    }
    CountStep(|queue.packets|);
    queue.packets := queue.packets + [packet.value];
    queue.count := (queue.count + 1) % U32_MOD;
  }

  /** The 32-bit count of `n + 1` things is one more than that of `n`. */
  lemma CountStep(n: nat)
    ensures (n + 1) % U32_MOD == (n % U32_MOD + 1) % U32_MOD
    ensures n > 0 ==> (n - 1) % U32_MOD == (n % U32_MOD + U32_MOD - 1) % U32_MOD
  {
  }

  /** `message_queue_dequeue`: the head packet is unlinked and returned and
      the count goes down by one; an empty list (or a null queue) gives
      null and changes nothing. */
  method Dequeue(queue: MessageQueue?) returns (packet: Option<Packet>)
    modifies queue
    ensures queue == null ==> packet == None
    ensures queue != null && old(queue.packets) == [] ==> packet == None && unchanged(queue)
    ensures queue != null && old(queue.packets) != [] ==>
      && packet == Some(old(queue.packets[0])) && queue.packets == old(queue.packets[1..])
      && queue.count == (old(queue.count) + U32_MOD - 1) % U32_MOD
    ensures queue != null && old(queue.Valid()) ==> queue.Valid()
  {
    if queue == null || queue.packets == [] {
      return None;
    }
    CountStep(|queue.packets|);
    packet := Some(queue.packets[0]);
    queue.packets := queue.packets[1..];
    queue.count := (queue.count + U32_MOD - 1) % U32_MOD;
  }

  /** `message_queue_is_empty`: true for a null queue or a zero count. On
      a valid queue that is an empty queue, unless the 32-bit count has
      wrapped. */
  function IsEmpty(queue: MessageQueue?): (e: bool)
    reads queue
    ensures queue != null && queue.Valid() && |queue.packets| < U32_MOD ==> (e <==> queue.packets == [])
    ensures queue == null ==> e
  {
    queue == null || queue.count == 0
  }

  /** With 2^32 packets queued the count has wrapped to 0, and the queue
      reports itself empty. */
  lemma CountWraps(queue: MessageQueue)
    requires queue.Valid() && |queue.packets| == U32_MOD
    ensures IsEmpty(queue) && queue.packets != []
  {
  }

  /** `message_queue_destroy`: every packet is released and the queue is
      left empty with count 0; nothing for a null queue. */
  method QueueDestroy(queue: MessageQueue?)
    modifies queue
    ensures queue != null ==> queue.Valid() && queue.packets == [] && queue.count == 0
  {
    if queue == null {
      return;
    }
    queue.packets := [];
    queue.count := 0;
  }

  // ------------------------------------------------------------ FIFO order

  /** A queue operation: enqueue a packet, or dequeue one. */
  datatype QueueOp = Put(p: Packet) | Take

  /** The packets a run of operations enqueues, in order. */
  function Puts(ops: seq<QueueOp>): (ps: seq<Packet>)
  {
    if ops == [] then [] else (if ops[0].Put? then [ops[0].p] else []) + Puts(ops[1..])
  }

  /** What a run of operations dequeues from a queue holding `q`, by the
      contracts of `Enqueue` and `Dequeue`: the packets the `Take`s
      return (an empty queue returns nothing). */
  function Taken(q: seq<Packet>, ops: seq<QueueOp>): seq<Packet>
    decreases |ops|
  {
    if ops == [] then []
    else if ops[0].Put? then Taken(q + [ops[0].p], ops[1..])
    else if q == [] then Taken(q, ops[1..])
    else [q[0]] + Taken(q[1..], ops[1..])
  }

  /** Runs `ops` on `queue` with `Enqueue` and `Dequeue`, collecting the
      packets the dequeues return: exactly `Taken` of what the queue held. */
  method Run(queue: MessageQueue, ops: seq<QueueOp>) returns (out: seq<Packet>)
    modifies queue
    ensures out == Taken(old(queue.packets), ops)
  {
    out := [];
    for i := 0 to |ops|
      invariant out + Taken(queue.packets, ops[i..]) == Taken(old(queue.packets), ops)
    {
      assert ops[i..][1..] == ops[i + 1..];
      if ops[i].Put? {
        Enqueue(queue, Some(ops[i].p));
      } else {
        var p := Dequeue(queue);
        if p.Some? {
          out := out + [p.value];
        }
      }
    }
    assert ops[|ops|..] == [];
  }

  /** Putting the same packet in front of a prefix and of the sequence it
      is a prefix of keeps it a prefix. */
  lemma ConsPrefix(x: Packet, t: seq<Packet>, s: seq<Packet>)
    requires |t| <= |s| && t == s[..|t|]
    ensures |[x] + t| <= |[x] + s| && [x] + t == ([x] + s)[..|[x] + t|]
  {
    assert ([x] + s)[..|t| + 1] == [x] + s[..|t|];
  }

  /** The queue is FIFO: whatever a run of operations dequeues is, in
      order, a prefix of the packets already queued followed by the ones it
      enqueues. */
  lemma {:induction false} Fifo(q: seq<Packet>, ops: seq<QueueOp>)
    ensures |Taken(q, ops)| <= |q + Puts(ops)| && Taken(q, ops) == (q + Puts(ops))[..|Taken(q, ops)|]
    decreases |ops|
  {
    if ops == [] {
      return;
    }
    var rest := ops[1..];
    assert Puts(ops) == (if ops[0].Put? then [ops[0].p] else []) + Puts(rest);
    if ops[0].Put? {
      var q' := q + [ops[0].p];
      Fifo(q', rest);
      assert q' + Puts(rest) == q + Puts(ops);
    } else if q == [] {
      Fifo(q, rest);
    } else {
      Fifo(q[1..], rest);
      ConsPrefix(q[0], Taken(q[1..], rest), q[1..] + Puts(rest));
      assert [q[0]] + (q[1..] + Puts(rest)) == q + Puts(ops);
    }
  }
}
