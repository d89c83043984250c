/** The AIC8800 WiFi driver core: the TX queue with flow-control credits,
    the RX buffer that drops its oldest packet when full, the firmware
    checksum, chip identification, the transmit frame, and the guards that
    refuse work before initialisation. The SDIO bus is an abstract
    interface: a byte read answers from a fixed function of the address, a
    write's status is a fixed function of the write, and the driver keeps
    the writes it issued in order. */
module Aic8800 {
  import opened Common
  import Zx

  /** `CHIP_ID_*`. */
  const CHIP_ID_AIC8800D: u32 := 0x8800_0000
  const CHIP_ID_AIC8800DC: u32 := 0x8800_0001
  const CHIP_ID_AIC8800DW: u32 := 0x8800_0002
  const CHIP_ID_AIC8800D80: u32 := 0x8800_0080

  /** `regs::SLEEP`, `regs::WAKEUP` and the reset/enable register. */
  const REG_SLEEP: u8 := 0x05
  const REG_WAKEUP: u8 := 0x09
  const REG_RESET: u8 := 0x0C

  /** `config::FUNC_BLOCKSIZE`, `config::TXQLEN`, and the RX buffer size. */
  const FUNC_BLOCKSIZE: nat := 512
  const TXQLEN: nat := 2048 * 4
  const RX_BUFFER_SIZE: nat := 256

  /** `SdioType::Data`. */
  const SDIO_TYPE_DATA: u8 := 0x00

  /** A Rust `Result<T, ZxStatus>`. */
  datatype Outcome<T> = Done(value: T) | Failed(status: Zx.Status)

  // ------------------------------------------------------------- TX queue

  /** `TxPacket`. */
  datatype TxPacket = TxPacket(data: seq<u8>, priority: u8)

  /** `TxQueue`: packets waiting to be sent, a capacity, and the credits
      the firmware last granted. */
  class TxQueue {
    var queue: seq<TxPacket>
    const maxSize: nat
    var credits: u32

    /** The queue never holds more than its capacity. */
    ghost predicate Valid()
      reads this
    {
      |queue| <= maxSize
    }

    /** `TxQueue::new`: empty, no credits. */
    constructor (maxSize: nat)
      ensures Valid() && this.maxSize == maxSize && queue == [] && credits == 0
    {
      this.maxSize := maxSize;
      queue := [];
      credits := 0;
    }

    /** `enqueue`: a full queue refuses the packet with NO_MEMORY and is
        unchanged; otherwise the packet goes at the back. */
    method Enqueue(packet: TxPacket) returns (status: Zx.Status)
      requires Valid()
      modifies this
      ensures Valid() && credits == old(credits)
      ensures old(|queue|) >= maxSize ==> status == Zx.NoMemory && queue == old(queue)
      ensures old(|queue|) < maxSize ==> status == Zx.Ok && queue == old(queue) + [packet]
    {
      if |queue| >= maxSize {
        return Zx.NoMemory;
      }
      queue := queue + [packet];
      return Zx.Ok;
    }

    /** `dequeue`: nothing without credits or without packets, and then
        nothing changes; otherwise the front packet, for one credit. */
    method Dequeue() returns (packet: Option<TxPacket>)
      requires Valid()
      modifies this
      ensures Valid()
      ensures old(credits) == 0 || old(queue) == [] ==> packet == None && queue == old(queue) && credits == old(credits)
      ensures old(credits) > 0 && old(queue) != [] ==>
        packet == Some(old(queue[0])) && queue == old(queue[1..]) && credits == old(credits) - 1
    {
      if credits == 0 {
        return None;
      }
      if queue == [] {
        return None;
      }
      packet := Some(queue[0]);
      queue := queue[1..];
      credits := credits - 1;
    }

    /** `set_credits`. */
    method SetCredits(credits: u32)
      modifies this
      ensures this.credits == credits && queue == old(queue)
    {
      this.credits := credits;
    }

    /** `len`. */
    function Len(): (n: nat)
      requires Valid()
      reads this
      ensures n == |queue| && n <= maxSize
    {
      |queue|
    }

    /** `is_empty`. */
    function IsEmpty(): (e: bool)
      reads this
      ensures e <==> |queue| == 0
    {
      queue == []
    }
  }

  /** Packets come out in the order they went in, and each one costs a
      credit: with `c` credits, `k <= c` dequeues from a queue of at least
      `k` packets return its first `k` packets and leave `c - k` credits. */
  method DrainInOrder(q: TxQueue, k: nat) returns (out: seq<TxPacket>)
    requires q.Valid() && k <= q.credits && k <= |q.queue|
    modifies q
    ensures q.Valid() && out == old(q.queue[..k]) && q.queue == old(q.queue[k..])
    ensures q.credits == old(q.credits) - k
  {
    out := [];
    for i := 0 to k
      invariant q.Valid() && q.credits == old(q.credits) - i
      invariant out == old(q.queue[..i]) && q.queue == old(q.queue[i..])
    {
      var p := q.Dequeue();
      out := out + [p.value];
    }
  }

  // ------------------------------------------------------------ RX buffer

  /** `RxPacket`. */
  datatype RxPacket = RxPacket(data: seq<u8>, rssi: int, channel: u8)

  /** `RxBuffer`: received packets, oldest first, and a capacity. */
  class RxBuffer {
    var packets: seq<RxPacket>
    const maxSize: nat

    /** The buffer never holds more than its capacity, or than one packet
        when the capacity is 0. */
    ghost predicate Valid()
      reads this
    {
      |packets| <= if maxSize == 0 then 1 else maxSize
    }

    /** `RxBuffer::new`. */
    constructor (maxSize: nat)
      ensures Valid() && this.maxSize == maxSize && packets == []
    {
      this.maxSize := maxSize;
      packets := [];
    }

    /** `push`: at or over capacity the oldest packet is dropped first; the
        new packet goes at the back. */
    method Push(packet: RxPacket)
      requires Valid()
      modifies this
      ensures Valid() && |packets| > 0 && packets[|packets| - 1] == packet
      ensures old(|packets|) >= maxSize && old(packets) != [] ==> packets == old(packets[1..]) + [packet]
      ensures old(|packets|) < maxSize || old(packets) == [] ==> packets == old(packets) + [packet]
    {
      if |packets| >= maxSize && packets != [] {
        packets := packets[1..];
      }
      packets := packets + [packet];
    }

    /** `pop`: the oldest packet, if any. */
    method Pop() returns (packet: Option<RxPacket>)
      requires Valid()
      modifies this
      ensures Valid()
      ensures old(packets) == [] ==> packet == None && packets == []
      ensures old(packets) != [] ==> packet == Some(old(packets[0])) && packets == old(packets[1..])
    {
      if packets == [] {
        return None;
      }
      packet := Some(packets[0]);
      packets := packets[1..];
    }

    /** `len`. */
    function Len(): (n: nat)
      requires Valid()
      reads this
      ensures n == |packets| && (maxSize > 0 ==> n <= maxSize)
    {
      |packets|
    }
  }

  /** The buffer keeps the newest packets: pushing `ps` one by one into a
      buffer of capacity `m > 0` that starts empty leaves the last
      `min(|ps|, m)` of them, in order. */
  method PushAll(b: RxBuffer, ps: seq<RxPacket>)
    requires b.Valid() && b.maxSize > 0 && b.packets == []
    modifies b
    ensures b.Valid()
    ensures b.packets == if |ps| <= b.maxSize then ps else ps[|ps| - b.maxSize..]
  {
    for i := 0 to |ps|
      invariant b.Valid()
      invariant b.packets == if i <= b.maxSize then ps[..i] else ps[i - b.maxSize..i]
    {
      b.Push(ps[i]);
      assert ps[..i + 1] == ps[..i] + [ps[i]];
    }
    assert ps[..|ps|] == ps;
  }

  /** A buffer of capacity 0 still keeps the packet just pushed. */
  method ZeroCapacityKeepsOne(p: RxPacket) returns (n: nat)
    ensures n == 1
  {
    var b := new RxBuffer(0);
    b.Push(p);
    n := b.Len();
  }

  // ------------------------------------------------------------ checksum

  /** A chunk of at most four bytes, zero-padded to four. */
  function Pad(chunk: seq<u8>): (p: seq<u8>)
    requires |chunk| <= 4
    ensures |p| == 4
  {
    chunk + Zeros(4 - |chunk|)
  }

  /** `u32::from_le_bytes` of a zero-padded chunk. */
  function LeWord(chunk: seq<u8>): (w: u32)
    requires |chunk| <= 4
  {
    var p := Pad(chunk);
    p[0] as int + 0x100 * (p[1] as int + 0x100 * (p[2] as int + 0x100 * (p[3] as int)))
  }

  /** The four bytes of a word, least significant first: the inverse of
      `LeWord`. */
  function LeBytes(w: u32): (b: seq<u8>)
    ensures |b| == 4
  {
    var w1 := w / 0x100;
    var w2 := w1 / 0x100;
    var w3 := w2 / 0x100;
    [w % 0x100, w1 % 0x100, w2 % 0x100, w3]
  }

  /** Splitting off the low byte of `lo + 256 x`. */
  lemma LowByte(lo: int, x: nat)
    requires 0 <= lo < 0x100
    ensures (lo + 0x100 * x) % 0x100 == lo && (lo + 0x100 * x) / 0x100 == x
  {
  }

  /** `LeWord` and `LeBytes` are inverse. */
  lemma LeRoundTrip(w: u32, b: seq<u8>)
    requires |b| == 4
    ensures LeWord(LeBytes(w)) == w
    ensures LeBytes(LeWord(b)) == b
  {
    var w1 := w / 0x100;
    var w2 := w1 / 0x100;
    assert w == w % 0x100 + 0x100 * w1;
    assert w1 == w1 % 0x100 + 0x100 * w2;
    assert w2 == w2 % 0x100 + 0x100 * (w2 / 0x100);
    assert Pad(LeBytes(w)) == LeBytes(w);
    assert Pad(b) == b;
    var x2 := b[2] as int + 0x100 * (b[3] as int);
    var x1 := b[1] as int + 0x100 * x2;
    LowByte(b[0] as int, x1);
    LowByte(b[1] as int, x2);
    LowByte(b[2] as int, b[3] as int);
  }

  /** A chunk of zeros is the word 0. */
  lemma LeWordOfZeros(n: nat)
    requires n <= 4
    ensures LeWord(Zeros(n)) == 0
  {
    assert Pad(Zeros(n)) == Zeros(4);
  }

  /** Bytes appended as zeros do not change a chunk's word. */
  lemma LeWordZeroExtended(chunk: seq<u8>, k: nat)
    requires |chunk| + k <= 4
    ensures LeWord(chunk + Zeros(k)) == LeWord(chunk)
  {
    assert Pad(chunk + Zeros(k)) == Pad(chunk);
  }

  /** `data.chunks(4)`, each chunk zero-padded and read as a word. */
  function Words(data: seq<u8>): (ws: seq<u32>)
    decreases |data|
  {
    if data == [] then []
    else
      var n := if |data| < 4 then |data| else 4;
      [LeWord(data[..n])] + Words(data[n..])
  }

  /** `acc` plus the words of `ws`, with 32-bit wrap-around. */
  function Sum(acc: u32, ws: seq<u32>): u32
    decreases |ws|
  {
    if ws == [] then acc else Sum((acc + ws[0]) % U32_MOD, ws[1..])
  }

  /** The firmware checksum of `data`: an image of at most four bytes sums
      to its own zero-padded little-endian word. */
  function Checksum(data: seq<u8>): (c: u32)
    ensures |data| <= 4 ==> c == LeWord(data)
  {
    ShortImageSum(data);
    Sum(0, Words(data))
  }

  /** An image of at most four bytes is one word, or none when empty. */
  lemma ShortImageSum(data: seq<u8>)
    ensures |data| <= 4 ==> Sum(0, Words(data)) == LeWord(data)
  {
    if data == [] {
      assert LeWord(data) == 0 by {
        assert Pad(data) == [0, 0, 0, 0];
      }
    } else if |data| <= 4 {
      var w := LeWord(data);
      assert Words(data) == [w] by {
        assert data[..|data|] == data && data[|data|..] == [];
      }
      SumOne(w);
    }
  }

  /** One word sums to itself. */
  lemma SumOne(w: u32)
    ensures Sum(0, [w]) == w
  {
    assert Sum(0, [w]) == Sum(w, [w][1..]);
  }

  /** 32-bit wrapping addition. */
  lemma AddWraps(x: u32, y: u32)
    ensures (x + y) % U32_MOD == if x + y < U32_MOD then x + y else x + y - U32_MOD
  {
  }

  /** 32-bit wrapping addition is associative. */
  lemma WrapAssoc(x: u32, y: u32, z: u32)
    ensures ((x + y) % U32_MOD + z) % U32_MOD == (x + (y + z) % U32_MOD) % U32_MOD
  {
    AddWraps(x, y);
    AddWraps(y, z);
    AddWraps((x + y) % U32_MOD, z);
    AddWraps(x, (y + z) % U32_MOD);
  }

  /** A starting value just adds to the sum. */
  lemma {:induction false} SumShift(acc: u32, ws: seq<u32>)
    ensures Sum(acc, ws) == (acc + Sum(0, ws)) % U32_MOD
    decreases |ws|
  {
    if ws != [] {
      var w, rest := ws[0], ws[1..];
      var next: u32 := (acc + w) % U32_MOD;
      assert Sum(acc, ws) == Sum(next, rest);
      SumFromZero(ws);
      SumShift(next, rest);
      SumShift(w, rest);
      WrapRegroup(acc, w, Sum(0, rest), Sum(w, rest), next);
    }
  }

  /** The sum of two runs of words is the wrapping sum of their sums. */
  lemma {:induction false} SumAppend(ws: seq<u32>, vs: seq<u32>)
    ensures Sum(0, ws + vs) == (Sum(0, ws) + Sum(0, vs)) % U32_MOD
    decreases |ws|
  {
    if ws == [] {
      assert ws + vs == vs;
    } else {
      var w, rest, restVs := ws[0], ws[1..], ws[1..] + vs;
      assert (ws + vs)[0] == w && (ws + vs)[1..] == restVs;
      SumFromZero(ws + vs);
      SumFromZero(ws);
      SumShift(w, restVs);
      SumAppend(rest, vs);
      SumShift(w, rest);
      WrapRegroup(w, Sum(0, rest), Sum(0, vs), Sum(0, restVs), Sum(w, rest));
    }
  }

  /** Summing from 0 starts with the first word. */
  lemma SumFromZero(ws: seq<u32>)
    requires ws != []
    ensures Sum(0, ws) == Sum(ws[0], ws[1..])
  {
    assert (0 + ws[0]) % U32_MOD == ws[0];
  }

  /** `w + (s + t)` and `(w + s) + t` agree under 32-bit wrap-around, with
      the inner sums named. */
  lemma WrapRegroup(w: u32, s: u32, t: u32, st: u32, ws: u32)
    requires st == (s + t) % U32_MOD && ws == (w + s) % U32_MOD
    ensures (w + st) % U32_MOD == (ws + t) % U32_MOD
  {
    WrapAssoc(w, s, t);
  }

  /** Zero words add nothing. */
  lemma {:induction false} SumOfZeros(acc: u32, ws: seq<u32>)
    requires forall i :: 0 <= i < |ws| ==> ws[i] == 0
    ensures Sum(acc, ws) == acc
    decreases |ws|
  {
    if ws != [] {
      SumOfZeros(acc, ws[1..]);
    }
  }

  /** Data aligned to whole words is cut into words on its own. */
  lemma {:induction false} WordsAppend(a: seq<u8>, b: seq<u8>)
    requires |a| % 4 == 0
    ensures Words(a + b) == Words(a) + Words(b)
    decreases |a|
  {
    if a == [] {
      assert a + b == b;
    } else {
      var ab, w := a + b, LeWord(a[..4]);
      assert ab[..4] == a[..4] && ab[4..] == a[4..] + b;
      assert Words(ab) == [w] + Words(a[4..] + b);
      assert Words(a) == [w] + Words(a[4..]);
      WordsAppend(a[4..], b);
      assert [w] + (Words(a[4..]) + Words(b)) == ([w] + Words(a[4..])) + Words(b);
    }
  }

  /** Zero bytes make zero words. */
  lemma {:induction false} WordsOfZeros(k: nat)
    ensures forall i :: 0 <= i < |Words(Zeros(k))| ==> Words(Zeros(k))[i] == 0
    decreases k
  {
    if k > 0 {
      var n := if k < 4 then k else 4;
      assert Zeros(k)[..n] == Zeros(n) && Zeros(k)[n..] == Zeros(k - n);
      LeWordOfZeros(n);
      WordsOfZeros(k - n);
    }
  }

  /** A last chunk of one to three bytes followed by zeros: the padded
      chunk is the same word, and the rest is zero words. */
  lemma ShortChunkZeroTail(data: seq<u8>, k: nat)
    requires 0 < |data| < 4
    ensures Checksum(data + Zeros(k)) == Checksum(data)
  {
    var d := data + Zeros(k);
    var n := if |d| < 4 then |d| else 4;
    var m := n - |data|;
    assert d[..n] == data + Zeros(m);
    assert d[n..] == Zeros(k - m);
    LeWordZeroExtended(data, m);
    var w := LeWord(data);
    assert Words(d) == [w] + Words(Zeros(k - m));
    assert data[..|data|] == data && data[|data|..] == [];
    assert Words(data) == [w];
    var zs := Words(Zeros(k - m));
    WordsOfZeros(k - m);
    SumOfZeros(w, zs);
    assert ([w] + zs)[0] == w && ([w] + zs)[1..] == zs && [w][1..] == [];
    assert (0 + w) % U32_MOD == w;
    assert Sum(0, [w] + zs) == Sum(w, zs);
    assert Sum(0, [w]) == Sum(w, []);
  }

  /** Trailing zero bytes do not change the checksum of a last chunk. */
  lemma TailZeroTail(tail: seq<u8>, k: nat)
    requires |tail| < 4
    ensures Checksum(tail + Zeros(k)) == Checksum(tail)
  {
    if tail == [] {
      assert tail + Zeros(k) == Zeros(k);
      WordsOfZeros(k);
      SumOfZeros(0, Words(Zeros(k)));
    } else {
      ShortChunkZeroTail(tail, k);
    }
  }

  /** Trailing zero bytes do not change the checksum: the last chunk is
      padded with exactly such zeros. */
  lemma ChecksumIgnoresZeroTail(data: seq<u8>, k: nat)
    ensures Checksum(data + Zeros(k)) == Checksum(data)
  {
    var aligned := |data| / 4 * 4;
    var head, tail := data[..aligned], data[aligned..];
    assert data == head + tail;
    assert data + Zeros(k) == head + (tail + Zeros(k));
    ChecksumAppend(head, tail + Zeros(k));
    ChecksumAppend(head, tail);
    TailZeroTail(tail, k);
  }

  /** The checksum of data aligned to whole words followed by more data is
      the wrapping sum of the two checksums. */
  lemma ChecksumAppend(a: seq<u8>, b: seq<u8>)
    requires |a| % 4 == 0
    ensures Checksum(a + b) == (Checksum(a) + Checksum(b)) % U32_MOD
  {
    WordsAppend(a, b);
    SumAppend(Words(a), Words(b));
  }

  /** One chunk of the walk: its word is added to the running sum. */
  lemma SumStep(acc: u32, data: seq<u8>, n: nat)
    requires data != [] && n == (if |data| < 4 then |data| else 4)
    ensures Sum(acc, Words(data)) == Sum((acc + LeWord(data[..n])) % U32_MOD, Words(data[n..]))
  {
    var ws := Words(data);
    assert ws == [LeWord(data[..n])] + Words(data[n..]);
    assert ws[0] == LeWord(data[..n]) && ws[1..] == Words(data[n..]);
  }

  /** `FirmwareLoader::verify_checksum`: walks `data` four bytes at a time,
      adding each little-endian word with wrap-around, and compares the sum
      with `expected`. */
  method VerifyChecksum(data: seq<u8>, expected: u32) returns (ok: bool)
    ensures ok <==> Checksum(data) == expected
  {
    var checksum: u32 := 0;
    var i := 0;
    while i < |data|
      invariant 0 <= i <= |data|
      invariant Sum(checksum, Words(data[i..])) == Checksum(data)
      decreases |data| - i
    {
      var n := if |data| - i < 4 then |data| - i else 4;
      SumStep(checksum, data[i..], n);
      assert data[i..][..n] == data[i..i + n] && data[i..][n..] == data[i + n..];
      checksum := (checksum + LeWord(data[i..i + n])) % U32_MOD;
      i := i + n;
    }
    assert data[0..] == data;
    return checksum == expected;
  }

  // ------------------------------------------------------------- framing

  /** The transmit frame: type DATA, flags 0, the payload length as a
      little-endian `u16` (`data.len() as u16`, so modulo 2^16), the
      payload, then zeros up to a multiple of the 512-byte block. */
  function Frame(data: seq<u8>): (f: seq<u8>)
  {
    var len16 := |data| % U16_MOD;
    var packet := [SDIO_TYPE_DATA, 0, len16 % 0x100, len16 / 0x100] + data;
    var aligned := (|packet| + FUNC_BLOCKSIZE - 1) / FUNC_BLOCKSIZE * FUNC_BLOCKSIZE;
    packet + Zeros(aligned - |packet|)
  }

  /** The frame is whole blocks, at most one block longer than header and
      payload, and carries the header, the payload and zero padding. */
  lemma FrameLayout(data: seq<u8>)
    ensures var f := Frame(data);
      && |f| % FUNC_BLOCKSIZE == 0 && |data| + 4 <= |f| < |data| + 4 + FUNC_BLOCKSIZE
      && f[0] == SDIO_TYPE_DATA && f[1] == 0
      && f[4..4 + |data|] == data
      && forall i :: 4 + |data| <= i < |f| ==> f[i] == 0
  {
    var n := |data| + 4;
    var aligned := (n + FUNC_BLOCKSIZE - 1) / FUNC_BLOCKSIZE * FUNC_BLOCKSIZE;
    AlignUp(n);
    var f := Frame(data);
    assert f[4..4 + |data|] == data;
  }

  /** Rounding up to whole 512-byte blocks. */
  lemma AlignUp(n: nat)
    ensures var a := (n + FUNC_BLOCKSIZE - 1) / FUNC_BLOCKSIZE * FUNC_BLOCKSIZE;
      a % FUNC_BLOCKSIZE == 0 && n <= a < n + FUNC_BLOCKSIZE
  {
    var q := (n + 511) / 512;
    assert q * 512 <= n + 511 < q * 512 + 512;
  }

  /** The length field a receiver reads back, `u16::from_le_bytes` of
      bytes 2 and 3, is the payload length modulo 2^16: the payload length
      itself for payloads under 64 KiB. */
  lemma FrameLengthField(data: seq<u8>)
    ensures var f := Frame(data); f[2] as int + 0x100 * (f[3] as int) == |data| % U16_MOD
    ensures |data| < U16_MOD ==> Frame(data)[2] as int + 0x100 * (Frame(data)[3] as int) == |data|
  {
  }

  // ---------------------------------------------------------------- driver

  /** One write the driver issues on the bus. */
  datatype BusWrite = WriteByte(reg: u8, value: u8) | WriteMulti(addr: u32, bytes: seq<u8>)

  /** The SDIO interface: the answer to a byte read at each address, and
      the status of each write. */
  datatype Bus = Bus(readByte: u8 -> Outcome<u8>, writeStatus: BusWrite -> Zx.Status)

  /** `PowerState`. */
  datatype PowerState = Sleep | Active

  /** `WifiBand`. */
  datatype WifiBand = Band2Ghz | Band5Ghz

  /** `Channel`. */
  datatype Channel = Channel(number: u8, frequencyMhz: u16, maxPowerDbm: int, band: WifiBand)

  /** `Channel::CHANNELS_2GHZ`. */
  const CHANNELS_2GHZ: seq<Channel> := [
    Channel(1, 2412, 20, Band2Ghz), Channel(2, 2417, 20, Band2Ghz), Channel(3, 2422, 20, Band2Ghz),
    Channel(4, 2427, 20, Band2Ghz), Channel(5, 2432, 20, Band2Ghz), Channel(6, 2437, 20, Band2Ghz),
    Channel(7, 2442, 20, Band2Ghz), Channel(8, 2447, 20, Band2Ghz), Channel(9, 2452, 20, Band2Ghz),
    Channel(10, 2457, 20, Band2Ghz), Channel(11, 2462, 20, Band2Ghz), Channel(12, 2467, 20, Band2Ghz),
    Channel(13, 2472, 20, Band2Ghz)]

  /** The 2.4 GHz table lists channels 1 to 13 in order, channel `n` at
      `2407 + 5 n` MHz, all at 20 dBm. */
  lemma ChannelTable()
    ensures |CHANNELS_2GHZ| == 13
    ensures forall i :: 0 <= i < 13 ==>
      && CHANNELS_2GHZ[i].number == i + 1
      && CHANNELS_2GHZ[i].frequencyMhz == 2407 + 5 * (i + 1)
      && CHANNELS_2GHZ[i].maxPowerDbm == 20 && CHANNELS_2GHZ[i].band == Band2Ghz
  {
  }

  /** `PhyCapabilities`. */
  datatype PhyCapabilities = PhyCapabilities(supportedBands: seq<WifiBand>, htSupported: bool,
    vhtSupported: bool, maxTxPowerDbm: int, supportedChannels: seq<Channel>)

  /** `get_capabilities`: 2.4 GHz only, HT without VHT, 20 dBm, the 13
      channels of the table. */
  function Capabilities(): (c: PhyCapabilities)
    ensures c.htSupported && !c.vhtSupported && |c.supportedChannels| == 13
    ensures c.supportedBands == [Band2Ghz]
  {
    PhyCapabilities([Band2Ghz], true, false, 20, CHANNELS_2GHZ)
  }

  /** `is_chip_supported`. */
  predicate IsChipSupported(chipId: u32)
    ensures IsChipSupported(chipId) ==> chipId / 0x100 == 0x88_0000
  {
    chipId == CHIP_ID_AIC8800D || chipId == CHIP_ID_AIC8800DC
    || chipId == CHIP_ID_AIC8800DW || chipId == CHIP_ID_AIC8800D80
  }

  /** Exactly the three ids `0x88000000` to `0x88000002` and `0x88000080`
      are supported. */
  lemma SupportedChips(chipId: u32)
    ensures IsChipSupported(chipId) <==> (0x8800_0000 <= chipId <= 0x8800_0002 || chipId == 0x8800_0080)
  {
  }

  /** The firmware file `download_firmware` asks for; the DW chip gets
      the generic image. */
  function FirmwareName(chipId: u32): (name: string)
    ensures chipId == CHIP_ID_AIC8800DW ==> name == "fmacfw.bin"
  {
    if chipId == CHIP_ID_AIC8800D80 then "fmacfw_8800d80.bin"
    else if chipId == CHIP_ID_AIC8800D then "fmacfw_8800d.bin"
    else if chipId == CHIP_ID_AIC8800DC then "fmacfw_8800dc.bin"
    else "fmacfw.bin"
  }

  /** `FirmwareLoader::load_firmware`: a placeholder that always answers
      NOT_SUPPORTED. */
  function LoadFirmware(name: string): (r: Outcome<seq<u8>>)
    ensures r == Failed(Zx.NotSupported)
  {
    Failed(Zx.NotSupported)
  }

  /** Bytes `0` to `n - 1` read in turn, stopping at the first failing
      read. */
  function ReadBytes(bus: Bus, n: nat): (r: Outcome<seq<u8>>)
    requires n <= 4
    ensures r.Done? ==> |r.value| == n && forall j :: 0 <= j < n ==> bus.readByte(j as u8) == Done(r.value[j])
  {
    if n == 0 then Done([])
    else match ReadBytes(bus, n - 1)
      case Failed(status) => Failed(status)
      case Done(bytes) =>
        match bus.readByte((n - 1) as u8)
        case Failed(status) => Failed(status)
        case Done(b) => Done(bytes + [b])
  }

  /** Once a read fails, reading further bytes gives the same failure. */
  lemma {:induction false} FailureSticks(bus: Bus, n: nat, m: nat)
    requires n <= m <= 4 && ReadBytes(bus, n).Failed?
    ensures ReadBytes(bus, m) == ReadBytes(bus, n)
    decreases m
  {
    if m > n {
      FailureSticks(bus, n, m - 1);
    }
  }

  /** What `read_chip_id` returns on a bus: the first failing read of
      bytes 0 to 3, or their little-endian assembly. */
  function ChipIdOn(bus: Bus): Outcome<u32>
  {
    match ReadBytes(bus, 4)
    case Failed(status) => Failed(status)
    case Done(bytes) => Done(LeWord(bytes))
  }

  /** `Aic8800Driver`. */
  class Driver {
    const bus: Bus
    var chipId: u32
    var powerState: PowerState
    var initialized: bool
    const txQueue: TxQueue
    const rxBuffer: RxBuffer
    var macAddress: seq<u8>
    var currentChannel: Option<Channel>
    /** Every write issued on the bus, in order. */
    var sent: seq<BusWrite>

    ghost predicate Valid()
      reads this, txQueue, rxBuffer
    {
      txQueue.Valid() && rxBuffer.Valid() && txQueue != rxBuffer as object
    }

    /** `Aic8800Driver::new`: chip id 0, asleep, not initialised, a TX
        queue of `TXQLEN` and an RX buffer of 256, a zero MAC address and no
        channel. */
    constructor (bus: Bus)
      ensures Valid() && this.bus == bus && chipId == 0 && powerState == Sleep && !initialized
      ensures txQueue.maxSize == TXQLEN && txQueue.queue == [] && txQueue.credits == 0
      ensures rxBuffer.maxSize == RX_BUFFER_SIZE && rxBuffer.packets == []
      ensures macAddress == Zeros(6) && currentChannel == None && sent == []
    {
      this.bus := bus;
      chipId := 0;
      powerState := Sleep;
      initialized := false;
      txQueue := new TxQueue(TXQLEN);
      rxBuffer := new RxBuffer(RX_BUFFER_SIZE);
      macAddress := Zeros(6);
      currentChannel := None;
      sent := [];
    }

    /** Issue one write and record it. */
    method Write(w: BusWrite) returns (status: Zx.Status)
      modifies this
      ensures sent == old(sent) + [w] && status == bus.writeStatus(w)
      ensures chipId == old(chipId) && powerState == old(powerState) && initialized == old(initialized)
      ensures currentChannel == old(currentChannel) && macAddress == old(macAddress)
    {
      sent := sent + [w];
      return bus.writeStatus(w);
    }

    /** `read_chip_id`: reads bytes 0 to 3, stopping at the first failing
        read, and assembles them little-endian. */
    method ReadChipId() returns (r: Outcome<u32>)
      ensures r == ChipIdOn(bus)
    {
      var bytes: seq<u8> := [];
      for i := 0 to 4
        invariant ReadBytes(bus, i) == Done(bytes)
      {
        var b := bus.readByte(i as u8);
        if b.Failed? {
          FailureSticks(bus, i + 1, 4);
          return Failed(b.status);
        }
        bytes := bytes + [b.value];
      }
      return Done(LeWord(bytes));
    }

    /** `init`. A failing chip-id read passes its status on with nothing
        changed; an unsupported chip gives NOT_SUPPORTED after the id is
        stored. Otherwise the chip is reset (write 1, then 0, to the reset
        register; a failing write passes its status on), and the firmware
        download asks the loader for the chip's image, which answers
        NOT_SUPPORTED: `init` never completes, and the driver stays
        uninitialised. */
    method Init() returns (status: Zx.Status)
      modifies this
      ensures initialized == old(initialized) && powerState == old(powerState) && currentChannel == old(currentChannel)
      ensures macAddress == old(macAddress)
      ensures ChipIdOn(bus).Done? ==> status != Zx.Ok
      ensures ChipIdOn(bus).Failed? ==>
        status == ChipIdOn(bus).status && chipId == old(chipId) && sent == old(sent) && macAddress == old(macAddress)
      ensures ChipIdOn(bus).Done? ==> chipId == ChipIdOn(bus).value
      ensures ChipIdOn(bus).Done? && !IsChipSupported(ChipIdOn(bus).value) ==>
        status == Zx.NotSupported && sent == old(sent)
      ensures ChipIdOn(bus).Done? && IsChipSupported(ChipIdOn(bus).value) ==>
        var assertReset, deassertReset := WriteByte(REG_RESET, 1), WriteByte(REG_RESET, 0);
        if bus.writeStatus(assertReset) != Zx.Ok then
          status == bus.writeStatus(assertReset) && sent == old(sent) + [assertReset]
        else if bus.writeStatus(deassertReset) != Zx.Ok then
          status == bus.writeStatus(deassertReset) && sent == old(sent) + [assertReset, deassertReset]
        else
          status == LoadFirmware(FirmwareName(chipId)).status && sent == old(sent) + [assertReset, deassertReset]
    {
      var id := ReadChipId();
      if id.Failed? {
        return id.status;
      }
      chipId := id.value;
      if !IsChipSupported(chipId) {
        return Zx.NotSupported;
      }
      status := Write(WriteByte(REG_RESET, 1));
      if status != Zx.Ok {
        return status;
      }
      status := Write(WriteByte(REG_RESET, 0));
      if status != Zx.Ok {
        return status;
      }
      var firmware := LoadFirmware(FirmwareName(chipId));
      return firmware.status;
    }

    /** `set_power_state`: BAD_STATE before initialisation. Sleep writes 1
        to the SLEEP register and Active writes 1 to WAKEUP; a failing
        write passes its status on with the state unchanged; otherwise the
        state is stored. */
    method SetPowerState(state: PowerState) returns (status: Zx.Status)
      modifies this
      ensures initialized == old(initialized) && chipId == old(chipId) && currentChannel == old(currentChannel)
      ensures macAddress == old(macAddress)
      ensures !initialized ==> status == Zx.BadState && sent == old(sent) && powerState == old(powerState)
      ensures initialized ==>
        var w := if state == Sleep then WriteByte(REG_SLEEP, 1) else WriteByte(REG_WAKEUP, 1);
        && sent == old(sent) + [w] && status == bus.writeStatus(w)
        && powerState == (if status == Zx.Ok then state else old(powerState))
    {
      if !initialized {
        return Zx.BadState;
      }
      match state {
        case Sleep =>
          status := Write(WriteByte(REG_SLEEP, 1));
        case Active =>
          status := Write(WriteByte(REG_WAKEUP, 1));
      }
      if status != Zx.Ok {
        return status;
      }
      powerState := state;
    }

    /** `transmit`. BAD_STATE before initialisation, with nothing sent. A
        sleeping chip is woken first, and a failure to wake it is passed on.
        `flow` is the outcome of the flow-control poll: its failure is passed
        on, its credits are granted to the TX queue. Then the frame of
        `data` is written at address 0 and the write's status returned. */
    method Transmit(data: seq<u8>, flow: Outcome<u8>) returns (status: Zx.Status)
      requires Valid()
      modifies this, txQueue
      ensures Valid() && txQueue.queue == old(txQueue.queue)
      ensures chipId == old(chipId) && initialized == old(initialized)
      ensures currentChannel == old(currentChannel) && macAddress == old(macAddress)
      ensures !old(initialized) ==>
        status == Zx.BadState && sent == old(sent) && txQueue.credits == old(txQueue.credits)
        && powerState == old(powerState)
      ensures old(initialized) ==>
        var wake := if old(powerState) == Active then [] else [WriteByte(REG_WAKEUP, 1)];
        var woken := old(powerState) == Active || bus.writeStatus(WriteByte(REG_WAKEUP, 1)) == Zx.Ok;
        if !woken then
          && status == bus.writeStatus(WriteByte(REG_WAKEUP, 1)) && sent == old(sent) + wake
          && powerState == old(powerState) && txQueue.credits == old(txQueue.credits)
        else if flow.Failed? then
          && status == flow.status && sent == old(sent) + wake
          && powerState == Active && txQueue.credits == old(txQueue.credits)
        else
          && txQueue.credits == flow.value && powerState == Active
          && sent == old(sent) + wake + [WriteMulti(0, Frame(data))]
          && status == bus.writeStatus(WriteMulti(0, Frame(data)))
    {
      if !initialized {
        return Zx.BadState;
      }
      if powerState != Active {
        status := SetPowerState(Active);
        if status != Zx.Ok {
          return status;
        }
      }
      if flow.Failed? {
        return flow.status;
      }
      txQueue.SetCredits(flow.value);
      status := Write(WriteMulti(0, Frame(data)));
    }

    /** `receive`: the oldest buffered packet. */
    method Receive() returns (packet: Option<RxPacket>)
      requires Valid()
      modifies rxBuffer
      ensures Valid()
      ensures old(rxBuffer.packets) == [] ==> packet == None && rxBuffer.packets == []
      ensures old(rxBuffer.packets) != [] ==>
        packet == Some(old(rxBuffer.packets[0])) && rxBuffer.packets == old(rxBuffer.packets[1..])
    {
      packet := rxBuffer.Pop();
    }

    /** `set_channel`: BAD_STATE before initialisation with the channel
        unchanged; otherwise the channel is stored. */
    method SetChannel(channel: Channel) returns (status: Zx.Status)
      modifies this
      ensures sent == old(sent) && initialized == old(initialized)
      ensures chipId == old(chipId) && powerState == old(powerState) && macAddress == old(macAddress)
      ensures !initialized ==> status == Zx.BadState && currentChannel == old(currentChannel)
      ensures initialized ==> status == Zx.Ok && currentChannel == Some(channel)
    {
      if !initialized {
        return Zx.BadState;
      }
      currentChannel := Some(channel);
      return Zx.Ok;
    }

    /** `start_scan`: BAD_STATE before initialisation, OK after. */
    function StartScan(): (status: Zx.Status)
      reads this
      ensures status == Zx.Ok <==> initialized
      ensures status != Zx.Ok ==> status == Zx.BadState
    {
      if !initialized then Zx.BadState else Zx.Ok
    }
  }

  /** The chip-id registers of the driver's test bus, `80 00 00 88`, read
      as AIC8800D80. */
  lemma TestBusIsD80(bus: Bus)
    requires bus.readByte(0) == Done(0x80) && bus.readByte(1) == Done(0)
    requires bus.readByte(2) == Done(0) && bus.readByte(3) == Done(0x88)
    ensures ChipIdOn(bus) == Done(CHIP_ID_AIC8800D80) && IsChipSupported(CHIP_ID_AIC8800D80)
  {
    var bytes := [0x80, 0, 0, 0x88];
    assert ReadBytes(bus, 0) == Done(bytes[..0]);
    assert ReadBytes(bus, 1) == Done(bytes[..0] + [bytes[0]]);
    assert bytes[..0] + [bytes[0]] == bytes[..1];
    assert ReadBytes(bus, 2) == Done(bytes[..1] + [bytes[1]]);
    assert bytes[..1] + [bytes[1]] == bytes[..2];
    assert ReadBytes(bus, 3) == Done(bytes[..2] + [bytes[2]]);
    assert bytes[..2] + [bytes[2]] == bytes[..3];
    assert ReadBytes(bus, 4) == Done(bytes[..3] + [bytes[3]]);
    assert bytes[..3] + [bytes[3]] == bytes;
    assert Pad([0x80, 0, 0, 0x88]) == [0x80, 0, 0, 0x88];
  }
}
