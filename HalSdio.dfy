/** `soliloquy_hal::SdioHelper`: byte access and multi-block transfers over
    an SDIO function. The SDIO protocol client is a scripted device: call
    number `k` on it (counting from the first call ever made) answers
    `answer(k)`, and a byte read returns `readByte(k)`. The helper keeps the
    full history of calls it made, in order. Buffer contents are not
    modelled: a transaction records the buffer offset it covers. */
module HalSdio {
  import opened Common
  import Zx

  /** `kBlockSize`. */
  const BLOCK_SIZE: nat := 512

  /** A call on the SDIO protocol client. `RwTxn`'s `offset` is the distance
      of the transferred chunk from the start of the caller's buffer; the
      FIFO flag the helper passes is always false. */
  datatype SdioCall =
    | RwByte(write: bool, addr: u32, value: u8)
    | RwTxn(addr: u32, offset: nat, size: nat, write: bool)

  /** The calls made and the status returned. */
  datatype Outcome = Outcome(calls: seq<SdioCall>, status: Zx.Status)

  // ------------------------------------------------------------ the chunk plan

  /** `blocks = (len + kBlockSize - 1) / kBlockSize`, with the `size_t`
      addition wrapping as it does in C. */
  function BlockCount(len: u64): nat
  {
    ((len + BLOCK_SIZE - 1) % U64_MOD) / BLOCK_SIZE
  }

  /** The size of chunk `i` of `blocks`: a whole block, except that the last
      one carries the remainder `len % kBlockSize` when that is not zero. */
  function ChunkSize(len: u64, blocks: nat, i: nat): nat
  {
    var c := if i == blocks - 1 then len % BLOCK_SIZE else BLOCK_SIZE;
    if c == 0 then BLOCK_SIZE else c
  }

  /** Chunk `i`: the device address `addr + i * kBlockSize`, truncated to the
      32-bit address the protocol takes, and buffer offset `i * kBlockSize`. */
  function Chunk(addr: u32, len: u64, write: bool, blocks: nat, i: nat): SdioCall
  {
    RwTxn((addr + i * BLOCK_SIZE) % U32_MOD, i * BLOCK_SIZE, ChunkSize(len, blocks, i), write)
  }

  /** The transactions a multi-block transfer of `len` bytes at `addr` issues
      when every one of them succeeds. */
  function Plan(addr: u32, len: u64, write: bool): (p: seq<SdioCall>)
    ensures |p| == BlockCount(len)
    ensures forall i :: 0 <= i < |p| ==> p[i] == Chunk(addr, len, write, |p|, i)
  {
    var blocks := BlockCount(len);
    seq(blocks, i requires 0 <= i < blocks => Chunk(addr, len, write, blocks, i))
  }

  /** The bytes the transactions of `plan` cover. */
  function Covered(plan: seq<SdioCall>): nat
  {
    if plan == [] then 0
    else (if plan[0].RwTxn? then plan[0].size else 0) + Covered(plan[1..])
  }

  // ------------------------------------------------------------ issuing a plan

  /** Issue the calls of `plan` one after another on a device that has
      already seen the calls `t`, stopping at the first that does not answer
      OK and returning its status. The result is exactly a prefix of the plan:
      every issued call but the last succeeded, the status is OK exactly when
      the whole plan was issued and the last call (if any) succeeded, and a
      failure returns the status of the last call issued. */
  function Issue(answer: nat -> Zx.Status, t: seq<SdioCall>, plan: seq<SdioCall>): (r: Outcome)
    ensures |t| <= |r.calls| <= |t| + |plan|
    ensures r.calls == t + plan[..|r.calls| - |t|]
    ensures forall k :: |t| <= k < |r.calls| - 1 ==> answer(k) == Zx.Ok
    ensures r.status == Zx.Ok ==> |r.calls| == |t| + |plan|
    ensures r.status == Zx.Ok ==> forall k :: |t| <= k < |r.calls| ==> answer(k) == Zx.Ok
    ensures r.status != Zx.Ok ==> |r.calls| > |t| && r.status == answer(|r.calls| - 1)
    ensures (|r.calls| == |t| + |plan| && forall k :: |t| <= k < |r.calls| ==> answer(k) == Zx.Ok)
              ==> r.status == Zx.Ok
    decreases |plan|
  {
    if plan == [] then Outcome(t, Zx.Ok)
    else if answer(|t|) != Zx.Ok then Outcome(t + [plan[0]], answer(|t|))
    else
      var r := Issue(answer, t + [plan[0]], plan[1..]);
      assert plan[..1] + plan[1..][..|r.calls| - |t| - 1] == plan[..|r.calls| - |t|];
      r
  }

  /** The transaction the loop body builds for chunk `i` is `Chunk(.., i)`. */
  lemma ChunkMatches(addr: u32, len: u64, write: bool, blocks: nat, i: nat, size: nat, offset: nat)
    requires offset == i * BLOCK_SIZE
    requires size == (var c := if i == blocks - 1 then len % BLOCK_SIZE else BLOCK_SIZE; if c == 0 then BLOCK_SIZE else c)
    ensures RwTxn((addr + offset) % U32_MOD, offset, size, write) == Chunk(addr, len, write, blocks, i)
  {
  }

  /** Issuing the plan from call `i` on: call `i` alone when it fails,
      otherwise call `i` followed by the rest of the plan. */
  lemma IssueStep(answer: nat -> Zx.Status, t: seq<SdioCall>, plan: seq<SdioCall>, i: nat)
    requires i < |plan|
    ensures Issue(answer, t, plan[i..]) ==
      if answer(|t|) != Zx.Ok then Outcome(t + [plan[i]], answer(|t|))
      else Issue(answer, t + [plan[i]], plan[i + 1..])
  {
    assert plan[i..][0] == plan[i];
    assert plan[i..][1..] == plan[i + 1..];
  }

  // ------------------------------------------------------------ the helper

  class SdioHelper {
    /** What the device answers to its `k`-th call. */
    const answer: nat -> Zx.Status
    /** The byte a read that is the device's `k`-th call returns. */
    const readByte: nat -> u8
    /** Every call made on the device so far. */
    var calls: seq<SdioCall>

    constructor(answer: nat -> Zx.Status, readByte: nat -> u8)
      ensures this.answer == answer && this.readByte == readByte && calls == []
    {
      this.answer := answer;
      this.readByte := readByte;
      calls := [];
    }

    /** `SdioHelper::ReadByte`. `outPresent` is false for a null output
        pointer; `out` is what the output pointer then holds. */
    method ReadByte(addr: u32, outPresent: bool) returns (status: Zx.Status, out: Option<u8>)
      modifies this
      ensures !outPresent ==> status == Zx.InvalidArgs && out == None && calls == old(calls)
      ensures outPresent ==> calls == old(calls) + [RwByte(false, addr, 0)]
      ensures outPresent ==> status == answer(|old(calls)|) && out == Some(readByte(|old(calls)|))
    {
      if !outPresent {
        return Zx.InvalidArgs, None;
      }
      status, out := answer(|calls|), Some(readByte(|calls|));
      calls := calls + [RwByte(false, addr, 0)];
    }

    /** `SdioHelper::WriteByte`. */
    method WriteByte(addr: u32, value: u8) returns (status: Zx.Status)
      modifies this
      ensures calls == old(calls) + [RwByte(true, addr, value)]
      ensures status == answer(|old(calls)|)
    {
      status := answer(|calls|);
      calls := calls + [RwByte(true, addr, value)];
    }

    /** The chunk loop shared by `ReadMultiBlock` and `WriteMultiBlock`. */
    method Transfer(addr: u32, len: u64, write: bool) returns (status: Zx.Status)
      modifies this
      ensures Outcome(calls, status) == Issue(answer, old(calls), Plan(addr, len, write))
    {
      ghost var plan := Plan(addr, len, write);
      var blocks := (len + BLOCK_SIZE - 1) % U64_MOD / BLOCK_SIZE;
      var i := 0;
      while i < blocks
        invariant 0 <= i <= blocks == |plan|
        invariant Issue(answer, calls, plan[i..]) == Issue(answer, old(calls), plan)
        decreases blocks - i
      {
        var chunkSize := if i == blocks - 1 then len % BLOCK_SIZE else BLOCK_SIZE;
        if chunkSize == 0 {
          chunkSize := BLOCK_SIZE;
        }
        var offset := i * BLOCK_SIZE;
        var txn := RwTxn((addr + offset) % U32_MOD, offset, chunkSize, write);
        ChunkMatches(addr, len, write, blocks, i, chunkSize, offset);
        IssueStep(answer, calls, plan, i);
        status := answer(|calls|);
        calls := calls + [txn];
        if status != Zx.Ok {
          return;
        }
        i := i + 1;
      }
      return Zx.Ok;
    }

    /** `SdioHelper::ReadMultiBlock`. `bufPresent` is false for a null
        buffer. */
    method ReadMultiBlock(addr: u32, bufPresent: bool, len: u64) returns (status: Zx.Status)
      modifies this
      ensures !bufPresent || len == 0 ==> status == Zx.InvalidArgs && calls == old(calls)
      ensures bufPresent && len != 0 ==>
                Outcome(calls, status) == Issue(answer, old(calls), Plan(addr, len, false))
    {
      if !bufPresent || len == 0 {
        return Zx.InvalidArgs;
      }
      status := Transfer(addr, len, false);
    }

    /** `SdioHelper::WriteMultiBlock`. */
    method WriteMultiBlock(addr: u32, bufPresent: bool, len: u64) returns (status: Zx.Status)
      modifies this
      ensures !bufPresent || len == 0 ==> status == Zx.InvalidArgs && calls == old(calls)
      ensures bufPresent && len != 0 ==>
                Outcome(calls, status) == Issue(answer, old(calls), Plan(addr, len, true))
    {
      if !bufPresent || len == 0 {
        return Zx.InvalidArgs;
      }
      status := Transfer(addr, len, true);
    }

    /** `SdioHelper::DownloadFirmware`. Mapping the firmware VMO is a kernel
        call: `mapStatus` is what it returns. A mapped image is written with
        `WriteMultiBlock` at `baseAddr`. */
    method DownloadFirmware(size: u64, baseAddr: u32, mapStatus: Zx.Status) returns (status: Zx.Status)
      modifies this
      ensures size == 0 ==> status == Zx.InvalidArgs && calls == old(calls)
      ensures size != 0 && mapStatus != Zx.Ok ==> status == mapStatus && calls == old(calls)
      ensures size != 0 && mapStatus == Zx.Ok ==>
                Outcome(calls, status) == Issue(answer, old(calls), Plan(baseAddr, size, true))
    {
      if size == 0 {
        return Zx.InvalidArgs;
      }
      if mapStatus != Zx.Ok {
        return mapStatus;
      }
      status := WriteMultiBlock(baseAddr, true, size);
    }
  }

  // ------------------------------------------------------------ properties

  /** Whenever `len + kBlockSize - 1` does not wrap, the chunk count is the
      ceiling of `len / kBlockSize`. */
  lemma BlockCountIsCeiling(len: u64)
    requires 0 < len && len + BLOCK_SIZE - 1 < U64_MOD
    ensures (BlockCount(len) - 1) * BLOCK_SIZE < len <= BlockCount(len) * BLOCK_SIZE
  {
  }

  /** Every chunk but the last is a whole block; the last one holds what is
      left, between 1 and `kBlockSize` bytes. */
  lemma ChunkSizes(addr: u32, len: u64, write: bool)
    requires 0 < len && len + BLOCK_SIZE - 1 < U64_MOD
    ensures var p := Plan(addr, len, write);
      |p| > 0 &&
      (forall i :: 0 <= i < |p| - 1 ==> p[i].size == BLOCK_SIZE) &&
      0 < p[|p| - 1].size <= BLOCK_SIZE &&
      p[|p| - 1].size == len - (|p| - 1) * BLOCK_SIZE
  {
    BlockCountIsCeiling(len);
  }

  /** The bytes covered by the first `n` chunks: `n` whole blocks. */
  lemma {:induction false} CoveredWholeBlocks(p: seq<SdioCall>, n: nat)
    requires n <= |p|
    requires forall i :: 0 <= i < n ==> p[i].RwTxn? && p[i].size == BLOCK_SIZE
    ensures Covered(p[..n]) == n * BLOCK_SIZE
  {
    if n > 0 {
      assert p[..n][1..] == p[1..][..n - 1];
      CoveredWholeBlocks(p[1..], n - 1);
    }
  }

  /** `Covered` distributes over concatenation. */
  lemma {:induction false} CoveredAppend(a: seq<SdioCall>, b: seq<SdioCall>)
    ensures Covered(a + b) == Covered(a) + Covered(b)
  {
    if a == [] {
      assert a + b == b;
    } else {
      assert (a + b)[0] == a[0] && (a + b)[1..] == a[1..] + b;
      CoveredAppend(a[1..], b);
    }
  }

  /** A successful transfer moves exactly `len` bytes: the chunk sizes add up
      to the requested length. */
  lemma ChunksCoverLength(addr: u32, len: u64, write: bool)
    requires 0 < len && len + BLOCK_SIZE - 1 < U64_MOD
    ensures Covered(Plan(addr, len, write)) == len
  {
    var p := Plan(addr, len, write);
    ChunkSizes(addr, len, write);
    var n := |p| - 1;
    CoveredWholeBlocks(p, n);
    assert p == p[..n] + [p[n]];
    CoveredAppend(p[..n], [p[n]]);
  }

  /** The chunks tile the buffer in order: the first starts at offset 0, each
      next one starts where the previous ended, and the device address moves
      with the buffer offset. */
  lemma ChunksAreContiguous(addr: u32, len: u64, write: bool)
    requires 0 < len && len + BLOCK_SIZE - 1 < U64_MOD
    ensures var p := Plan(addr, len, write);
      p[0].offset == 0 && p[0].addr == addr &&
      (forall i :: 0 <= i < |p| ==> p[i].addr == (addr + p[i].offset) % U32_MOD) &&
      (forall i :: 0 < i < |p| ==> p[i].offset == p[i - 1].offset + p[i - 1].size)
  {
  }

  /** For a length within one block of the top of `size_t`, the rounding-up
      addition wraps: no chunk is planned and the transfer reports success
      without touching the device. */
  lemma NearMaxLengthIssuesNothing(answer: nat -> Zx.Status, t: seq<SdioCall>, addr: u32)
    ensures Plan(addr, U64_MOD - 1, false) == []
    ensures Issue(answer, t, Plan(addr, U64_MOD - 1, false)) == Outcome(t, Zx.Ok)
  {
  }

  /** A transfer of 256 bytes is a single transaction of 256 bytes; one of
      1024 bytes is two whole blocks, the second 512 bytes further on; and a
      failure of the second block returns its status after both calls. */
  lemma TransferExamples(answer: nat -> Zx.Status)
    requires answer(0) == Zx.Ok && answer(1) == Zx.IoError
    ensures Plan(0x8000, 256, false) == [RwTxn(0x8000, 0, 256, false)]
    ensures Plan(0x7000, 1024, false) == [RwTxn(0x7000, 0, 512, false), RwTxn(0x7200, 512, 512, false)]
    ensures Issue(answer, [], Plan(0x7000, 1024, false)) ==
              Outcome(Plan(0x7000, 1024, false), Zx.IoError)
  {
    var p := Plan(0x7000, 1024, false);
    assert p[0] == RwTxn(0x7000, 0, 512, false);
    assert p[1] == RwTxn(0x7200, 512, 512, false);
    assert p[1..][1..] == [];
  }
}
