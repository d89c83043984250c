/** The AIC8800 test double for the SDIO bus: a sparse byte memory, a
    one-shot failure flag, a log of every transfer with a running
    timestamp, and a firmware download that writes the image block by
    block. The mutex-guarded shared fields of the source are the fields of
    one object, so clones sharing them are aliases of that object. */
module MockSdio {
  import opened Common

  datatype SdioError = InvalidAddress | InvalidLength | NotInitialized | TransferError | Timeout

  /** `SdioResult<T>`. */
  datatype SdioResult<T> = Ok(value: T) | Err(error: SdioError)

  /** `SdioTransaction`: one recorded transfer. */
  datatype Transaction = Transaction(address: u32, data: seq<u8>, isWrite: bool, timestamp: nat)

  /** The device memory, address to byte. */
  type Memory = map<u32, u8>

  /** A byte of memory; an address never written reads 0. */
  function Get(mem: Memory, a: u32): u8
  {
    if a in mem then mem[a] else 0
  }

  /** `address.wrapping_add(i as u32)`: the address `i` bytes on, modulo
      2^32. */
  function Addr(a: u32, i: nat): u32
  {
    (a + i) % U32_MOD
  }

  /** The `n` bytes from `a` on, as a multi-block read returns them. */
  function Peek(mem: Memory, a: u32, n: nat): (r: seq<u8>)
    ensures |r| == n
  {
    seq(n, i requires 0 <= i < n => Get(mem, Addr(a, i)))
  }

  /** Memory after storing `d` byte by byte from `a` on, in order, so that
      a later byte that wraps onto an earlier address wins. */
  function Poke(mem: Memory, a: u32, d: seq<u8>): Memory
    decreases |d|
  {
    if d == [] then mem else Poke(mem, a, d[..|d| - 1])[Addr(a, |d| - 1) := d[|d| - 1]]
  }

  /** Fewer than 2^32 steps apart never land on the same address. */
  lemma AddrDistinct(a: u32, i: nat, j: nat)
    requires i < j < i + U32_MOD
    ensures Addr(a, i) != Addr(a, j)
  {
    var qi, qj := (a + i) / U32_MOD, (a + j) / U32_MOD;
    assert a + i == qi * U32_MOD + Addr(a, i);
    assert a + j == qj * U32_MOD + Addr(a, j);
  }

  /** Stepping `i` then `j` bytes is stepping `i + j`. */
  lemma AddrShift(a: u32, i: nat, j: nat)
    ensures Addr(Addr(a, i), j) == Addr(a, i + j)
  {
  }

  /** After a store of at most 2^32 bytes, the `k`-th address holds the
      `k`-th byte. */
  lemma {:induction false} PokeAt(mem: Memory, a: u32, d: seq<u8>, k: nat)
    requires |d| <= U32_MOD && k < |d|
    ensures Get(Poke(mem, a, d), Addr(a, k)) == d[k]
    decreases |d|
  {
    var n := |d| - 1;
    if k < n {
      AddrDistinct(a, k, n);
      PokeAt(mem, a, d[..n], k);
    }
  }

  /** A store leaves every address it does not reach as it was. */
  lemma {:induction false} PokeOutside(mem: Memory, a: u32, d: seq<u8>, x: u32)
    requires forall k :: 0 <= k < |d| ==> Addr(a, k) != x
    ensures Get(Poke(mem, a, d), x) == Get(mem, x)
    decreases |d|
  {
    if d != [] {
      PokeOutside(mem, a, d[..|d| - 1], x);
    }
  }

  /** Storing `d1` and then `d2` right after it is storing `d1 + d2`. */
  lemma {:induction false} PokeConcat(mem: Memory, a: u32, d1: seq<u8>, d2: seq<u8>)
    ensures Poke(Poke(mem, a, d1), Addr(a, |d1|), d2) == Poke(mem, a, d1 + d2)
    decreases |d2|
  {
    if d2 == [] {
      assert d1 + d2 == d1;
    } else {
      var n := |d2| - 1;
      PokeConcat(mem, a, d1, d2[..n]);
      assert (d1 + d2)[..|d1 + d2| - 1] == d1 + d2[..n];
      AddrShift(a, |d1|, n);
    }
  }

  /** Reading back what was just stored, over the same length, gives it
      back, as long as the store did not wrap onto itself. */
  lemma ReadAfterWrite(mem: Memory, a: u32, d: seq<u8>)
    requires |d| <= U32_MOD
    ensures Peek(Poke(mem, a, d), a, |d|) == d
  {
    forall k | 0 <= k < |d|
      ensures Peek(Poke(mem, a, d), a, |d|)[k] == d[k]
    {
      PokeAt(mem, a, d, k);
    }
  }

  /** `(len + block_size - 1) / block_size` in `usize` arithmetic: the
      number of blocks of a firmware image of `n` bytes. The sum wraps
      modulo 2^64 before the division. */
  function Blocks(n: nat, blockSize: u64): nat
    requires blockSize > 0
  {
    ((n + blockSize - 1) % U64_MOD) / blockSize
  }

  /** A number below the divisor has quotient zero. */
  lemma DivSmall(w: nat, d: nat)
    requires w < d
    ensures w / d == 0
  {
  }

  /** Multiplying by the same non-negative factor keeps the order. */
  lemma MulMono(a: int, b: int, c: int)
    requires a <= b && c >= 0
    ensures a * c <= b * c
  {
  }

  /** When the sum does not wrap, the count is the rounded-up quotient;
      when it wraps, which takes a non-empty image and a block size near
      2^64, the count is zero. */
  lemma BlocksWrap(n: nat, blockSize: u64)
    requires blockSize > 0 && n < U64_MOD
    ensures n + blockSize - 1 < U64_MOD ==> Blocks(n, blockSize) == (n + blockSize - 1) / blockSize
    ensures n + blockSize - 1 >= U64_MOD ==> n > 0 && Blocks(n, blockSize) == 0
  {
    var x := n + blockSize - 1;
    if x >= U64_MOD {
      assert x % U64_MOD == x - U64_MOD;
      DivSmall(x - U64_MOD, blockSize);
    } else {
      assert x % U64_MOD == x;
    }
  }

  /** Every block index below `Blocks` starts inside the image, and, when
      the count does not wrap, the blocks together cover it. */
  lemma BlocksCover(n: nat, blockSize: u64, b: nat)
    requires blockSize > 0 && n < U64_MOD
    ensures b < Blocks(n, blockSize) ==> b * blockSize < n
    ensures n + blockSize - 1 < U64_MOD ==> Blocks(n, blockSize) * blockSize >= n
  {
    BlocksWrap(n, blockSize);
    var x := n + blockSize - 1;
    if x < U64_MOD {
      var q, r := x / blockSize, x % blockSize;
      assert q * blockSize + r == x;
      if b < q {
        MulMono(b + 1, q, blockSize);
        assert (b + 1) * blockSize == b * blockSize + blockSize;
      }
    }
  }

  /** The bytes of block `k`: from `k * block_size` up to the next block or
      the end of the image. */
  function Chunk(firmware: seq<u8>, k: nat, blockSize: nat): seq<u8>
  {
    var start := if k * blockSize <= |firmware| then k * blockSize else |firmware|;
    var end := if start + blockSize <= |firmware| then start + blockSize else |firmware|;
    firmware[start..end]
  }

  /** `base_address + (block_idx * block_size) as u32`: the offset is
      truncated to 32 bits and the sum wraps. */
  function BlockAddr(base: u32, k: nat, blockSize: nat): u32
  {
    (base + (k * blockSize) % U32_MOD) % U32_MOD
  }

  /** The block address is the address `k * block_size` bytes on. */
  lemma BlockAddrIsAddr(base: u32, k: nat, blockSize: nat)
    ensures BlockAddr(base, k, blockSize) == Addr(base, k * blockSize)
  {
    ModOfSum(base, k * blockSize);
  }

  /** Reducing the second summand first does not change the sum's residue. */
  lemma ModOfSum(a: nat, off: nat)
    ensures (a + off % U32_MOD) % U32_MOD == (a + off) % U32_MOD
  {
    var q := off / U32_MOD;
    assert a + off == (a + off % U32_MOD) + q * U32_MOD;
    ModPlusMultiple(a + off % U32_MOD, q);
  }

  /** Adding a multiple of 2^32 does not change the residue. */
  lemma {:induction false} ModPlusMultiple(x: nat, q: nat)
    ensures (x + q * U32_MOD) % U32_MOD == x % U32_MOD
  {
    if q > 0 {
      ModPlusMultiple(x, q - 1);
      assert x + q * U32_MOD == (x + (q - 1) * U32_MOD) + U32_MOD;
    }
  }

  /** When the count does not wrap, an image has no blocks exactly when it
      is empty; no blocks cover nothing and all of them cover the whole
      image. */
  lemma BlocksFacts(n: nat, blockSize: u64)
    requires blockSize > 0 && n < U64_MOD
    ensures Covered(n, 0, blockSize) == 0
    ensures n + blockSize - 1 < U64_MOD ==> (Blocks(n, blockSize) == 0 <==> n == 0)
    ensures n + blockSize - 1 < U64_MOD ==> Covered(n, Blocks(n, blockSize), blockSize) == n
  {
    BlocksCover(n, blockSize, 0);
    if n == 0 {
      assert (blockSize - 1) % U64_MOD == blockSize - 1;
      assert (blockSize - 1) / blockSize == 0;
    }
  }

  /** When the block count does not wrap, all the blocks together store
      the whole image. */
  lemma WholeImageWhenNoWrap(mem: Memory, base: u32, firmware: seq<u8>, blockSize: u64)
    requires blockSize > 0 && |firmware| + blockSize - 1 < U64_MOD
    ensures Poke(mem, base, firmware[..Covered(|firmware|, Blocks(|firmware|, blockSize), blockSize)])
            == Poke(mem, base, firmware)
  {
    BlocksFacts(|firmware|, blockSize);
    assert firmware[..|firmware|] == firmware;
  }

  /** When the block count wraps, there are no blocks: the download stores
      nothing and logs nothing. */
  lemma NothingWhenWrap(mem: Memory, base: u32, firmware: seq<u8>, blockSize: u64, c0: nat)
    requires blockSize > 0 && |firmware| < U64_MOD && |firmware| + blockSize - 1 >= U64_MOD
    ensures Blocks(|firmware|, blockSize) == 0
    ensures Poke(mem, base, firmware[..Covered(|firmware|, Blocks(|firmware|, blockSize), blockSize)]) == mem
    ensures DownloadLog(base, firmware, blockSize, c0, Blocks(|firmware|, blockSize)) == []
  {
    BlocksWrap(|firmware|, blockSize);
    assert firmware[..0] == [];
  }

  /** The log entries of the first `b` block writes of a download that
      starts with the counter at `c0`: one write per block, at the block's
      address, holding the block, stamped with successive counts. */
  function DownloadLog(base: u32, firmware: seq<u8>, blockSize: nat, c0: nat, b: nat): seq<Transaction>
  {
    if b == 0 then []
    else DownloadLog(base, firmware, blockSize, c0, b - 1)
         + [Transaction(BlockAddr(base, b - 1, blockSize), Chunk(firmware, b - 1, blockSize), true, c0 + b)]
  }

  /** The `k`-th entry of a download's log is the write of block `k`,
      stamped `c0 + k + 1`. */
  lemma {:induction false} DownloadLogAt(base: u32, firmware: seq<u8>, blockSize: nat, c0: nat, b: nat)
    ensures |DownloadLog(base, firmware, blockSize, c0, b)| == b
    ensures forall k :: 0 <= k < b ==>
      DownloadLog(base, firmware, blockSize, c0, b)[k]
      == Transaction(BlockAddr(base, k, blockSize), Chunk(firmware, k, blockSize), true, c0 + k + 1)
  {
    if b > 0 {
      DownloadLogAt(base, firmware, blockSize, c0, b - 1);
    }
  }

  /** How much of an `n`-byte image the first `b` blocks cover. */
  function Covered(n: nat, b: nat, blockSize: nat): nat
  {
    if b * blockSize <= n then b * blockSize else n
  }

  /** Writing block `b` after the blocks before it stores the image up to
      the end of block `b`. */
  lemma DownloadStep(mem: Memory, base: u32, firmware: seq<u8>, b: nat, blockSize: u64)
    requires blockSize > 0 && |firmware| < U64_MOD && b < Blocks(|firmware|, blockSize)
    ensures Poke(Poke(mem, base, firmware[..Covered(|firmware|, b, blockSize)]), BlockAddr(base, b, blockSize),
                 Chunk(firmware, b, blockSize))
            == Poke(mem, base, firmware[..Covered(|firmware|, b + 1, blockSize)])
  {
    BlocksCover(|firmware|, blockSize, b);
    var start := b * blockSize;
    var end := if start + blockSize <= |firmware| then start + blockSize else |firmware|;
    assert (b + 1) * blockSize == start + blockSize;
    BlockAddrIsAddr(base, b, blockSize);
    PokeConcat(mem, base, firmware[..start], firmware[start..end]);
    assert firmware[..start] + firmware[start..end] == firmware[..end];
    assert Covered(|firmware|, b, blockSize) == start && Covered(|firmware|, b + 1, blockSize) == end;
  }

  /** Each block but the last is a full block, and the last holds the rest. */
  lemma ChunkLength(firmware: seq<u8>, k: nat, blockSize: u64)
    requires blockSize > 0 && |firmware| < U64_MOD && k < Blocks(|firmware|, blockSize)
    ensures k + 1 < Blocks(|firmware|, blockSize) ==> |Chunk(firmware, k, blockSize)| == blockSize
    ensures k + 1 == Blocks(|firmware|, blockSize) ==>
      |Chunk(firmware, k, blockSize)| == |firmware| - k * blockSize
  {
    BlocksWrap(|firmware|, blockSize);
    BlocksCover(|firmware|, blockSize, k);
    BlocksCover(|firmware|, blockSize, k + 1);
    assert (k + 1) * blockSize == k * blockSize + blockSize;
  }

  class Device {
    var memory: Memory
    var transactions: seq<Transaction>
    var blockSize: u64
    var initialized: bool
    var failNext: bool
    /** `transaction_counter`. */
    var counter: nat

    /** The log's timestamps strictly increase and none is ahead of the
        counter. */
    ghost predicate Valid()
      reads this
    {
      && (forall i, j :: 0 <= i < j < |transactions| ==> transactions[i].timestamp < transactions[j].timestamp)
      && (forall i :: 0 <= i < |transactions| ==> transactions[i].timestamp <= counter)
    }

    /** `MockSdioDevice::new`: empty memory and log, block size 512, not
        initialized, no failure armed. */
    constructor ()
      ensures Valid()
      ensures memory == map[] && transactions == [] && blockSize == 512
      ensures !initialized && !failNext && counter == 0
    {
      memory := map[];
      transactions := [];
      blockSize := 512;
      initialized := false;
      failNext := false;
      counter := 0;
    }

    /** `initialize`: always succeeds. */
    method Initialize() returns (r: SdioResult<()>)
      requires Valid()
      modifies this`initialized
      ensures Valid() && initialized && r == Ok(())
    {
      initialized := true;
      r := Ok(());
    }

    /** `set_block_size`: NotInitialized before `initialize`; any size,
        zero included, is accepted. */
    method SetBlockSize(size: u64) returns (r: SdioResult<()>)
      requires Valid()
      modifies this`blockSize
      ensures Valid()
      ensures !initialized ==> r == Err(NotInitialized) && blockSize == old(blockSize)
      ensures initialized ==> r == Ok(()) && blockSize == size
    {
      if !initialized {
        return Err(NotInitialized);
      }
      blockSize := size;
      r := Ok(());
    }

    /** `get_block_size`: the size last set, 512 until then. */
    function GetBlockSize(): (r: u64)
      reads this
      ensures r == blockSize
    {
      blockSize
    }

    /** `record_transaction`: the counter goes up by one and the transfer is
        logged with the new count as its timestamp. */
    method Record(address: u32, data: seq<u8>, isWrite: bool)
      requires Valid()
      modifies this`transactions, this`counter
      ensures Valid()
      ensures counter == old(counter) + 1
      ensures transactions == old(transactions) + [Transaction(address, data, isWrite, counter)]
    {
      counter := counter + 1;
      transactions := transactions + [Transaction(address, data, isWrite, counter)];
    }

    /** `read_byte`: NotInitialized before `initialize`; TransferError,
        disarming the flag, if a failure is armed; otherwise the byte at
        the address (0 if never written), logged as a one-byte read. */
    method ReadByte(address: u32) returns (r: SdioResult<u8>)
      requires Valid()
      modifies this
      ensures Valid()
      ensures !old(initialized) ==> r == Err(NotInitialized) && unchanged(this)
      ensures old(initialized) && old(failNext) ==>
        r == Err(TransferError) && !failNext && unchanged(this`transactions, this`counter)
      ensures old(initialized) && !old(failNext) ==>
        && r == Ok(Get(memory, address)) && !failNext
        && counter == old(counter) + 1
        && transactions == old(transactions) + [Transaction(address, [r.value], false, counter)]
      ensures memory == old(memory) && initialized == old(initialized) && blockSize == old(blockSize)
    {
      if !initialized {
        return Err(NotInitialized);
      }
      if failNext {
        failNext := false;
        return Err(TransferError);
      }
      var value := Get(memory, address);
      Record(address, [value], false);
      r := Ok(value);
    }

    /** `write_byte`: the same gates as `read_byte`; otherwise stores the
        byte and logs a one-byte write. */
    method WriteByte(address: u32, value: u8) returns (r: SdioResult<()>)
      requires Valid()
      modifies this
      ensures Valid()
      ensures !old(initialized) ==> r == Err(NotInitialized) && unchanged(this)
      ensures old(initialized) && old(failNext) ==>
        r == Err(TransferError) && !failNext && unchanged(this`memory, this`transactions, this`counter)
      ensures old(initialized) && !old(failNext) ==>
        && r == Ok(()) && !failNext
        && memory == old(memory)[address := value]
        && counter == old(counter) + 1
        && transactions == old(transactions) + [Transaction(address, [value], true, counter)]
      ensures initialized == old(initialized) && blockSize == old(blockSize)
    {
      if !initialized {
        return Err(NotInitialized);
      }
      if failNext {
        failNext := false;
        return Err(TransferError);
      }
      memory := memory[address := value];
      Record(address, [value], true);
      r := Ok(());
    }

    /** `read_multi_block`: the same gates; otherwise the `length` bytes
        from `address` on, wrapping at 2^32, logged as one read. */
    method ReadMultiBlock(address: u32, length: nat) returns (r: SdioResult<seq<u8>>)
      requires Valid()
      modifies this
      ensures Valid()
      ensures !old(initialized) ==> r == Err(NotInitialized) && unchanged(this)
      ensures old(initialized) && old(failNext) ==>
        r == Err(TransferError) && !failNext && unchanged(this`transactions, this`counter)
      ensures old(initialized) && !old(failNext) ==>
        && r == Ok(Peek(memory, address, length)) && !failNext
        && counter == old(counter) + 1
        && transactions == old(transactions) + [Transaction(address, r.value, false, counter)]
      ensures memory == old(memory) && initialized == old(initialized) && blockSize == old(blockSize)
    {
      if !initialized {
        return Err(NotInitialized);
      }
      if failNext {
        failNext := false;
        return Err(TransferError);
      }
      var data: seq<u8> := [];
      for i := 0 to length
        invariant data == Peek(memory, address, i)
      {
        data := data + [Get(memory, Addr(address, i))];
      }
      Record(address, data, false);
      r := Ok(data);
    }

    /** `write_multi_block`: the same gates; otherwise stores the bytes in
        order from `address` on, wrapping at 2^32, and logs one write. */
    method WriteMultiBlock(address: u32, data: seq<u8>) returns (r: SdioResult<()>)
      requires Valid()
      modifies this
      ensures Valid()
      ensures !old(initialized) ==> r == Err(NotInitialized) && unchanged(this)
      ensures old(initialized) && old(failNext) ==>
        r == Err(TransferError) && !failNext && unchanged(this`memory, this`transactions, this`counter)
      ensures old(initialized) && !old(failNext) ==>
        && r == Ok(()) && !failNext
        && memory == Poke(old(memory), address, data)
        && counter == old(counter) + 1
        && transactions == old(transactions) + [Transaction(address, data, true, counter)]
      ensures initialized == old(initialized) && blockSize == old(blockSize)
    {
      if !initialized {
        return Err(NotInitialized);
      }
      if failNext {
        failNext := false;
        return Err(TransferError);
      }
      var mem := memory;
      for i := 0 to |data|
        invariant mem == Poke(memory, address, data[..i])
      {
        assert data[..i + 1][..i] == data[..i];
        mem := mem[Addr(address, i) := data[i]];
      }
      assert data[..|data|] == data;
      memory := mem;
      Record(address, data, true);
      r := Ok(());
    }

    /** One pass of the download loop: block `b` of the image, from
        `b * block_size` to the next block or the end, written at the base
        address plus its offset. */
    method WriteBlock(base: u32, firmware: seq<u8>, b: nat) returns (w: SdioResult<()>)
      requires Valid() && initialized && blockSize > 0 && |firmware| < U64_MOD && b < Blocks(|firmware|, blockSize)
      modifies this
      ensures Valid() && initialized && blockSize == old(blockSize)
      ensures old(failNext) ==>
        w == Err(TransferError) && !failNext && unchanged(this`memory, this`transactions, this`counter)
      ensures !old(failNext) ==>
        && w == Ok(()) && !failNext
        && memory == Poke(old(memory), BlockAddr(base, b, blockSize), Chunk(firmware, b, blockSize))
        && counter == old(counter) + 1
        && transactions == old(transactions)
           + [Transaction(BlockAddr(base, b, blockSize), Chunk(firmware, b, blockSize), true, counter)]
    {
      BlocksCover(|firmware|, blockSize, b);
      var start := b * blockSize;
      var end := if start + blockSize <= |firmware| then start + blockSize else |firmware|;
      w := WriteMultiBlock(BlockAddr(base, b, blockSize), firmware[start..end]);
    }

    /** One pass of `download_firmware`'s loop: with blocks `0..b` already
        written since the download began (from memory `mem0`, log `log0`
        and counter `c0`), write block `b`, after which blocks `0..b+1`
        are. */
    method DownloadBlock(base: u32, firmware: seq<u8>, b: nat, ghost mem0: Memory,
                         ghost log0: seq<Transaction>, ghost c0: nat) returns (w: SdioResult<()>)
      requires Valid() && initialized && blockSize > 0 && |firmware| < U64_MOD && b < Blocks(|firmware|, blockSize)
      requires memory == Poke(mem0, base, firmware[..Covered(|firmware|, b, blockSize)])
      requires counter == c0 + b
      requires transactions == log0 + DownloadLog(base, firmware, blockSize, c0, b)
      modifies this
      ensures Valid() && initialized && blockSize == old(blockSize)
      ensures old(failNext) ==>
        w == Err(TransferError) && !failNext && unchanged(this`memory, this`transactions, this`counter)
      ensures !old(failNext) ==>
        && w == Ok(()) && !failNext
        && memory == Poke(mem0, base, firmware[..Covered(|firmware|, b + 1, blockSize)])
        && counter == c0 + b + 1
        && transactions == log0 + DownloadLog(base, firmware, blockSize, c0, b + 1)
    {
      DownloadStep(mem0, base, firmware, b, blockSize);
      w := WriteBlock(base, firmware, b);
    }

    /** `download_firmware`: NotInitialized before `initialize`; otherwise
        one `write_multi_block` per block of `block_size` bytes, the last
        one short, at the base address plus the block's offset. A failing
        block write ends the download with its error; an armed failure
        therefore fails the first block, unless there is no block, when
        nothing is written and the failure stays armed. The block count
        is computed in `usize` and wraps for a block size near 2^64, when
        the image has no blocks and is not written. A zero block size
        divides by zero in the source, so it is excluded; the image is a
        slice, so its length fits a `usize`. */
    method DownloadFirmware(base: u32, firmware: seq<u8>) returns (r: SdioResult<()>)
      requires Valid() && blockSize > 0 && |firmware| < U64_MOD
      modifies this
      ensures Valid() && initialized == old(initialized) && blockSize == old(blockSize)
      ensures !old(initialized) ==> r == Err(NotInitialized) && unchanged(this)
      ensures old(initialized) && old(failNext) && Blocks(|firmware|, blockSize) > 0 ==>
        r == Err(TransferError) && !failNext && unchanged(this`memory, this`transactions, this`counter)
      ensures old(initialized) && (!old(failNext) || Blocks(|firmware|, blockSize) == 0) ==>
        && r == Ok(()) && failNext == old(failNext)
        && memory == Poke(old(memory), base, firmware[..Covered(|firmware|, Blocks(|firmware|, blockSize), blockSize)])
        && counter == old(counter) + Blocks(|firmware|, blockSize)
        && transactions == old(transactions) + DownloadLog(base, firmware, blockSize, old(counter), Blocks(|firmware|, blockSize))
    {
      if !initialized {
        return Err(NotInitialized);
      }
      var bs := blockSize;
      var blocks := Blocks(|firmware|, bs);
      BlocksFacts(|firmware|, bs);
      for b := 0 to blocks
        invariant Valid() && initialized && blockSize == bs
        invariant b == 0 ==> failNext == old(failNext)
        invariant b > 0 ==> !old(failNext) && !failNext
        invariant memory == Poke(old(memory), base, firmware[..Covered(|firmware|, b, bs)])
        invariant counter == old(counter) + b
        invariant transactions == old(transactions) + DownloadLog(base, firmware, bs, old(counter), b)
      {
        var w := DownloadBlock(base, firmware, b, old(memory), old(transactions), old(counter));
        if w.Err? {
          assert firmware[..0] == [] && transactions == old(transactions) + [];
          return Err(w.error);
        }
      }
      r := Ok(());
    }

    /** `fail_next_operation`. */
    method FailNextOperation()
      modifies this`failNext
      ensures failNext
    {
      failNext := true;
    }

    /** `clear_memory`: every address reads 0 again. */
    method ClearMemory()
      modifies this`memory
      ensures memory == map[]
      ensures forall a :: Get(memory, a) == 0
    {
      memory := map[];
    }

    /** `clear_transactions`: the log is emptied; the counter runs on. */
    method ClearTransactions()
      requires Valid()
      modifies this`transactions
      ensures Valid() && transactions == []
    {
      transactions := [];
    }

    /** `get_memory_snapshot`: a copy of the memory. */
    function GetMemorySnapshot(): (r: Memory)
      reads this
      ensures r == memory
    {
      memory
    }

    /** `get_transactions`: a copy of the log, oldest first, with
        strictly rising timestamps. */
    function GetTransactions(): (r: seq<Transaction>)
      requires Valid()
      reads this
      ensures r == transactions
      ensures forall i, j :: 0 <= i < j < |r| ==> r[i].timestamp < r[j].timestamp
    {
      transactions
    }

    /** `verify_firmware_at`: whether the bytes from `address` on equal
        `expected`, stopping at the first mismatch. */
    method VerifyFirmwareAt(address: u32, expected: seq<u8>) returns (ok: bool)
      ensures ok <==> Peek(memory, address, |expected|) == expected
    {
      for i := 0 to |expected|
        invariant forall k :: 0 <= k < i ==> Get(memory, Addr(address, k)) == expected[k]
      {
        if Get(memory, Addr(address, i)) != expected[i] {
          assert Peek(memory, address, |expected|)[i] != expected[i];
          return false;
        }
      }
      ok := true;
    }
  }

  // ---------------------------------------------------------------- scenarios

  /** Operations before `initialize` are refused; after it, an armed
      failure fails exactly the next operation, and the one after it reads
      the byte written before. */
  method ErrorRecoveryScenario() returns (early: SdioResult<u8>, failed: SdioResult<u8>, recovered: SdioResult<u8>)
    ensures early == Err(NotInitialized) && failed == Err(TransferError) && recovered == Ok(0x42)
  {
    var device := new Device();
    early := device.ReadByte(0x1000);
    var init := device.Initialize();
    var w := device.WriteByte(0x1000, 0x42);
    device.FailNextOperation();
    failed := device.ReadByte(0x1000);
    recovered := device.ReadByte(0x1000);
  }

  /** An address never written reads 0; a five-byte multi-block write reads
      back unchanged. */
  method MultiBlockScenario() returns (unwritten: SdioResult<u8>, back: SdioResult<seq<u8>>)
    ensures unwritten == Ok(0) && back == Ok([1, 2, 3, 4, 5])
  {
    var device := new Device();
    var init := device.Initialize();
    unwritten := device.ReadByte(0x2000);
    var w := device.WriteMultiBlock(0x2000, [1, 2, 3, 4, 5]);
    ReadAfterWrite(map[], 0x2000, [1, 2, 3, 4, 5]);
    back := device.ReadMultiBlock(0x2000, 5);
  }

  /** Two writes and a read are logged in order, with rising timestamps. */
  method TransactionHistoryScenario() returns (log: seq<Transaction>)
    ensures |log| == 3
    ensures log[0].isWrite && log[0].address == 0x1000 && log[0].data == [0x11]
    ensures log[1].isWrite && log[1].address == 0x1004 && log[1].data == [0x22]
    ensures !log[2].isWrite && log[2].address == 0x1000 && log[2].data == [0x11]
    ensures log[0].timestamp < log[1].timestamp < log[2].timestamp
  {
    var device := new Device();
    var init := device.Initialize();
    device.ClearTransactions();
    var a := device.WriteByte(0x1000, 0x11);
    var b := device.WriteByte(0x1004, 0x22);
    var c := device.ReadByte(0x1000);
    log := device.GetTransactions();
  }

  /** A 1024-byte image downloaded in 512-byte blocks is found in memory,
      reads back whole, and took two block writes. */
  method FirmwareDownloadScenario() returns (ok: bool, back: SdioResult<seq<u8>>, writes: nat)
    ensures ok && back == Ok(seq(1024, _ => 0xAA)) && writes == 2
  {
    var device := new Device();
    var init := device.Initialize();
    var s := device.SetBlockSize(512);
    var firmware: seq<u8> := seq(1024, _ => 0xAA);
    assert Blocks(1024, 512) == 2;
    var d := device.DownloadFirmware(0x0010_0000, firmware);
    WholeImageWhenNoWrap(map[], 0x0010_0000, firmware, 512);
    DownloadLogAt(0x0010_0000, firmware, 512, 0, 2);
    ReadAfterWrite(map[], 0x0010_0000, firmware);
    ok := device.VerifyFirmwareAt(0x0010_0000, firmware);
    writes := |device.GetTransactions()|;
    back := device.ReadMultiBlock(0x0010_0000, 1024);
  }

  /** Downloading an empty image writes nothing, so an armed failure is
      still armed afterwards and fails the next read. */
  method EmptyDownloadScenario() returns (d: SdioResult<()>, next: SdioResult<u8>)
    ensures d == Ok(()) && next == Err(TransferError)
  {
    var device := new Device();
    var init := device.Initialize();
    device.FailNextOperation();
    d := device.DownloadFirmware(0, []);
    next := device.ReadByte(0);
  }

  /** With the block size set to 2^64 - 1, the block count of a two-byte
      image wraps to zero: the download reports success and leaves the
      memory and the log as they were. */
  method NearMaxBlockSizeScenario() returns (d: SdioResult<()>, mem: Memory, log: seq<Transaction>)
    ensures d == Ok(()) && mem == map[] && log == []
  {
    var device := new Device();
    var init := device.Initialize();
    var s := device.SetBlockSize(U64_MOD - 1);
    var image: seq<u8> := [1, 2];
    assert Blocks(|image|, device.blockSize) == 0 by {
      BlocksWrap(|image|, U64_MOD - 1);
    }
    d := device.DownloadFirmware(0x0010_0000, image);
    assert image[..0] == [];
    mem := device.memory;
    log := device.transactions;
  }
}
