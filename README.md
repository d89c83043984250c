# Soliloquy drivers and bootstrap kernel: a Dafny model

This project models the parts of the Soliloquy operating system that hold logic rather than plumbing, and proves what that logic promises. Soliloquy is a Fuchsia-style system with Zircon-like kernel pieces, Rust and C++ drivers, and FIDL crates. Each source file of the core becomes one Dafny module:

- **Generic SD/MMC engine** (`Mmc`):
  - card identification: CMD0, the CMD8 v2 probe, the bounded ACMD41 and CMD1 OCR loops, CID, RCA, select, and bus width;
  - byte- or block-addressed reads and writes;
  - erase, flush and the block-device view.

  The host controller is a scripted device. The driver records every call it issues, and each step is proved against a function of the script and the call history.
- **Driver vocabulary** (`DriverTraits`): errors, configuration defaults, clock-rate constructors, and the default `toggle` and `reset` sequences.
- **Bootstrap kernel**:
  - the page arena with its free list and reference counts (`PmmArena`);
  - the lazily committed VMO (`Vmo`);
  - the page-fault handler (`PageFault`);
  - message packets and their FIFO queue (`MessagePacket`);
  - the bucketed handle table with rights (`HandleTable`);
  - paired channel endpoints over one global handle table (`Channel`).

  Stateful structures are classes whose methods update their fields. Linked lists are kept as sequences from head to tail.
- **AIC8800 WiFi driver** (`Aic8800`):
  - the TX queue with credits;
  - the RX ring that drops the oldest packet;
  - the wrapping firmware checksum;
  - chip identification, the transmit frame, and the initialisation guards.

  Its test doubles are the SDIO device (`MockSdio`), the register map (`MockRegister`) and the firmware loader (`MockFirmware`).
- **Generic clock, GPIO and UART drivers** (`Clock`, `Gpio`, `Uart`):
  - register-field encodings;
  - clock dividers and the MMC divider search;
  - PLL rates and gate mapping;
  - GPIO pin routing;
  - UART divisors, line control, the polled read and write loops, and the early console.
- **C++ HAL helpers**: MMIO read-modify-write (`Mmio`), clock gates and active-low resets (`ClockReset`), and SDIO multi-block chunking (`HalSdio`).
- **FIDL crates**:
  - keyboard modifiers, the touch and mouse sources (`UiInput`);
  - the WLAN softmac bridge state machine (`WlanSoftmac`).
- **Platform detection and build-system names** (`Platform`, `BuildModels`).

Shared pieces:

- `Common`: the integer widths.
- `Bits`: bitwise operations on 32-bit words, defined bit by bit.
- `Zx`: the Zircon status codes, kept symbolic.

Memory-mapped registers are maps from byte offset to `u32`. A register that was never written reads 0. Rust integer arithmetic is modelled as a release build, which wraps modulo 2^32 or 2^64. Where the source panics, that is stated as a precondition.

Quirks of the source are modelled as written. Lemmas exhibit them:

- the handle-table lookup by chain position (`HandleTable.SecondHandleLost`);
- erase with a count of 0 (`Mmc.EraseRange`);
- the missing STOP_TRANSMISSION after a failed read (`Mmc.ReadErrorLeavesTransferOpen`);
- GPIO pull bits of pins 16-31 landing in the interrupt-enable register (`Gpio.HighPinPullIsInterruptEnable`);
- a clock rate above its maximum (`Clock.SetRateCanExceedMax`);
- the UART `write` and `flush` loops ignoring their final line-status poll (`Uart.LastPollIgnored`);
- the firmware block count of the SDIO test double wrapping to zero for a block size near 2^64 (`MockSdio.NothingWhenWrap`).

## Model

| member | source | states |
|---|---|---|
| DriverTraits.DefaultGpioConfig | drivers/generic/traits.rs:88-96 | the default pin configuration is an input with no pull and a low initial value |
| DriverTraits.Toggle | drivers/generic/traits.rs:117-120 | toggle first reads the pin; a read error is returned with no write, otherwise the pin is written with the negation of what was read and the write's result is returned |
| DriverTraits.ClockRateScale | drivers/generic/traits.rs:139-149 | `mhz(n)` is `n * 1_000_000` Hz and `khz(n)` is `n * 1000` Hz whenever the product fits in `u64`, and the scale divides back out |
| DriverTraits.Mhz | drivers/generic/traits.rs:139-141 | a rate built from megahertz is a whole number of megahertz whenever the product fits in 64 bits |
| DriverTraits.Khz | drivers/generic/traits.rs:143-145 | a rate built from kilohertz is a whole number of kilohertz whenever the product fits in 64 bits |
| DriverTraits.Reset | drivers/generic/traits.rs:196-200 | reset asserts then deasserts the line; an assert error is returned without a deassert, otherwise the deassert's result is returned |
| DriverTraits.DefaultSpiConfig | drivers/generic/traits.rs:312-320 | the default SPI configuration is mode 0, 1 MHz, 8-bit words, MSB first |
| DriverTraits.DefaultUartConfig | drivers/generic/traits.rs:360-369 | the default UART configuration is 115200 baud, 8 data bits, 1 stop bit, no parity, no flow control |
| Mmc.DefaultFlags | drivers/generic/mmc.rs:61-70 | the default command flags expect an R1 response with no data phase, not a write and not multi-block |
| Mmc.ChainIssues | drivers/generic/mmc.rs:330-396 | a run of host calls chained with `?` issues a prefix of its calls, every call but the last answered Ok, returns the last answer, and issues all of them exactly when it succeeds |
| Mmc.CheckSdCardSpec | drivers/generic/mmc.rs:135-152 | CMD8 is sent with argument 0x1AA and R7; it never fails, and reports SD v2 exactly when the card answers and the answer's low byte is 0xAA |
| Mmc.OcrRoundPollsOnce | drivers/generic/mmc.rs:159-192 | one retry round sends the OCR command at most once, and exactly once when it ends by waiting for the card |
| Mmc.OcrRoundWaits | drivers/generic/mmc.rs:159-192 | a round that finds the card not ready has sent its probe commands (APP_CMD then ACMD41, or CMD1) and then waited 10 ms |
| Mmc.OcrPollSendsOnlyProbes | drivers/generic/mmc.rs:159-217 | an OCR loop sends nothing but its own probe commands and the 10 ms wait |
| Mmc.OcrPollCount | drivers/generic/mmc.rs:159-199 | a loop with `n` rounds sends the OCR command at most `n` times |
| Mmc.OcrPollTimeout | drivers/generic/mmc.rs:159-216 | a loop that returns Timeout has sent the OCR command exactly `n` times, unless the host itself answered its last call with Timeout |
| Mmc.OcrPollReady | drivers/generic/mmc.rs:179-211 | a loop that succeeds stops on an answer with bit 31 set, and the card type is Emmc for CMD1, SdHc when bit 30 is set and Sd otherwise |
| Mmc.OcrPollFails | drivers/generic/mmc.rs:159-216 | a loop that fails either passes on the host's error on its last call or has run out of rounds (Timeout) |
| Mmc.OcrPollTypes | drivers/generic/mmc.rs:182-210 | the CMD1 loop only names Emmc and the ACMD41 loop only Sd or SdHc |
| Mmc.IdentifyTypes | drivers/generic/mmc.rs:345-353 | identification only names Sd, SdHc or Emmc, and a card that echoed CMD8 only Sd or SdHc |
| Mmc.IdentifyV2NeverProbesEmmc | drivers/generic/mmc.rs:345-346 | a card that echoed CMD8 is never sent CMD1 |
| Mmc.IdentifyFallsBackToEmmc | drivers/generic/mmc.rs:348-352 | when the SD v1 loop fails, the next call is CMD1 with argument 0x40FF8080, and identification succeeds exactly when the eMMC loop does, as Emmc |
| Mmc.GetCidSpec | drivers/generic/mmc.rs:220-233 | CMD2 is sent with R2; the CID is four zero words when the card answers, and the host's error otherwise |
| Mmc.GetRcaSpec | drivers/generic/mmc.rs:236-261 | an SD card gets the upper 16 bits of its R6 answer as its address; an eMMC is sent argument 1<<16 with R1 and gets address 1 |
| Mmc.ConfigureIsChain | drivers/generic/mmc.rs:363-384 | after the address is known, init issues CMD7 at rca<<16, then APP_CMD + ACMD6(2) + a 4-bit host bus for SD or an 8-bit host bus for eMMC, then CMD16(512) and the final clock, in that order, stopping at the first failure |
| Mmc.IdentifiedSectors | drivers/generic/mmc.rs:316-326 | every card description init stores has 512-byte blocks and a capacity from the table that is a whole number of at least 2^20 blocks |
| Mmc.InitPreludeCalls | drivers/generic/mmc.rs:335-343 | init starts with the 400 kHz clock, the 1-bit bus, CMD0 and CMD8 in that order; only the first three can fail it |
| Mmc.InitOutcomes | drivers/generic/mmc.rs:330-396 | without a card init issues no call and returns NotFound; a failed init keeps the old card description; a successful one stores a description with block size 512, the bus width, clock and capacity of its type, and last sets that clock |
| Mmc.InitIdentifies | drivers/generic/mmc.rs:345-373 | a successful init names Sd, SdHc or Emmc; an eMMC gets address 1 and an 8-bit bus, an SD card a 4-bit bus, and a card that echoed CMD8 is Sd or SdHc |
| Mmc.Capacity | drivers/generic/mmc.rs:316-325 | the capacity of each card type is a whole number of 512-byte blocks between 512 MiB and 64 GiB |
| Mmc.MaxFrequency | drivers/generic/mmc.rs:379-383 | the bus clock is between 25 and 52 MHz, and above 25 MHz exactly for SDHC, SDXC and eMMC cards |
| Mmc.BlockAddressValue | drivers/generic/mmc.rs:418-421 | the command address is the block index (mod 2^32) for SdHc/SdXc/Emmc and index*512 (mod 2^32) otherwise |
| Mmc.BlockAddressInCapacity | drivers/generic/mmc.rs:418-421 | for every block inside the capacity init assigns, the 32-bit cast loses nothing |
| Mmc.ByteAddressWraps | drivers/generic/mmc.rs:420 | on a byte-addressed card block 2^23 is sent with the address of block 0 |
| Mmc.ReadBlocksResult | drivers/generic/mmc.rs:406-460 | before init a read returns NotFound, and with a buffer shorter than 512 bytes InvalidParam, both issuing no call; a successful read returns (len/512)*512 |
| Mmc.ReadLoopOk | drivers/generic/mmc.rs:443-446 | a read loop that succeeds issues one read_data per block and leaves the delivered blocks in their slices, with the bytes before and after untouched |
| Mmc.ReadLoopFails | drivers/generic/mmc.rs:443-446 | a read loop that fails has issued only read_data calls, the last one answered with the error; the slices of the reads made hold what the host wrote and the rest of the buffer is untouched |
| Mmc.ReadPhaseOk | drivers/generic/mmc.rs:443-458 | a successful data phase issues one read_data per block and STOP_TRANSMISSION (R1b) exactly when there is more than one block |
| Mmc.ReadBlocksSucceeds | drivers/generic/mmc.rs:406-461 | a successful read sends the read command at the card's address, one read_data per block and STOP_TRANSMISSION iff count > 1; block j of the buffer holds the j-th delivered block and the remainder bytes are untouched |
| Mmc.ReadErrorLeavesTransferOpen | drivers/generic/mmc.rs:443-458 | a failing read_data ends the read with no STOP_TRANSMISSION sent; the buffer then holds what the host wrote into the slices of the reads made, the failing one included, followed by the untouched rest |
| Mmc.WriteLoopHandsOver | drivers/generic/mmc.rs:497-500 | the write loop hands the host exactly the caller's whole blocks, in order, one block per call |
| Mmc.FinishWriteOk | drivers/generic/mmc.rs:502-515 | a write ends with STOP_TRANSMISSION exactly for more than one block, then the 500 ms wait |
| Mmc.WritePhaseOk | drivers/generic/mmc.rs:496-517 | a successful data phase hands over exactly the whole blocks, sends STOP_TRANSMISSION iff count > 1 and ends with wait_ready(500) |
| Mmc.WriteBlocksResult | drivers/generic/mmc.rs:463-517 | before init a write returns NotFound, and with fewer than 512 bytes InvalidParam, issuing no call; a successful write returns (len/512)*512 and ends with wait_ready(500) |
| Mmc.WriteBlocksSucceeds | drivers/generic/mmc.rs:463-518 | a successful write sends the write command at the card's address first, hands over exactly the whole blocks and sends STOP_TRANSMISSION iff count > 1 |
| Mmc.EraseRange | drivers/generic/mmc.rs:528 | for count ≥ 1 without overflow the erase range is exactly count blocks; count 0 names the block before start (wrapping at 0) |
| Mmc.EraseIsChain | drivers/generic/mmc.rs:520-568 | before init erase returns NotFound and issues nothing; otherwise it sends ERASE_START(addr(start)), ERASE_END(addr(start+count-1)), ERASE (R1b) and wait_ready(5000), in that order, stopping at the first failure |
| Mmc.CopyBlock | drivers/generic/mmc.rs:445 | copying a block into the buffer replaces exactly that 512-byte slice |
| Mmc.GenericMmcDriver.constructor | drivers/generic/mmc.rs:113-119 | a new driver has no card description and address 0 |
| Mmc.GenericMmcDriver.GoIdle | drivers/generic/mmc.rs:122-132 | sends CMD0 with no response and passes on its error |
| Mmc.GenericMmcDriver.CheckSdCard | drivers/generic/mmc.rs:135-152 | behaves as CheckSdCardSpec |
| Mmc.GenericMmcDriver.PollRound | drivers/generic/mmc.rs:159-213 | one retry round behaves as OcrRound |
| Mmc.GenericMmcDriver.PollOcr | drivers/generic/mmc.rs:155-217 | the bounded retry loop behaves as OcrPoll with the driver's 100 attempts |
| Mmc.GenericMmcDriver.Identify | drivers/generic/mmc.rs:345-353 | the choice between the SD v2 loop, the SD v1 loop and the eMMC fallback behaves as IdentifyCard |
| Mmc.GenericMmcDriver.GetCid | drivers/generic/mmc.rs:220-233 | behaves as GetCidSpec |
| Mmc.GenericMmcDriver.GetRca | drivers/generic/mmc.rs:236-261 | behaves as GetRcaSpec |
| Mmc.GenericMmcDriver.SelectCard | drivers/generic/mmc.rs:264-274 | sends CMD7 with the stored address << 16 and R1b |
| Mmc.GenericMmcDriver.SetSdBusWidth | drivers/generic/mmc.rs:277-300 | sends APP_CMD at the stored address, ACMD6(2), then sets the host bus to 4 bits, stopping at the first failure |
| Mmc.GenericMmcDriver.Init | drivers/generic/mmc.rs:330-396 | the whole identification sequence: new history, address and card description are those of InitSpec |
| Mmc.GenericMmcDriver.SetUpCard | drivers/generic/mmc.rs:355-395 | the steps after identification behave as InitAfterIdentify and store the card description only on success |
| Mmc.GenericMmcDriver.CardPresent | drivers/generic/mmc.rs:398-400 | reports the host's card-detect |
| Mmc.GenericMmcDriver.CardInfo | drivers/generic/mmc.rs:402-404 | returns the stored description, or NotFound before init |
| Mmc.GenericMmcDriver.ReadInto | drivers/generic/mmc.rs:443-446 | one read_data into block i: whether it succeeds or fails, the host may write that 512-byte slice (the scripted bytes for that call) and every other byte of the buffer is unchanged; the host's answer is the result |
| Mmc.GenericMmcDriver.ReadBlocks | drivers/generic/mmc.rs:406-461 | history, result and buffer are those of ReadBlocksSpec, on success and on every error path; after a failed read_data the slices handed to the host hold what it wrote and the rest of the buffer is untouched |
| Mmc.GenericMmcDriver.WriteBlocks | drivers/generic/mmc.rs:463-518 | history and result are those of WriteBlocksSpec |
| Mmc.GenericMmcDriver.EraseBlocks | drivers/generic/mmc.rs:520-568 | history and result are those of EraseSpec |
| Mmc.GenericMmcDriver.Flush | drivers/generic/mmc.rs:570-573 | one wait_ready(500), whose result is returned |
| Mmc.GenericMmcDriver.Read | drivers/generic/mmc.rs:599-602 | read_blocks with the byte count dropped |
| Mmc.GenericMmcDriver.Write | drivers/generic/mmc.rs:604-607 | write_blocks with the byte count dropped |
| Mmc.GenericMmcDriver.SectorSize | drivers/generic/mmc.rs:609-611 | the sector size is 512, before and after init |
| Mmc.GenericMmcDriver.SectorCount | drivers/generic/mmc.rs:613-618 | 0 before init, otherwise the number of whole 512-byte blocks in the capacity |
| Mmc.GenericMmcDriver.Sync | drivers/generic/mmc.rs:620-622 | sync is flush |
| PmmArena.CountdownMembers | third_party/zircon_c/vm/pmm_arena.c:22-31 | the free list init builds over n pages holds every page index below n exactly once, the last page first |
| PmmArena.Arena.constructor | third_party/zircon_c/vm/pmm_arena.h:1-21 | an arena structure before init has no pages and an empty free list |
| PmmArena.Init | third_party/zircon_c/vm/pmm_arena.c:5-34 | a null arena or size 0 gives INVALID_ARGS; otherwise free_count = size/PAGE_SIZE, page i has address base + i*PAGE_SIZE, every page is FREE with ref 0, and each page is on the free list exactly once |
| PmmArena.AllocPage | third_party/zircon_c/vm/pmm_arena.c:36-55 | null arguments give INVALID_ARGS and an empty free list NO_MEMORY, both changing nothing; otherwise the head page is unlinked, free_count drops by 1 and that page (which was FREE) becomes ALLOCATED with ref 1 |
| PmmArena.FreePage | third_party/zircon_c/vm/pmm_arena.c:57-81 | a null page, a page not ALLOCATED or one with ref 0 gives INVALID_ARGS with nothing changed; otherwise ref drops by 1, and only at 0 does the page become FREE and go back on the front of the free list, raising free_count by 1 |
| PmmArena.FreeCount | third_party/zircon_c/vm/pmm_arena.c:83-88 | 0 for a null arena, otherwise the number of pages on the free list, which holds every FREE page exactly once |
| PmmArena.AllocThenFree | test/vm/vm_test.cc:49-64 | allocating k pages and then freeing each once restores free_count and leaves all of them FREE |
| Vmo.Vmo.constructor | third_party/zircon_c/vm/vmo_bootstrap.h:1-19 | a VMO structure before init has no page slots |
| Vmo.PageCountIsCeiling | third_party/zircon_c/vm/vmo_bootstrap.c:11 | page_count is size rounded up to whole pages, except for the top 4095 sizes where the 64-bit addition wraps and gives 0 |
| Vmo.CommittedUpdate | third_party/zircon_c/vm/vmo_bootstrap.c:44-56 | filling an empty slot adds one committed page, emptying a committed one removes one |
| Vmo.Init | third_party/zircon_c/vm/vmo_bootstrap.c:5-23 | a null VMO or arena or size 0 gives INVALID_ARGS; otherwise page_count = ceil(size/PAGE_SIZE) and every slot is empty |
| Vmo.Commit | third_party/zircon_c/vm/vmo_bootstrap.c:25-46 | an index ≥ page_count gives INVALID_ARGS; a committed slot returns OK without allocating; an empty slot takes the arena's head free page, or passes on NO_MEMORY and stays empty; free pages plus committed pages stay constant |
| Vmo.ReleaseSlot | third_party/zircon_c/vm/vmo_bootstrap.c:53-58 | one destroy step frees slot i's page, if any, and empties the slot, keeping the drain invariant |
| Vmo.Destroy | third_party/zircon_c/vm/vmo_bootstrap.c:48-64 | every committed page is freed (FREE again), the arena's free_count rises by the number of committed slots, and the VMO is left with no pages and size 0 |
| PageFault.KernelWriteIsMasked | third_party/zircon_c/vm/page_fault.c:18 | the kernel-write test by bit position agrees with the C test under the masks 1<<1 (WRITE) and 1<<3 (USER) |
| PageFault.Handler.constructor | third_party/zircon_c/vm/page_fault.h:15-18 | a handler structure before init is bound to nothing |
| PageFault.HandlerInit | third_party/zircon_c/vm/page_fault.c:3-11 | any null argument gives INVALID_ARGS with nothing changed; otherwise the handler is bound to the VMO and arena |
| PageFault.Handle | third_party/zircon_c/vm/page_fault.c:13-36 | a write fault without USER gives INVALID_ARGS; page index fault_addr/PAGE_SIZE ≥ page_count gives NOT_FOUND; a committed page changes nothing and returns OK; an uncommitted one commits exactly that page from the arena's free-list head, or passes on NO_MEMORY with nothing changed |
| MessagePacket.Create | third_party/zircon_c/ipc/message_packet.c:5-55 | a null output, data_size>0 with null data or num_handles>0 with null handles gives INVALID_ARGS and no packet; otherwise OK and a packet holding copies of exactly data_size bytes and num_handles handles |
| MessagePacket.MessageQueue.constructor | third_party/zircon_c/ipc/message_packet.c:67-75 | a fresh queue is empty with count 0 |
| MessagePacket.QueueInit | third_party/zircon_c/ipc/message_packet.c:67-75 | init leaves the queue empty with count 0 |
| MessagePacket.Enqueue | third_party/zircon_c/ipc/message_packet.c:77-93 | the packet is appended after the tail and count rises by one (mod 2^32); a null packet changes nothing |
| MessagePacket.CountStep | third_party/zircon_c/ipc/message_packet.c:92-111 | the 32-bit count of n±1 packets is the count of n plus or minus one, wrapping |
| MessagePacket.Dequeue | third_party/zircon_c/ipc/message_packet.c:95-114 | an empty queue returns NULL and changes nothing; otherwise the head packet is unlinked and returned and count drops by one |
| MessagePacket.IsEmpty | third_party/zircon_c/ipc/message_packet.c:116-118 | true for a null queue; on a valid queue whose length has not wrapped, true exactly when no packet is queued |
| MessagePacket.CountWraps | third_party/zircon_c/ipc/message_packet.c:92-118 | with 2^32 packets queued the 32-bit count is 0 and is_empty reports an empty queue that is not |
| MessagePacket.QueueDestroy | third_party/zircon_c/ipc/message_packet.c:120-135 | destroy leaves the queue empty with count 0 |
| MessagePacket.Run | third_party/zircon_c/ipc/message_packet.c:77-114 | running any sequence of enqueues and dequeues on a queue returns exactly the packets `Taken` describes |
| MessagePacket.Fifo | third_party/zircon_c/ipc/message_packet.c:77-114 | the queue is FIFO: the packets dequeued are, in order, a prefix of the packets queued before followed by those enqueued |
| HandleTable.HasRightsIsSubset | third_party/zircon_c/ipc/handle.c:147-149 | has_rights(h, r), i.e. (h & r) == r, holds exactly when every bit of r is set in h |
| HandleTable.NoRightsRequired | third_party/zircon_c/ipc/handle.c:147-149 | requiring ZX_RIGHT_NONE always succeeds |
| HandleTable.DuplicateNarrows | third_party/zircon_c/ipc/handle.c:143 | the duplicate's rights `requested & existing` are held by the original and keep every requested right the original has |
| HandleTable.Find | third_party/zircon_c/ipc/handle.c:67-88 | a lookup finds an entry exactly when the handle's bucket chain is longer than handle-1, and then the entry at position handle-1 |
| HandleTable.Table.constructor | third_party/zircon_c/ipc/handle.h:31-35 | a zero-filled table has no buckets and count 0 |
| HandleTable.TableInit | third_party/zircon_c/ipc/handle.c:8-21 | a null table gives INVALID_ARGS; otherwise num_buckets is initial_buckets, or 64 when that is 0, every bucket is empty and count is 0 |
| HandleTable.TableDestroy | third_party/zircon_c/ipc/handle.c:23-40 | the buckets are dropped and count is 0; a table without buckets is unchanged |
| HandleTable.Alloc | third_party/zircon_c/ipc/handle.c:42-65 | null arguments give INVALID_ARGS with nothing changed; otherwise the handle is count+1, its entry (object, rights, ref 1) is pushed on bucket handle % num_buckets, and count rises by one |
| HandleTable.FindEntry | third_party/zircon_c/ipc/handle.c:67-88 | the chain walk stops at position handle-1, returning that position exactly when Find finds an entry |
| HandleTable.Get | third_party/zircon_c/ipc/handle.c:90-106 | null table or output or handle 0 give INVALID_ARGS; a handle not found gives BAD_HANDLE; insufficient rights give INVALID_ARGS; otherwise the entry's object |
| HandleTable.Unlink | third_party/zircon_c/ipc/handle.c:121 | unlinking entry i keeps the others in their order |
| HandleTable.Close | third_party/zircon_c/ipc/handle.c:108-127 | INVALID_ARGS for a null table or handle 0, BAD_HANDLE when not found; otherwise ref drops by one, and at 0 the entry is unlinked and count drops by one |
| HandleTable.Duplicate | third_party/zircon_c/ipc/handle.c:129-145 | a handle without DUPLICATE gives INVALID_ARGS; otherwise a new handle count+1 is allocated for the same object with rights requested & existing |
| HandleTable.FirstHandleFound | third_party/zircon_c/ipc/handle.c:56-80 | in a fresh table, handle 1 is found with its object |
| HandleTable.SecondHandleLost | third_party/zircon_c/ipc/handle.c:56-87 | because lookup takes position handle-1 of the bucket, handle 2 of a fresh 64-bucket table (alone at position 0 of bucket 2) is answered BAD_HANDLE |
| HandleTable.HandleNumberReused | third_party/zircon_c/ipc/handle.c:56-64 | handle numbers come from the live count: after allocating 1 and 2 and closing 1, the next handle is 2 again |
| Channel.Endpoint.constructor | third_party/zircon_c/ipc/channel.c:16-21 | a new endpoint has an empty queue, no peer, is open and has reference count 1 |
| Channel.Kernel.constructor | third_party/zircon_c/ipc/channel.c:5-6 | at start-up the global handle table is zero-filled and not initialised |
| Channel.CurrentTable | third_party/zircon_c/ipc/channel.c:8-14 | the first call initialises the global table with 64 empty buckets; later calls change nothing |
| Channel.Create | third_party/zircon_c/ipc/channel.c:23-59 | a null output gives INVALID_ARGS with nothing changed; otherwise two fresh open endpoints, each the other's peer, get handles count+1 and count+2 with READ, WRITE and TRANSFER |
| Channel.NewPair | third_party/zircon_c/ipc/channel.c:33-37 | both endpoints are initialised and made each other's peer |
| Channel.AllocEndpoint | third_party/zircon_c/ipc/channel.c:41-51 | one handle with READ, WRITE and TRANSFER is allocated for the endpoint |
| Channel.InTable | third_party/zircon_c/ipc/channel.c:41-51 | allocating an endpoint's handle keeps every handle referring to a known endpoint |
| Channel.Write | third_party/zircon_c/ipc/channel.c:61-88 | handle 0 gives INVALID_ARGS; lookup and WRITE-right failures are passed on; a closed endpoint or an absent or closed peer gives BAD_HANDLE; otherwise the created packet is appended to the peer's queue and no other queue changes |
| Channel.Read | third_party/zircon_c/ipc/channel.c:90-135 | handle 0 gives INVALID_ARGS; lookup and READ-right failures are passed on; a closed endpoint or empty queue gives BAD_HANDLE; otherwise the head packet is dequeued, its sizes are always reported, and data and handles are copied only when the caller's capacity suffices; on failure nothing changes |
| Channel.Close | third_party/zircon_c/ipc/channel.c:137-158 | handle 0 gives INVALID_ARGS, an unknown handle BAD_HANDLE; otherwise the endpoint is marked closed with its queue emptied, the peer's back-pointer is cleared and the handle is closed in the table |
| Channel.CloseFound | third_party/zircon_c/ipc/channel.c:150-157 | once the handle has resolved to an endpoint: the endpoint is closed with its queue emptied, the peer's back-pointer is cleared, and the handle's reference drops, unlinking the entry at 0 |
| Channel.Shutdown | third_party/zircon_c/ipc/channel.c:150-155 | the endpoint is closed, its queue emptied and its peer's back-pointer cleared |
| Channel.CloseHandle | third_party/zircon_c/ipc/channel.c:157 | handle_close on the global table: ref drops and at 0 the entry is unlinked |
| Channel.Unlinked | third_party/zircon_c/ipc/channel.c:157 | closing a handle keeps every remaining handle referring to a known endpoint |
| Channel.ChannelRights | third_party/zircon_c/ipc/channel.c:42-50 | a channel handle has READ and WRITE |
| Channel.FreshChannel | third_party/zircon_c/ipc/channel.c:23-59 | the first channel on a fresh kernel gets handles 1 and 2; handle 1 resolves to the first endpoint, handle 2 to nothing |
| Channel.FirstChannelUnreadable | third_party/zircon_c/ipc/channel.c:61-112 | a message written on handle 1 of the first channel is queued on the peer, but reading it through handle 2 gives BAD_HANDLE |
| Aic8800.TxQueue.constructor | drivers/wifi/aic8800/aic8800_rust/src/lib.rs:139-145 | a new TX queue is empty, has the given capacity and no credits |
| Aic8800.TxQueue.Enqueue | drivers/wifi/aic8800/aic8800_rust/src/lib.rs:147-153 | a full queue answers NO_MEMORY and is unchanged; otherwise the packet goes at the back; credits never change |
| Aic8800.TxQueue.Dequeue | drivers/wifi/aic8800/aic8800_rust/src/lib.rs:155-165 | without credits or packets nothing is returned and nothing changes; otherwise the front packet comes out for one credit |
| Aic8800.TxQueue.SetCredits | drivers/wifi/aic8800/aic8800_rust/src/lib.rs:167-169 | the credits are replaced and the queue is untouched |
| Aic8800.TxQueue.Len | drivers/wifi/aic8800/aic8800_rust/src/lib.rs:171-173 | the number of queued packets, never above the capacity |
| Aic8800.TxQueue.IsEmpty | drivers/wifi/aic8800/aic8800_rust/src/lib.rs:175-177 | true exactly when no packet is queued |
| Aic8800.DrainInOrder | drivers/wifi/aic8800/aic8800_rust/src/lib.rs:155-165 | with enough credits, k dequeues return the first k packets in order and use k credits |
| Aic8800.RxBuffer.constructor | drivers/wifi/aic8800/aic8800_rust/src/lib.rs:187-192 | a new RX buffer is empty with the given capacity |
| Aic8800.RxBuffer.Push | drivers/wifi/aic8800/aic8800_rust/src/lib.rs:194-200 | at capacity the oldest packet is dropped, then the new packet is appended; the buffer never exceeds its capacity (one packet when the capacity is 0) |
| Aic8800.RxBuffer.Pop | drivers/wifi/aic8800/aic8800_rust/src/lib.rs:202-204 | the oldest packet is removed and returned; an empty buffer gives nothing |
| Aic8800.RxBuffer.Len | drivers/wifi/aic8800/aic8800_rust/src/lib.rs:206-208 | the number of buffered packets, never above a nonzero capacity |
| Aic8800.PushAll | drivers/wifi/aic8800/aic8800_rust/src/lib.rs:194-200 | pushing a sequence into an empty buffer keeps exactly the newest packets, as many as the capacity, in arrival order |
| Aic8800.ZeroCapacityKeepsOne | drivers/wifi/aic8800/aic8800_rust/src/lib.rs:194-200 | a buffer of capacity 0 still holds the packet just pushed |
| Aic8800.Pad | drivers/wifi/aic8800/aic8800_rust/src/lib.rs:240-242 | a chunk is zero-padded to four bytes |
| Aic8800.LeBytes | drivers/wifi/aic8800/aic8800_rust/src/lib.rs:243 | a word as four bytes |
| Aic8800.LeRoundTrip | drivers/wifi/aic8800/aic8800_rust/src/lib.rs:243 | reading four bytes little-endian and writing the word back are inverse, both ways |
| Aic8800.LeWordOfZeros | drivers/wifi/aic8800/aic8800_rust/src/lib.rs:241-243 | a chunk of zeros reads as the word 0 |
| Aic8800.LeWordZeroExtended | drivers/wifi/aic8800/aic8800_rust/src/lib.rs:241-243 | zero bytes appended to a short chunk do not change its word |
| Aic8800.ChecksumAppend | drivers/wifi/aic8800/aic8800_rust/src/lib.rs:238-247 | the checksum of word-aligned data followed by more data is the 32-bit wrapping sum of the two checksums |
| Aic8800.Checksum | drivers/wifi/aic8800/aic8800_rust/src/lib.rs:238-247 | an image of at most four bytes sums to its own zero-padded little-endian word |
| Aic8800.ShortImageSum | drivers/wifi/aic8800/aic8800_rust/src/lib.rs:238-247 | the word list of an image of at most four bytes sums to that image's word |
| Aic8800.ChecksumIgnoresZeroTail | drivers/wifi/aic8800/aic8800_rust/src/lib.rs:238-247 | appending zero bytes never changes the checksum |
| Aic8800.SumAppend | drivers/wifi/aic8800/aic8800_rust/src/lib.rs:243 | a wrapping sum over two runs of words is the wrapping sum of their sums |
| Aic8800.SumShift | drivers/wifi/aic8800/aic8800_rust/src/lib.rs:243 | a starting value is added once, with wrap-around, to the sum of the words |
| Aic8800.WrapAssoc | drivers/wifi/aic8800/aic8800_rust/src/lib.rs:243 | 32-bit wrapping addition is associative |
| Aic8800.VerifyChecksum | drivers/wifi/aic8800/aic8800_rust/src/lib.rs:238-247 | true exactly when the wrapping 32-bit sum of the little-endian, zero-padded 4-byte chunks of the data equals the expected value |
| Aic8800.FrameLayout | drivers/wifi/aic8800/aic8800_rust/src/lib.rs:494-504 | the transmit frame is a whole number of 512-byte blocks, less than one block longer than header plus payload, with type DATA, flags 0, the payload at offset 4 and zeros after it |
| Aic8800.AlignUp | drivers/wifi/aic8800/aic8800_rust/src/lib.rs:502-504 | rounding up to 512-byte blocks gives a multiple of 512 within one block above the length |
| Aic8800.FrameLengthField | drivers/wifi/aic8800/aic8800_rust/src/lib.rs:498 | the header's length field reads back as the payload length modulo 2^16 |
| Aic8800.ChannelTable | drivers/wifi/aic8800/aic8800_rust/src/lib.rs:99-113 | the 2.4 GHz table lists channels 1 to 13 in order, channel n at 2407 + 5n MHz, all at 20 dBm |
| Aic8800.Capabilities | drivers/wifi/aic8800/aic8800_rust/src/lib.rs:612-620 | 2.4 GHz only, HT but not VHT, all 13 channels |
| Aic8800.SupportedChips | drivers/wifi/aic8800/aic8800_rust/src/lib.rs:335-340 | exactly the chip ids 0x88000000 to 0x88000002 and 0x88000080 are supported |
| Aic8800.IsChipSupported | drivers/wifi/aic8800/aic8800_rust/src/lib.rs:335-340 | every supported chip id has the 0x880000 prefix |
| Aic8800.FirmwareName | drivers/wifi/aic8800/aic8800_rust/src/lib.rs:366-371 | the DW chip falls through to the generic firmware image fmacfw.bin |
| Aic8800.LoadFirmware | drivers/wifi/aic8800/aic8800_rust/src/lib.rs:226-235 | the loader always answers NOT_SUPPORTED |
| Aic8800.ReadBytes | drivers/wifi/aic8800/aic8800_rust/src/lib.rs:326-332 | on success, byte j of the result is what the bus answered at address j |
| Aic8800.FailureSticks | drivers/wifi/aic8800/aic8800_rust/src/lib.rs:328-330 | once a byte read fails, the whole id read fails with that read's status |
| Aic8800.Driver.constructor | drivers/wifi/aic8800/aic8800_rust/src/lib.rs:276-287 | a new driver has chip id 0, is asleep and uninitialised, with a TX queue of 8192, an RX buffer of 256, a zero MAC and no channel |
| Aic8800.Driver.Write | drivers/wifi/aic8800/aic8800_rust/src/lib.rs:214-216 | one bus write is issued and recorded, and its status returned; driver state is unchanged |
| Aic8800.Driver.ReadChipId | drivers/wifi/aic8800/aic8800_rust/src/lib.rs:326-332 | reads bytes 0 to 3 in turn, stopping at the first failure, and assembles them little-endian |
| Aic8800.Driver.Init | drivers/wifi/aic8800/aic8800_rust/src/lib.rs:289-323 | a failing id read is passed on with nothing changed (chip id, MAC address, state and bus log all kept); the MAC address is never written; an unsupported id gives NOT_SUPPORTED; a supported chip gets reset writes 1 then 0 to register 0x0C, each failure passed on; then the firmware load fails with NOT_SUPPORTED, so init never succeeds and the driver stays uninitialised |
| Aic8800.Driver.SetPowerState | drivers/wifi/aic8800/aic8800_rust/src/lib.rs:436-454 | BAD_STATE before init with nothing written; otherwise 1 is written to SLEEP or WAKEUP and the state is stored only if the write succeeds |
| Aic8800.Driver.Transmit | drivers/wifi/aic8800/aic8800_rust/src/lib.rs:481-510 | BAD_STATE before init with nothing sent and nothing changed; a sleeping chip is woken first, and a wake failure is passed on with the power state and credits kept; a flow-control failure is passed on with the chip awake and the credits kept; otherwise the credits are granted and the frame is written at address 0; the chip id, initialised flag, channel, MAC address, TX queue contents and RX buffer never change |
| Aic8800.Driver.Receive | drivers/wifi/aic8800/aic8800_rust/src/lib.rs:513-515 | the oldest buffered packet is removed and returned |
| Aic8800.Driver.SetChannel | drivers/wifi/aic8800/aic8800_rust/src/lib.rs:578-590 | BAD_STATE before init with the channel unchanged; otherwise the channel is stored; nothing is sent, and the chip id, power state, initialised flag, MAC address, TX queue and RX buffer never change |
| Aic8800.Driver.StartScan | drivers/wifi/aic8800/aic8800_rust/src/lib.rs:598-609 | OK exactly when initialised, BAD_STATE otherwise |
| Aic8800.TestBusIsD80 | drivers/wifi/aic8800/aic8800_rust/src/lib.rs:647-700 | the bytes 80 00 00 88 at addresses 0 to 3 read as the AIC8800D80 id, which is supported |
| BuildModels.LowerChar | tools/build_manager/build_core/src/models.rs:27 | ASCII capitals become the matching small letters; every other character is kept |
| BuildModels.ToLower | tools/build_manager/build_core/src/models.rs:27 | lower-casing keeps the length |
| BuildModels.Display | tools/build_manager/build_core/src/models.rs:13-21 | every build-system name is non-empty and made of small letters only |
| BuildModels.FromStr | tools/build_manager/build_core/src/models.rs:26-33 | a parsed system displays as the lower-cased input; anything else fails with the message naming the input |
| BuildModels.NamesAreLower | tools/build_manager/build_core/src/models.rs:13-21 | the printed names are already lower case |
| BuildModels.RoundTrip | tools/build_manager/build_core/src/models.rs:13-34 | parsing the printed name of a build system gives that build system back |
| BuildModels.ParseIffName | tools/build_manager/build_core/src/models.rs:26-33 | a string parses exactly when its lower-cased form is a printed name, and then to that build system; otherwise the error is InvalidArgument naming the input |
| BuildModels.CaseInsensitive | tools/build_manager/build_core/src/models.rs:27 | strings equal once lower-cased parse to the same result |
| BuildModels.ParseExamples | tools/build_manager/build_core/src/models.rs:26-33 | GN, Bazel and CARGO parse; make does not |
| BuildModels.DefaultOptions | tools/build_manager/build_core/src/models.rs:61-71 | the default options are not clean, no job count, quiet, no profile and no extra arguments |
| Platform.FoundAt | drivers/generic/lib.rs:54 | a substring found at a position is contained |
| Platform.NotFound | drivers/generic/lib.rs:54 | a needle whose first character occurs nowhere it could start is not contained |
| Platform.DetectFromCompatible | drivers/generic/lib.rs:53-65 | the A527 is detected exactly when the string holds one of its two names, and Unknown exactly when it holds none of the five |
| Platform.DetectIsFirstMatch | drivers/generic/lib.rs:53-65 | detection is the first-match lookup over the five substrings in priority order |
| Platform.FirstMatchSound | drivers/generic/lib.rs:53-65 | the result is Unknown exactly when no substring occurs, and otherwise is the platform of a substring that does occur |
| Platform.EarlierRuleWins | drivers/generic/lib.rs:53-65 | when a substring occurs and no earlier one does, its platform is the result |
| Platform.DetectA527Examples | drivers/generic/lib.rs:72-81 | allwinner,sun55i-a527 and radxa,cubie-a5e are detected as the A527 |
| Platform.DetectUnknownExample | drivers/generic/lib.rs:82-85 | unknown-soc is Unknown |
| Bits.SetMask | drivers/common/soliloquy_hal/mmio.cc:20-23 | each bit of w \| mask is set exactly when it is set in the mask or in w |
| Bits.ClearMask | drivers/common/soliloquy_hal/mmio.cc:28-31 | each bit of w & ~mask is set exactly when it is clear in the mask and set in w |
| Bits.Mask | drivers/common/soliloquy_hal/mmio.cc:49 | each bit of w & mask is set exactly when it is set in both |
| Bits.Merge | drivers/common/soliloquy_hal/mmio.cc:37-41 | bits inside the mask come from the new value, all others from the old word |
| Bits.ShiftLeft | drivers/common/soliloquy_hal/mmio.cc:59 | bit k of v << shift is bit k - shift of v, and bits pushed past 31 are lost |
| Bits.ShiftRight | drivers/common/soliloquy_hal/mmio.cc:49 | bit k of v >> shift is bit k + shift of v |
| Bits.Extract | drivers/common/soliloquy_hal/mmio.cc:47-50 | bit k of the result is bit k + shift of the word when the mask has it, else clear |
| Bits.Insert | drivers/common/soliloquy_hal/mmio.cc:56-61 | inside the mask, bit k is bit k - shift of the value (clear below shift); outside it the word is kept |
| Bits.MergeExtremes | drivers/common/soliloquy_hal/mmio.cc:20-41 | setting bits is merging all ones; clearing bits is merging zero |
| Bits.MergeIdempotent | drivers/common/soliloquy_hal/mmio.cc:37-41 | applying the same modify twice equals applying it once |
| Bits.InsertExtract | drivers/common/soliloquy_hal/mmio.cc:47-61 | reading back a field just written gives the written value cut to the field's width, whatever the register held |
| Bits.ExtractInsert | drivers/common/soliloquy_hal/mmio.cc:47-61 | writing back a field just read leaves the register unchanged when the mask has no bit below the shift |
| Bits.TestBit | drivers/common/soliloquy_hal/mmio.cc:77 | a register masked with 1 << bit is nonzero exactly when that bit is set |
| Bits.FieldUpdate | drivers/common/soliloquy_hal/mmio.cc:56-61 | writing a field of width n at a shift replaces exactly those n bits by the low bits of the value |
| Bits.FieldRoundTrip | drivers/common/soliloquy_hal/mmio.cc:47-61 | a value that fits its field reads back unchanged after it is written |
| Bits.OrIntoClearedField | drivers/common/soliloquy_hal/mmio.cc:28-41 | OR-ing a fitting value into a cleared field equals merging it under the field's mask |
| Mmio.MmioBuffer.constructor | drivers/common/soliloquy_hal/mmio.cc:8-15 | the register bank starts with the given contents |
| Mmio.MmioBuffer.Read32 | drivers/common/soliloquy_hal/mmio.cc:8 | a register the bank holds reads its value, any other offset reads 0 |
| Mmio.MmioBuffer.Write32 | drivers/common/soliloquy_hal/mmio.cc:14 | the DDK write takes the value first and changes only the register at the offset |
| Mmio.MmioHelper.constructor | drivers/common/soliloquy_hal/mmio.h:15 | the helper wraps one register bank |
| Mmio.MmioHelper.Read32 | drivers/common/soliloquy_hal/mmio.cc:8 | the helper reads the bank's register at the offset, 0 where the bank holds none |
| Mmio.MmioHelper.ReadMasked32 | drivers/common/soliloquy_hal/mmio.cc:47-50 | bit k of the result is set exactly when bit k + shift is set in both the mask and the register |
| Mmio.MmioHelper.Write32 | drivers/common/soliloquy_hal/mmio.cc:13-15 | only the register at the offset changes, to the value |
| Mmio.MmioHelper.SetBits32 | drivers/common/soliloquy_hal/mmio.cc:20-23 | the register at the offset becomes its old value with the mask's bits set; nothing else changes |
| Mmio.MmioHelper.ClearBits32 | drivers/common/soliloquy_hal/mmio.cc:28-31 | the register at the offset becomes its old value with the mask's bits cleared; nothing else changes |
| Mmio.MmioHelper.ModifyBits32 | drivers/common/soliloquy_hal/mmio.cc:37-41 | the register's bits inside the mask are replaced by those of the value; nothing else changes |
| Mmio.MmioHelper.WriteMasked32 | drivers/common/soliloquy_hal/mmio.cc:56-61 | the shifted value is written into the field and the rest of the register is kept; reading the field back gives the value cut to the field's width |
| ClockReset.LinesApart | drivers/common/soliloquy_hal/clock_reset.cc:13-14 | two different lines of one bank never share both register and bit |
| ClockReset.SetLineEffect | drivers/common/soliloquy_hal/clock_reset.cc:16-18 | setting a line's bit sets that line and leaves every other line of the bank as it was |
| ClockReset.ClearLineEffect | drivers/common/soliloquy_hal/clock_reset.cc:32-34 | clearing a line's bit clears that line and leaves every other line of the bank as it was |
| ClockReset.GateBelowReset | drivers/common/soliloquy_hal/clock_reset.cc:13-45 | the gate registers of clocks 0 to 2047 lie below the reset registers, and clock 2048 aliases reset line 0 |
| ClockReset.ClockResetHelper.constructor | third_party/zircon_c/hal/clock_reset.h:11 | the helper holds a register bank that may be missing |
| ClockReset.ClockResetHelper.EnableClock | drivers/common/soliloquy_hal/clock_reset.cc:8-22 | a missing bank gives BAD_STATE; otherwise the clock's gate bit is set in register id/32*4 and OK returned |
| ClockReset.ClockResetHelper.DisableClock | drivers/common/soliloquy_hal/clock_reset.cc:24-38 | a missing bank gives BAD_STATE; otherwise the clock's gate bit is cleared and OK returned |
| ClockReset.ClockResetHelper.AssertReset | drivers/common/soliloquy_hal/clock_reset.cc:40-54 | a missing bank gives BAD_STATE; otherwise the line's bit in the reset bank at 0x100 is cleared (active low) |
| ClockReset.ClockResetHelper.DeassertReset | drivers/common/soliloquy_hal/clock_reset.cc:56-70 | a missing bank gives BAD_STATE; otherwise the line's reset bit is set |
| ClockReset.ClockResetHelper.SetClockRate | drivers/common/soliloquy_hal/clock_reset.cc:72-81 | a missing bank gives BAD_STATE, otherwise NOT_SUPPORTED |
| ClockReset.ClockResetHelper.GetClockRate | drivers/common/soliloquy_hal/clock_reset.cc:83-91 | a missing bank or output gives INVALID_ARGS with nothing stored; otherwise 0 is stored and NOT_SUPPORTED returned |
| ClockReset.ClockGateEffects | drivers/common/soliloquy_hal/clock_reset.cc:8-38 | enabling a clock below 2048 turns exactly that clock on and disabling turns exactly it off; no reset line changes |
| ClockReset.ResetLineEffects | drivers/common/soliloquy_hal/clock_reset.cc:40-70 | asserting puts exactly that line into reset and deasserting releases exactly that line |
| HalSdio.Plan | drivers/common/soliloquy_hal/sdio.cc:29-38 | one transaction per block, the count being the rounded-up block count; transaction i is chunk i |
| HalSdio.Issue | drivers/common/soliloquy_hal/sdio.cc:32-46 | the calls made are a prefix of the plan; every call before the last succeeded; OK exactly when the whole plan was issued and every call succeeded; otherwise the failing call's status |
| HalSdio.ChunkMatches | drivers/common/soliloquy_hal/sdio.cc:33-37 | the transaction the loop builds for block i is chunk i of the plan |
| HalSdio.IssueStep | drivers/common/soliloquy_hal/sdio.cc:37-43 | issuing from block i is call i alone when it fails, or call i and then the rest |
| HalSdio.SdioHelper.constructor | drivers/common/soliloquy_hal/sdio.h:17-30 | the helper starts with no calls made on the device |
| HalSdio.SdioHelper.ReadByte | drivers/common/soliloquy_hal/sdio.cc:12-17 | a null output gives INVALID_ARGS with no call; otherwise one byte read is issued and its status and byte returned |
| HalSdio.SdioHelper.WriteByte | drivers/common/soliloquy_hal/sdio.cc:19-21 | one byte write is issued and its status returned |
| HalSdio.SdioHelper.Transfer | drivers/common/soliloquy_hal/sdio.cc:29-46 | the calls and status are exactly those of issuing the chunk plan, stopping at the first failure |
| HalSdio.SdioHelper.ReadMultiBlock | drivers/common/soliloquy_hal/sdio.cc:23-47 | a null buffer or zero length gives INVALID_ARGS with no call; otherwise the chunk plan of reads is issued up to the first failure |
| HalSdio.SdioHelper.WriteMultiBlock | drivers/common/soliloquy_hal/sdio.cc:49-74 | a null buffer or zero length gives INVALID_ARGS with no call; otherwise the chunk plan of writes is issued up to the first failure |
| HalSdio.SdioHelper.DownloadFirmware | drivers/common/soliloquy_hal/sdio.cc:76-107 | size 0 gives INVALID_ARGS; a failed mapping passes its status on with no call; otherwise the image is written block by block at the base address |
| HalSdio.BlockCountIsCeiling | drivers/common/soliloquy_hal/sdio.cc:29 | without wrap-around the block count is the ceiling of len / 512 |
| HalSdio.ChunkSizes | drivers/common/soliloquy_hal/sdio.cc:33-35 | every chunk but the last is 512 bytes; the last holds the rest, 1 to 512 bytes |
| HalSdio.CoveredWholeBlocks | drivers/common/soliloquy_hal/sdio.cc:33-35 | n whole-block chunks cover n * 512 bytes |
| HalSdio.CoveredAppend | drivers/common/soliloquy_hal/sdio.cc:32-44 | the bytes covered by two runs of transactions add up |
| HalSdio.ChunksCoverLength | drivers/common/soliloquy_hal/sdio.cc:29-38 | the chunk sizes add up to exactly the requested length |
| HalSdio.ChunksAreContiguous | drivers/common/soliloquy_hal/sdio.cc:37-38 | chunks start at offset 0 and each starts where the previous ended, the device address moving with the offset |
| HalSdio.NearMaxLengthIssuesNothing | drivers/common/soliloquy_hal/sdio.cc:29 | a length within one block of the top of size_t wraps the block count to 0: nothing is issued and OK returned |
| HalSdio.TransferExamples | drivers/common/soliloquy_hal/tests/sdio_helper_test.cc:93-169 | 256 bytes are one transaction of 256; 1024 bytes at 0x7000 are two blocks at 0x7000 and 0x7200; a second-block failure returns its status after both calls |
| MockFirmware.Loader.constructor | drivers/wifi/aic8800/mock/src/firmware.rs:20-25 | a new loader has no images and no load counts |
| MockFirmware.Loader.AddFirmware | drivers/wifi/aic8800/mock/src/firmware.rs:27-31 | the image is stored under the name, replacing any earlier one; load counts are kept |
| MockFirmware.Loader.GetLoadCount | drivers/wifi/aic8800/mock/src/firmware.rs:51-54 | 0 for a name never loaded; a positive count belongs to a registered name |
| MockFirmware.Loader.LoadFirmware | drivers/wifi/aic8800/mock/src/firmware.rs:33-49 | an unregistered name is NotFound with nothing changed; otherwise a copy of the image is returned and that name's count, and only it, goes up by one |
| MockFirmware.Loader.Clear | drivers/wifi/aic8800/mock/src/firmware.rs:56-60 | every image and every count is dropped |
| MockFirmware.CreateTestFirmware | drivers/wifi/aic8800/mock/src/firmware.rs:62-64 | exactly size bytes, each equal to the pattern |
| MockFirmware.AicHeader | drivers/wifi/aic8800/mock/src/firmware.rs:66-81 | a 64-byte header: the magic AIC8800, version 1, then 64, 4096 and 0x100000 as little-endian words, then zeros |
| MockFirmware.CreateAic8800Firmware | drivers/wifi/aic8800/mock/src/firmware.rs:66-91 | the header, then the branch 90 00 00 EA, then 4092 bytes counting up modulo 256 |
| MockFirmware.AicFirmwareMagic | drivers/wifi/aic8800/mock/src/firmware.rs:148-154 | the built image is not empty and starts with AIC8800 |
| MockFirmware.LoaderScenario | drivers/wifi/aic8800/mock/src/firmware.rs:104-168 | a registered image loads back unchanged; three loads count three; an unknown name is NotFound; after clear the image is gone and its count is 0 |
| MockRegister.FlagWords | drivers/wifi/aic8800/mock/src/register.rs:34-50 | the 1 << k flag constants are the one-bit words for bits 0, 1, 2 and 31 |
| MockRegister.ValidIffNamed | drivers/wifi/aic8800/mock/src/register.rs:62-73 | an id is valid exactly when it has a name other than Unknown |
| MockRegister.MockIdsAreDriverIds | drivers/wifi/aic8800/mock/src/register.rs:62-73 | every id the register map accepts is supported by the driver, but the driver's D80 id is rejected and unnamed here |
| MockRegister.HasError | drivers/wifi/aic8800/mock/src/register.rs:79-81 | the status has an error exactly when its bit 31 is set |
| MockRegister.ChipIdToString | drivers/wifi/aic8800/mock/src/register.rs:62-69 | ids outside the three AIC8800 variants are named "Unknown"; the variants are named with the "AIC8800" prefix |
| MockRegister.IsValidChipId | drivers/wifi/aic8800/mock/src/register.rs:71-73 | a valid id lies in the AIC8800 family with a variant number below 3 |
| MockRegister.IsFwReady | drivers/wifi/aic8800/mock/src/register.rs:75-77 | a ready status is none of idle, downloading or error |
| MockRegister.RegisterMap.Read | drivers/wifi/aic8800/mock/src/register.rs:102-104 | a stored register reads its value, any other reads 0 |
| MockRegister.ErrorDetection | drivers/wifi/aic8800/mock/src/register.rs:183-188 | the error flag alone or with TX_DONE has the error; TX_DONE alone does not |
| MockRegister.SetIsModify | drivers/wifi/aic8800/mock/src/register.rs:110-123 | set_bits is modify_bits with the mask as the value |
| MockRegister.ClearIsModify | drivers/wifi/aic8800/mock/src/register.rs:115-123 | clear_bits is modify_bits with value 0 |
| MockRegister.SetClearIdempotent | drivers/wifi/aic8800/mock/src/register.rs:110-118 | setting or clearing the same bits twice equals doing it once |
| MockRegister.LastWins | drivers/wifi/aic8800/mock/src/register.rs:110-118 | clear then set is set, and set then clear is clear |
| MockRegister.RegisterMap.constructor | drivers/wifi/aic8800/mock/src/register.rs:89-100 | a new map holds exactly chip id 0x88000001, revision 2, firmware idle and block size 512 |
| MockRegister.RegisterMap.Write | drivers/wifi/aic8800/mock/src/register.rs:106-108 | only the written register changes, and it reads back the value |
| MockRegister.RegisterMap.SetBits | drivers/wifi/aic8800/mock/src/register.rs:110-113 | the register becomes its old value with the mask's bits set; nothing else changes |
| MockRegister.RegisterMap.ClearBits | drivers/wifi/aic8800/mock/src/register.rs:115-118 | the register becomes its old value with the mask's bits cleared; nothing else changes |
| MockRegister.RegisterMap.ModifyBits | drivers/wifi/aic8800/mock/src/register.rs:120-123 | the mask's bits come from the value and the rest from the old register; nothing else changes |
| MockRegister.RegisterMapScenario | drivers/wifi/aic8800/mock/src/register.rs:152-160 | a new map reads the DC chip id, which is valid and named, 0 at an unset register, and a written value back |
| MockSdio.Peek | drivers/wifi/aic8800/mock/src/sdio.rs:114-121 | the n bytes read from an address on, wrapping at 2^32, unwritten bytes reading 0 |
| MockSdio.AddrDistinct | drivers/wifi/aic8800/mock/src/sdio.rs:118-142 | fewer than 2^32 bytes apart, wrapped addresses differ |
| MockSdio.AddrShift | drivers/wifi/aic8800/mock/src/sdio.rs:142 | stepping i then j bytes is stepping i + j |
| MockSdio.PokeAt | drivers/wifi/aic8800/mock/src/sdio.rs:141-144 | after storing at most 2^32 bytes, the k-th address holds the k-th byte |
| MockSdio.PokeOutside | drivers/wifi/aic8800/mock/src/sdio.rs:141-144 | a store leaves every address it does not reach unchanged |
| MockSdio.PokeConcat | drivers/wifi/aic8800/mock/src/sdio.rs:141-144 | storing two runs back to back equals storing their concatenation |
| MockSdio.ReadAfterWrite | drivers/wifi/aic8800/mock/src/sdio.rs:104-150 | reading back the bytes just written over the same length returns them |
| MockSdio.BlocksCover | drivers/wifi/aic8800/mock/src/sdio.rs:160-165 | every block index below the count starts inside the image, and when the count does not wrap the blocks together cover it |
| MockSdio.BlocksWrap | drivers/wifi/aic8800/mock/src/sdio.rs:160 | the usize block count is the rounded-up quotient when the sum does not wrap, and zero, for a non-empty image, when it does |
| MockSdio.BlockAddrIsAddr | drivers/wifi/aic8800/mock/src/sdio.rs:166 | the truncated block address equals the wrapped address at the block's offset |
| MockSdio.ModOfSum | drivers/wifi/aic8800/mock/src/sdio.rs:166 | reducing the offset to 32 bits first does not change the wrapped sum |
| MockSdio.ModPlusMultiple | drivers/wifi/aic8800/mock/src/sdio.rs:166 | adding a multiple of 2^32 does not change the wrapped address |
| MockSdio.BlocksFacts | drivers/wifi/aic8800/mock/src/sdio.rs:160-162 | when the count does not wrap, an image has no blocks exactly when it is empty, and all its blocks cover exactly its length |
| MockSdio.DownloadLogAt | drivers/wifi/aic8800/mock/src/sdio.rs:162-171 | entry k of a download's log is the write of block k at its address, stamped one after the previous |
| MockSdio.DownloadStep | drivers/wifi/aic8800/mock/src/sdio.rs:162-171 | writing block b after the blocks before it stores the image up to the end of block b |
| MockSdio.ChunkLength | drivers/wifi/aic8800/mock/src/sdio.rs:163-165 | every block but the last is a full block and the last holds the rest |
| MockSdio.WholeImageWhenNoWrap | drivers/wifi/aic8800/mock/src/sdio.rs:160-172 | when the block count does not wrap, all the blocks together store the whole image |
| MockSdio.NothingWhenWrap | drivers/wifi/aic8800/mock/src/sdio.rs:160-172 | when the block count wraps there are no blocks, so the download stores and logs nothing |
| MockSdio.Device.constructor | drivers/wifi/aic8800/mock/src/sdio.rs:34-43 | a new device has empty memory and log, block size 512, is not initialised and has no failure armed |
| MockSdio.Device.Initialize | drivers/wifi/aic8800/mock/src/sdio.rs:45-50 | always succeeds and marks the device initialised |
| MockSdio.Device.SetBlockSize | drivers/wifi/aic8800/mock/src/sdio.rs:52-60 | NotInitialized before initialise with the size kept; otherwise any usize, zero included, is stored |
| MockSdio.Device.GetBlockSize | drivers/wifi/aic8800/mock/src/sdio.rs:62-64 | the block size last set, 512 until then |
| MockSdio.Device.Record | drivers/wifi/aic8800/mock/src/sdio.rs:198-211 | the counter goes up by one and the transfer is logged with the new count; log timestamps stay strictly increasing |
| MockSdio.Device.ReadByte | drivers/wifi/aic8800/mock/src/sdio.rs:66-83 | NotInitialized with nothing changed; an armed failure gives TransferError and disarms; otherwise the stored byte (0 if unwritten), logged as a one-byte read |
| MockSdio.Device.WriteByte | drivers/wifi/aic8800/mock/src/sdio.rs:85-102 | the same gates; otherwise only that byte of memory changes and a one-byte write is logged |
| MockSdio.Device.ReadMultiBlock | drivers/wifi/aic8800/mock/src/sdio.rs:104-127 | the same gates; otherwise the bytes from the address on, wrapping at 2^32, logged as one read; memory unchanged |
| MockSdio.Device.WriteMultiBlock | drivers/wifi/aic8800/mock/src/sdio.rs:129-150 | the same gates; otherwise the bytes are stored in order from the address on, wrapping, and one write is logged |
| MockSdio.Device.WriteBlock | drivers/wifi/aic8800/mock/src/sdio.rs:163-168 | block b of the image is written at the base plus its offset, under the same gates |
| MockSdio.Device.DownloadBlock | drivers/wifi/aic8800/mock/src/sdio.rs:163-172 | one pass of the download loop: after block b is written the memory holds the image up to the end of block b, the counter has advanced once and the log gained that block's write; an armed failure changes nothing but the flag |
| MockSdio.Device.DownloadFirmware | drivers/wifi/aic8800/mock/src/sdio.rs:152-175 | NotInitialized with nothing changed; an armed failure fails the first block whenever the usize block count is non-zero; otherwise memory holds, from the base on, the part of the image the block count covers and the log gains one write per block; with no blocks (an empty image, or a wrapping count) nothing is written and the failure stays armed |
| MockSdio.Device.FailNextOperation | drivers/wifi/aic8800/mock/src/sdio.rs:177-179 | a failure is armed for the next operation |
| MockSdio.Device.ClearMemory | drivers/wifi/aic8800/mock/src/sdio.rs:181-184 | every address reads 0 again |
| MockSdio.Device.ClearTransactions | drivers/wifi/aic8800/mock/src/sdio.rs:194-196 | the log is emptied; the counter keeps running |
| MockSdio.Device.GetMemorySnapshot | drivers/wifi/aic8800/mock/src/sdio.rs:186-188 | a copy of the whole memory |
| MockSdio.Device.GetTransactions | drivers/wifi/aic8800/mock/src/sdio.rs:190-192 | a copy of the log, oldest first, whose timestamps strictly rise |
| MockSdio.Device.VerifyFirmwareAt | drivers/wifi/aic8800/mock/src/sdio.rs:213-230 | true exactly when the bytes from the address on equal the expected bytes |
| MockSdio.ErrorRecoveryScenario | drivers/wifi/aic8800/mock/src/sdio.rs:291-301 | operations before initialise are refused; an armed failure fails exactly the next operation and the one after reads the written byte |
| MockSdio.MultiBlockScenario | drivers/wifi/aic8800/mock/src/sdio.rs:267-277 | an unwritten address reads 0 and a five-byte write reads back unchanged |
| MockSdio.TransactionHistoryScenario | drivers/wifi/aic8800/mock/src/sdio.rs:303-315 | writes and reads are logged in order with rising timestamps |
| MockSdio.FirmwareDownloadScenario | drivers/wifi/aic8800/mock/src/sdio.rs:279-289 | a 1024-byte image in 512-byte blocks takes two writes, verifies and reads back whole |
| MockSdio.EmptyDownloadScenario | drivers/wifi/aic8800/mock/src/sdio.rs:152-175 | an empty download writes nothing, so an armed failure still fails the next read |
| MockSdio.NearMaxBlockSizeScenario | drivers/wifi/aic8800/mock/src/sdio.rs:52-175 | with the block size set to 2^64 - 1 a two-byte download reports success, writes nothing and logs nothing |
| Gpio.PullCode | drivers/generic/gpio.rs:127-131 | the pull codes fit two bits, and only no pull is 0 |
| Gpio.GpioBank.constructor | drivers/generic/gpio.rs:43-50 | a new bank has the given registers and pin count, pin offset 0 and one bit per pin |
| Gpio.GpioBank.WithConfig | drivers/generic/gpio.rs:53-65 | a configured bank keeps the given pin count, pin offset and bits per pin |
| Gpio.GpioBank.ValidatePin | drivers/generic/gpio.rs:83-89 | OK exactly for pins below the bank's pin count, otherwise InvalidParam |
| Gpio.GpioBank.ModifyRegister | drivers/generic/gpio.rs:77-81 | the register at the offset gets the mask's bits from the value and keeps the rest; no other register changes |
| Gpio.GpioBank.Configure | drivers/generic/gpio.rs:101-136 | an invalid pin gives InvalidParam with nothing changed; otherwise direction, the output's initial level, then the two-bit pull field are written |
| Gpio.GpioBank.Read | drivers/generic/gpio.rs:138-142 | an invalid pin gives InvalidParam; otherwise the pin's bit of the data register |
| Gpio.GpioBank.Write | drivers/generic/gpio.rs:144-153 | an invalid pin gives InvalidParam with nothing changed; otherwise the pin's data bit is set or cleared |
| Gpio.GpioBank.Toggle | drivers/generic/traits.rs:117-120 | an invalid pin gives InvalidParam with nothing changed; otherwise the pin is written with the opposite of its level |
| Gpio.GpioBank.SetAltFunction | drivers/generic/gpio.rs:155-168 | an invalid pin gives InvalidParam with nothing changed; otherwise the low nibble of the function goes into the pin's four-bit field of register (pin/8)*4 |
| Gpio.BankWriteEffect | drivers/generic/gpio.rs:144-153 | writing a pin sets its level to the value and changes no other data bit and no other register |
| Gpio.BankToggleTwice | drivers/generic/gpio.rs:144-153 | toggling inverts the level, and toggling twice restores the registers |
| Gpio.ConfigureDirection | drivers/generic/gpio.rs:106-120 | the direction bit is set exactly for an output; other direction bits are unchanged |
| Gpio.ConfigureLevel | drivers/generic/gpio.rs:111-119 | an output starts at its initial level; configuring an input leaves the data register unchanged; no other pin's level changes |
| Gpio.ConfigurePull | drivers/generic/gpio.rs:122-133 | the pin's two-bit pull field reads back the pull code and every other bit of that register is kept |
| Gpio.PullShiftFits | drivers/generic/gpio.rs:124 | the pull field fits in the register |
| Gpio.PullField | drivers/generic/gpio.rs:124-133 | a two-bit code written into its field reads back and every bit outside is kept |
| Gpio.ConfigureFrame | drivers/generic/gpio.rs:101-136 | configure touches only the data, direction and pull registers, and the pull register is neither of the other two |
| Gpio.HighPinPullIsInterruptEnable | drivers/generic/gpio.rs:124-133 | the pull fields of pins 16 to 31 are written at 0x20, the interrupt-enable register |
| Gpio.AltFunctionEffect | drivers/generic/gpio.rs:160-165 | the low nibble of the function reads back from the pin's field; every other bit and register is kept |
| Gpio.AltFunctionSharesData | drivers/generic/gpio.rs:160-165 | the alt-function registers of pins 0-15 are the data and direction registers, so selecting a function for pin p < 8 sets the levels of pins 4p to 4p+3 |
| Gpio.AltLayout | drivers/generic/gpio.rs:160-161 | pins below 8 use register 0 at shift 4p, pins 8 to 15 register 4 |
| Gpio.NibbleField | drivers/generic/gpio.rs:162-165 | bit j of a nibble field set to a function is bit j of the function |
| Gpio.GpioController.constructor | drivers/generic/gpio.rs:179-184 | a new controller has no banks |
| Gpio.GpioController.AddBank | drivers/generic/gpio.rs:190-192 | a new bank with no offset is appended and the existing banks are kept |
| Gpio.GpioController.PinCount | drivers/generic/gpio.rs:216-218 | the sum of the banks' pin counts, wrapping in u32 |
| Gpio.GpioController.Route | drivers/generic/gpio.rs:194-212 | the pin goes to bank pin / pins_per_bank as pin % pins_per_bank; a missing bank is InvalidParam |
| Gpio.GpioController.Read | drivers/generic/gpio.rs:225-228 | a missing bank gives InvalidParam; otherwise the routed bank's read |
| Gpio.GpioController.Write | drivers/generic/gpio.rs:230-233 | a missing bank gives InvalidParam with nothing changed; otherwise the routed bank's write, no other bank changing |
| Gpio.GpioController.Configure | drivers/generic/gpio.rs:220-223 | a missing bank gives InvalidParam with nothing changed; otherwise the routed bank's configure, no other bank changing |
| Gpio.GpioController.SetAltFunction | drivers/generic/gpio.rs:235-238 | a missing bank gives InvalidParam with nothing changed; otherwise the routed bank's alt-function write, no other bank changing |
| Gpio.TotalPinsUniform | drivers/generic/gpio.rs:216-218 | banks of n pins each hold n times their number together |
| Gpio.ControllerCoversPinCount | drivers/generic/gpio.rs:194-218 | with uniform banks and no wrap-around, a pin is routed exactly when it is below the pin count |
| Gpio.RoutedPinIsValid | drivers/generic/gpio.rs:194-228 | with uniform banks a routed pin is valid in its bank, so reading it succeeds |
| Gpio.DivBelow | drivers/generic/gpio.rs:195 | x / n < m exactly when x < m * n |
| Gpio.AllwinnerGpio.constructor | drivers/generic/gpio.rs:263-268 | the PIO block has the given registers and bank count |
| Gpio.AllwinnerGpio.PinCount | drivers/generic/gpio.rs:316-318 | the pin count is a whole number of 32-pin banks, the bank count times 32 when that fits in 32 bits |
| Gpio.AllwinnerGpio.Validate | drivers/generic/gpio.rs:290-299 | OK exactly when the pin's bank exists, giving bank pin/32 and pin pin%32; otherwise InvalidParam |
| Gpio.AllwinnerGpio.Configure | drivers/generic/gpio.rs:320-367 | an invalid pin gives InvalidParam with nothing changed; otherwise the function field, then the output level, then the pull field are written |
| Gpio.AllwinnerGpio.Read | drivers/generic/gpio.rs:369-373 | an invalid pin gives InvalidParam; otherwise the pin's bit of its bank's data register |
| Gpio.AllwinnerGpio.Write | drivers/generic/gpio.rs:375-387 | an invalid pin gives InvalidParam with nothing changed; otherwise only the pin's data bit is set or cleared |
| Gpio.AllwinnerGpio.SetAltFunction | drivers/generic/gpio.rs:389-408 | an invalid pin gives InvalidParam with nothing changed; otherwise the low nibble of the function goes into the pin's configuration field |
| Gpio.AwValidExactlyBelowPinCount | drivers/generic/gpio.rs:290-318 | without wrap-around a pin is valid exactly when it is below bank_count * 32 |
| Gpio.AwRegistersDistinct | drivers/generic/gpio.rs:270-288 | without wrap-around, registers of different banks or offsets are different registers |
| Gpio.AwWriteEffect | drivers/generic/gpio.rs:375-387 | writing a pin sets its level and changes no other bit or register |
| Gpio.OrFieldIsMerge | drivers/generic/gpio.rs:340-364 | the driver's clear-then-OR update is a masked merge when the value fits its field |
| Gpio.AwConfigureEffect | drivers/generic/gpio.rs:320-367 | the configuration field reads back the direction code, the pull field the pull code, and an output starts at its initial level |
| Gpio.AwAltFunctionEffect | drivers/generic/gpio.rs:389-408 | the configuration field reads back the function's low nibble; every other bit and register is kept |
| Clock.IndexOf | drivers/generic/clock.rs:89-94 | the position of the first clock with the identifier, or None exactly when no clock has it |
| Clock.GatesDistinct | drivers/generic/clock.rs:131-145 | two different clock identifiers never share a gate bit |
| Clock.DividerRegistersOverlap | drivers/generic/clock.rs:38-42 | the divider register of clock 0 is the gate register of clocks 32-63 and that of clock 1 is CLK_SEL |
| Clock.GateWrite | drivers/generic/clock.rs:106-146 | the read-modify-write of a gate bit sets or clears that clock's gate and keeps every other clock's |
| Clock.SetGateGrows | drivers/generic/clock.rs:131-134 | setting a gate bit clears no bit of any register |
| Clock.EnableEffect | drivers/generic/clock.rs:123-138 | enable only ever turns clocks and gate bits on, keeps rates and parents, and when it fails it has changed nothing and reports NotFound |
| Clock.ChainEnabledGrows | drivers/generic/clock.rs:123-138 | turning further clocks and bits on keeps an enabled parent chain enabled |
| Clock.EnableFailsIffChainBroken | drivers/generic/clock.rs:123-129 | enable fails exactly when some clock on the parent chain is not registered |
| Clock.EnableReachesRoot | drivers/generic/clock.rs:123-138 | after a successful enable the clock and every ancestor are enabled with their gate bits set |
| Clock.SelfParentNeverEnds | drivers/generic/clock.rs:127-129 | a clock that set_parent made its own parent has a parent chain that never ends, so enable would recurse without bound |
| Clock.RegisterLookup | drivers/generic/clock.rs:79-94 | after registering, an identifier already present still resolves to its first registration, and a new one to the appended clock |
| Clock.TargetRate | drivers/generic/clock.rs:166-167 | the target lies in the clock's range, equals the request inside it, and is the nearer bound outside it |
| Clock.SetRateMeetsTarget | drivers/generic/clock.rs:112-119 | when the source is at least the target and the ratio fits u32, the divider is source / target and the rate set lies between the target and the source rate |
| Clock.SetRateCanExceedMax | drivers/generic/clock.rs:166-178 | a 100 Hz source with range [1, 30] and request 30 gives divider 3 and rate 33, above the maximum |
| Clock.DividerTruncates | drivers/generic/clock.rs:117-118 | the u32 cast makes the divider 0 for a ratio of 2^32 and 5 for 2^32 + 5 |
| Clock.RateOf | drivers/generic/clock.rs:157-160 | the recorded rate of a registered clock; NotFound exactly when the clock is unregistered |
| Clock.GenericClockController.constructor | drivers/generic/clock.rs:69-76 | a new controller has no clocks, the given registers and the given input rate |
| Clock.GenericClockController.RegisterClock | drivers/generic/clock.rs:79-87 | the descriptor is appended with a disabled state at its default rate and its parent; registers are untouched |
| Clock.GenericClockController.FindClockIdx | drivers/generic/clock.rs:89-94 | the linear scan returns the first matching index, or NotFound |
| Clock.GenericClockController.Enable | drivers/generic/clock.rs:123-138 | the new state, registers and result are those of the recursive enable specification |
| Clock.GenericClockController.Disable | drivers/generic/clock.rs:140-150 | an unregistered clock gives NotFound with nothing changed; otherwise only its gate bit is cleared and only its state is marked disabled, parents stay on |
| Clock.GenericClockController.IsEnabled | drivers/generic/clock.rs:152-155 | succeeds exactly for registered clocks, returning the recorded enabled flag of the first clock with that id, NotFound otherwise |
| Clock.GenericClockController.GetRate | drivers/generic/clock.rs:157-160 | a registered clock gives its recorded rate, any other clock NotFound |
| Clock.GenericClockController.SetRate | drivers/generic/clock.rs:162-186 | NotFound for an unregistered clock or parent with nothing changed; otherwise the clamped target, the parent's rate or the input rate, and a non-zero divider whose divider - 1 is written and whose quotient is recorded and returned |
| Clock.GenericClockController.GetParent | drivers/generic/clock.rs:188-191 | succeeds exactly for registered clocks, returning the recorded parent of the first clock with that id (the one set_parent stores), NotFound otherwise |
| Clock.GenericClockController.SetParent | drivers/generic/clock.rs:193-201 | both clocks must be registered, else NotFound with nothing changed; otherwise only the recorded parent changes and no register is written |
| Clock.PllRateFormula | drivers/generic/clock.rs:285-294 | without u64 wrap-around the PLL rate is hosc * (N + 1) / ((M + 1) * (P + 1)) with N, M, P read from bits 8-15, 0 and 16-17 |
| Clock.PllFields | drivers/generic/clock.rs:288-290 | the three PLL fields are bits 8-15, bit 0 and bits 16-17 of the register read as numbers |
| Clock.CcuPllRate | drivers/generic/clock.rs:260-294 | with the 24 MHz crystal the PLL formula holds for every register value |
| Clock.PllRate | drivers/generic/clock.rs:287-294 | a PLL never runs faster than 256 times its input |
| Clock.CcuGate | drivers/generic/clock.rs:382-390 | every gate bit the CCU maps a clock to is below 32 |
| Clock.CcuGatesDistinct | drivers/generic/clock.rs:382-390 | two different supported clocks never share a gate register and bit |
| Clock.CcuGateOn | drivers/generic/clock.rs:408-418 | NotSupported exactly for clocks without a gate; otherwise the gate bit |
| Clock.WriteBitEffect | drivers/generic/clock.rs:310-332 | setting or clearing one bit is read back for that bit and changes no other bit of any register |
| Clock.CcuGateRoundTrip | drivers/generic/clock.rs:380-418 | after enable or disable of a supported clock, is_enabled reads back the new state and every other clock reads as before |
| Clock.ScanTo | drivers/generic/clock.rs:356-365 | the best choice held part-way through the loops has N below 4, M field below 15 and a rate not above the target |
| Clock.MmcDivider | drivers/generic/clock.rs:350-365 | the final choice has N below 4, M field below 15 and a rate not above the target |
| Clock.ScanToIsBest | drivers/generic/clock.rs:356-365 | part-way through the loops the choice is the best among the pairs tried so far |
| Clock.TryKeepsBest | drivers/generic/clock.rs:358-363 | trying one more pair extends a best choice to include it |
| Clock.NextRowKeepsBest | drivers/generic/clock.rs:356-357 | moving to the next N keeps the best choice |
| Clock.MmcDividerIsBest | drivers/generic/clock.rs:350-365 | the search finds the largest rate not above the target over every pair, at the first pair giving it, and (0, 0) with rate 0 when every pair overshoots |
| Clock.MmcTargetTooLow | drivers/generic/clock.rs:352-373 | when every pair overshoots the target the register gets the undivided source, 0x81000000, while rate 0 is reported |
| Clock.EnableAndSourceBits | drivers/generic/clock.rs:368-369 | the enable and source bits make 0x81000000 |
| Clock.DividerNBits | drivers/generic/clock.rs:370 | N shifted by 8 is N * 256 and occupies bits 8-9 only |
| Clock.MmcClockWordFields | drivers/generic/clock.rs:367-371 | for fields that fit, the module-clock word is 0x81000000 + N * 256 + M |
| Clock.BestDivider | drivers/generic/clock.rs:350-365 | the nested loops return exactly the best choice of the specification |
| Clock.AllwinnerCcu.constructor | drivers/generic/clock.rs:260-273 | a new CCU uses the 24 MHz and 32.768 kHz crystals |
| Clock.AllwinnerCcu.CpuPllRate | drivers/generic/clock.rs:297-300 | the CPU PLL rate is the PLL formula of the PLL_CPU register: hosc * (N + 1) / ((M + 1) * (P + 1)) while hosc * 256 fits in 64 bits, and never above 256 times hosc |
| Clock.AllwinnerCcu.Periph0PllRate | drivers/generic/clock.rs:303-308 | PERIPH0 runs at an even rate, exactly twice the PLL formula's when that cannot wrap |
| Clock.AllwinnerCcu.EnableBusGate | drivers/generic/clock.rs:311-314 | only the bit of the gate register is set |
| Clock.AllwinnerCcu.DisableBusGate | drivers/generic/clock.rs:317-320 | only the bit of the gate register is cleared |
| Clock.AllwinnerCcu.AssertReset | drivers/generic/clock.rs:323-326 | only the bit of the reset register is cleared |
| Clock.AllwinnerCcu.DeassertReset | drivers/generic/clock.rs:329-332 | only the bit of the reset register is set |
| Clock.AllwinnerCcu.ConfigureMmcClock | drivers/generic/clock.rs:335-376 | an index above 2 gives InvalidParam with nothing written; otherwise the module-clock register gets the word of the best divider pair for the PERIPH0 rate and that pair's rate is returned |
| Clock.AllwinnerCcu.Enable | drivers/generic/clock.rs:380-394 | an unmapped clock gives NotSupported with nothing changed; otherwise its gate bit is set |
| Clock.AllwinnerCcu.Disable | drivers/generic/clock.rs:396-406 | an unmapped clock gives NotSupported with nothing changed; otherwise its gate bit is cleared |
| Clock.AllwinnerCcu.IsEnabled | drivers/generic/clock.rs:408-419 | a clock without a gate gives NotSupported; otherwise the result is the gate bit of its register |
| Clock.AllwinnerCcu.GetRate | drivers/generic/clock.rs:420-431 | get_rate never fails |
| Clock.AllwinnerCcu.SetRate | drivers/generic/clock.rs:433-439 | only MMC clocks 128-130 are set, as configure_mmc_clock of index clock - 128; every other clock gives NotSupported with nothing changed |
| Clock.AllwinnerCcu.GetParent | drivers/generic/clock.rs:441-444 | every clock reports PERIPH0 (clock 4) as its parent |
| Clock.AllwinnerCcu.SetParent | drivers/generic/clock.rs:446-449 | changing a parent is never supported |
| Uart.RegisterIndex | drivers/generic/uart.rs:106-116 | while the shifted offset fits in 32 bits, a word-aligned offset lands on word offset / 4 * 2^shift |
| Uart.RegistersDistinct | drivers/generic/uart.rs:106-116 | for every register shift up to 27 the six registers occupy six distinct words spaced 2^shift apart |
| Uart.ReportsIsRaised | drivers/generic/uart.rs:146-154 | testing a status bit by position is testing it with its mask |
| Uart.DivisorRounds | drivers/generic/uart.rs:118-123 | without wrap-around the divisor is clock / (16 * baud) rounded to nearest, or 0xFFFF when that is larger |
| Uart.CalcDivisor | drivers/generic/uart.rs:119-123 | a clock slower than 8 times the baud rate gives divisor 0, when 16 times the baud rate fits in 32 bits; the result is cut to 16 bits |
| Uart.RoundedQuotient | drivers/generic/uart.rs:121 | the division in `calc_divisor` never exceeds the dividend, and gives 0 when the dividend `clock + 8 * baud` is below the unit `16 * baud` |
| Uart.DivisorExamples | drivers/generic/uart.rs:369-379 | a 24 MHz clock gives 13 for 115200 baud and 156 for 9600 baud |
| Uart.DivisorLow | drivers/generic/uart.rs:132 | the DLL byte is the divisor modulo 256 |
| Uart.DivisorHigh | drivers/generic/uart.rs:133 | the DLH byte is the divisor divided by 256 |
| Uart.DivisorLatches | drivers/generic/uart.rs:131-133 | the two latch values are bytes and put the divisor back together |
| Uart.LineControl | drivers/generic/uart.rs:189-213 | None exactly for data bits outside 5-8 or stop bits other than 1 and 2; otherwise bits 0-1 are data bits minus 5, bit 2 two stop bits, bit 3 any parity, bit 4 even parity, and no other bit |
| Uart.LineControlRoundTrip | drivers/generic/uart.rs:189-215 | an accepted configuration's line-control word decodes back to the requested data bits, stop bits and parity, with DLAB clear |
| Uart.LineWordReadsBack | drivers/generic/uart.rs:189-213 | any word with exactly the line-control bits of a configuration decodes back to it, with DLAB clear |
| Uart.WordLengthField | drivers/generic/uart.rs:46-49 | the word-length field reads back the number its two low bits spell |
| Uart.ModemControl | drivers/generic/uart.rs:223-228 | the modem-control word raises bit 0 and bit 1, and bit 5 exactly with flow control |
| Uart.ModemControlRaises | drivers/generic/uart.rs:223-229 | DTR and RTS are always raised, AUTOFLOW exactly when flow control is on |
| Uart.ConfigureLatchesDivisor | drivers/generic/uart.rs:181-187 | configure first writes IER = 0, then loads LCR, sets DLAB, writes the low and high divisor bytes that make up the calculated divisor, and restores the LCR value it read |
| Uart.ConfigureRejects | drivers/generic/uart.rs:192-206 | configure fails with InvalidParam exactly for bad data or stop bits, and then only after the divisor is programmed |
| Uart.ConfigureProgramsLine | drivers/generic/uart.rs:209-231 | a successful configure ends with the line-control word of the framing asked for (DLAB clear), the FIFO setup, and DTR/RTS with AUTOFLOW exactly under flow control |
| Uart.DefaultLine | drivers/generic/uart.rs:381-389 | the default 115200 8N1 configuration is accepted with line control 0x03 and modem control 0x03 |
| Uart.Poll | drivers/generic/uart.rs:268-271 | the poll loop makes one LSR load per unit of budget spent plus one, and never gains budget |
| Uart.PollStops | drivers/generic/uart.rs:268-271 | the poll loop makes only LSR loads, stops at the first one that sees the bit, or at the one that finds the budget spent |
| Uart.PollSucceedsIff | drivers/generic/uart.rs:268-276 | budget is left exactly when one of the first budget polls sees the bit |
| Uart.LastPollIgnored | drivers/generic/uart.rs:268-276 | a bit first seen on poll budget + 1 is still reported as a timeout |
| Uart.Transmit | drivers/generic/uart.rs:234-247 | write ends in Ok or Timeout |
| Uart.TransmitStores | drivers/generic/uart.rs:234-247 | the bytes stored are a prefix of the data: all of it on success and a proper prefix on timeout |
| Uart.TransmitWaits | drivers/generic/uart.rs:234-245 | every store write makes goes to THR right after an LSR poll that saw the holding register empty |
| Uart.TransmitToReadyDevice | drivers/generic/uart.rs:234-247 | a device that is always ready takes all the data with one poll and one store per byte |
| Uart.TransmitGivesUp | drivers/generic/uart.rs:236-243 | a holding register full throughout the budget makes write time out after budget + 1 polls with nothing stored |
| Uart.Receive | drivers/generic/uart.rs:249-260 | read never returns more bytes than the buffer holds |
| Uart.ReceiveShape | drivers/generic/uart.rs:249-260 | read makes one poll and one RBR load per byte, plus one last poll that saw no data exactly when it stops short |
| Uart.ReceiveReadsReady | drivers/generic/uart.rs:251-254 | each returned byte is the low byte of an RBR load made right after a poll that saw data ready |
| Uart.ReceiveFills | drivers/generic/uart.rs:249-260 | an always-ready device fills the buffer; a never-ready one returns nothing |
| Uart.FlushSucceedsIff | drivers/generic/uart.rs:266-277 | flush succeeds exactly when one of its first million polls sees the transmitter empty |
| Uart.GenericUart.constructor | drivers/generic/uart.rs:98-104 | a new driver keeps the clock, the register shift and the device, with no access made |
| Uart.GenericUart.ReadReg | drivers/generic/uart.rs:106-110 | one load of word (offset << shift) / 4, answered by the device |
| Uart.GenericUart.WriteReg | drivers/generic/uart.rs:112-116 | one store to word (offset << shift) / 4 |
| Uart.GenericUart.SetDivisor | drivers/generic/uart.rs:125-137 | the accesses are: load LCR, store it with DLAB, store the two divisor bytes, restore LCR |
| Uart.GenericUart.Configure | drivers/generic/uart.rs:181-232 | the accesses and result are those of the configure specification |
| Uart.GenericUart.InitDefault | drivers/generic/uart.rs:139-142 | the default configuration is programmed and succeeds |
| Uart.GenericUart.TxReady | drivers/generic/uart.rs:144-148 | one LSR load; true exactly when it reports the holding register empty |
| Uart.GenericUart.RxReady | drivers/generic/uart.rs:150-154 | one LSR load; true exactly when it reports data ready |
| Uart.GenericUart.TryReadByte | drivers/generic/uart.rs:170-177 | a one-byte read: a byte exactly when the poll saw data, and then it is the low byte of the RBR load |
| Uart.GenericUart.Available | drivers/generic/uart.rs:262-264 | one LSR load; 1 exactly when data is ready, which is the length a one-byte read would return |
| Uart.GenericUart.Write | drivers/generic/uart.rs:234-247 | the accesses are those of the write specification, and the result is the data length or Timeout |
| Uart.GenericUart.WaitTxReady | drivers/generic/uart.rs:236-243 | the wait either ends write with Timeout or leaves it to store byte i and go on with the next byte |
| Uart.GenericUart.ReadOne | drivers/generic/uart.rs:251-257 | one poll; with data ready one RBR load whose low byte is stored at the next position of the buffer, nothing else of the buffer changes |
| Uart.GenericUart.Read | drivers/generic/uart.rs:249-260 | the accesses are those of the read specification; the front of the buffer receives the bytes read, the rest is unchanged, and their count is returned |
| Uart.GenericUart.Flush | drivers/generic/uart.rs:266-277 | the accesses and result are those of the flush specification |
| Uart.Expand | drivers/generic/uart.rs:322-330 | every line feed sent is preceded by a carriage return |
| Uart.CollapseExpand | drivers/generic/uart.rs:322-330 | dropping the inserted carriage returns gives the string back |
| Uart.HexDigit | drivers/generic/uart.rs:336-341 | the character printed for a nibble is a hexadecimal digit whose value is the nibble |
| Uart.NibbleValue | drivers/generic/uart.rs:336 | nibble i is digit i of the value in base 16 |
| Uart.HexDigits | drivers/generic/uart.rs:335-343 | j digits are printed, each a hexadecimal digit |
| Uart.ParseHexDigits | drivers/generic/uart.rs:335-343 | the first j digits printed spell the value divided by 16^(8 - j) |
| Uart.HexRoundTrip | drivers/generic/uart.rs:332-344 | put_hex prints "0x" and eight hexadecimal digits that spell the value |
| Uart.EarlyConsole.constructor | drivers/generic/uart.rs:296-301 | a new console has the given register shift and has sent nothing |
| Uart.EarlyConsole.Putc | drivers/generic/uart.rs:315-320 | the byte is sent |
| Uart.EarlyConsole.Puts | drivers/generic/uart.rs:322-330 | the string is sent with a carriage return before each line feed |
| Uart.EarlyConsole.PutHex | drivers/generic/uart.rs:332-344 | the hexadecimal text of the value is sent |
| UiInput.SetBit | gen/fidl/fuchsia_ui_input/src/lib.rs:143-149 | bits \|= 1 << k sets bit k and keeps every other bit |
| UiInput.ModifierBits | gen/fidl/fuchsia_ui_input/src/lib.rs:141-151 | bit k of the word is set exactly when the modifier with bit k is held, and decoding the word gives back every flag except function, symbol and alt-graph |
| UiInput.ModifiersOfBits | gen/fidl/fuchsia_ui_input/src/lib.rs:141-151 | a decoded word never holds function, symbol or alt-graph, which have no bit |
| UiInput.ModifiersOfBitsKeeps | gen/fidl/fuchsia_ui_input/src/lib.rs:141-151 | to_bits loses only function, symbol and alt-graph |
| UiInput.HeldMaskBits | gen/fidl/fuchsia_ui_input/src/lib.rs:146-149 | the mask 0x1E0 covers exactly bits 5 to 8 |
| UiInput.IsNoneIffNoHeldBits | gen/fidl/fuchsia_ui_input/src/lib.rs:137-151 | is_none holds exactly when to_bits has none of the shift, alt, meta and ctrl bits |
| UiInput.IsNone | gen/fidl/fuchsia_ui_input/src/lib.rs:137-139 | the all-released modifiers report none held |
| UiInput.CtrlShiftScenario | gen/fidl/fuchsia_ui_input/src/lib.rs:688-700 | with ctrl and shift held, is_none is false and bits 5 and 8 are set |
| UiInput.NewKeyEvent | gen/fidl/fuchsia_ui_input/src/lib.rs:167-177 | a new event has the given type and key, no meaning, no modifiers and repeat 0 |
| UiInput.IsPressed | gen/fidl/fuchsia_ui_input/src/lib.rs:179-181 | a pressed event is not a release, a cancel or a sync |
| UiInput.IsModifierKey | gen/fidl/fuchsia_ui_input/src/lib.rs:183-194 | true exactly when the event has a key in the range of the eight left/right ctrl, shift, alt and meta codes |
| UiInput.UpdateModifiers | gen/fidl/fuchsia_ui_input/src/lib.rs:223-234 | a modifier key sets its own flag to whether the event is a press; every other event leaves the flags unchanged |
| UiInput.PressThenRelease | gen/fidl/fuchsia_ui_input/src/lib.rs:223-234 | a press then a release of either shift key leaves shift released and every other flag unchanged |
| UiInput.KeyboardListener.constructor | gen/fidl/fuchsia_ui_input/src/lib.rs:205-211 | a new listener has no events, no modifiers and room for 256 |
| UiInput.KeyboardListener.PushEvent | gen/fidl/fuchsia_ui_input/src/lib.rs:213-221 | the modifiers are updated from the event, and the event goes to the back, the oldest dropped first when the queue is full |
| UiInput.KeyboardListener.PopEvent | gen/fidl/fuchsia_ui_input/src/lib.rs:236-238 | the oldest event is removed and returned, or None on an empty queue |
| UiInput.KeyboardListener.PendingCount | gen/fidl/fuchsia_ui_input/src/lib.rs:244-246 | the number of queued events, never above the queue size |
| UiInput.Newest | gen/fidl/fuchsia_ui_input/src/lib.rs:217-220 | keeps at most n elements, and no more than there are |
| UiInput.PushAll | gen/fidl/fuchsia_ui_input/src/lib.rs:213-221 | pushing a sequence of events into an empty listener leaves exactly its newest `max_queue_size`, in order |
| UiInput.ShiftScenario | gen/fidl/fuchsia_ui_input/src/lib.rs:626-639 | shift is held after a press of left shift and released after its release |
| UiInput.EmptyMap | gen/fidl/fuchsia_ui_input/src/lib.rs:433-435 | a map has no entries exactly when it has no keys |
| UiInput.TouchSource.constructor | gen/fidl/fuchsia_ui_input/src/lib.rs:386-393 | a new touch source has no events, no active interactions and no view parameters |
| UiInput.TouchSource.SetViewParameters | gen/fidl/fuchsia_ui_input/src/lib.rs:395-397 | later events carry these parameters; nothing else changes |
| UiInput.TouchSource.InjectEvent | gen/fidl/fuchsia_ui_input/src/lib.rs:399-421 | Add and Change record the interaction with its phase, Remove and Cancel forget it, and an event carrying the sample and the view parameters is queued; the active set stays exactly the interactions whose last sample is Add or Change |
| UiInput.TouchSource.Watch | gen/fidl/fuchsia_ui_input/src/lib.rs:423-426 | every queued event is returned oldest first and the queue is left empty |
| UiInput.TouchSource.ActiveTouches | gen/fidl/fuchsia_ui_input/src/lib.rs:433-435 | the number of active interactions, 0 exactly when no interaction's last sample is Add or Change |
| UiInput.TouchSource.NoneActive | gen/fidl/fuchsia_ui_input/src/lib.rs:399-435 | no active interaction exactly when no interaction is under way |
| UiInput.TouchSourceScenario | gen/fidl/fuchsia_ui_input/src/lib.rs:641-658 | an Add gives one active touch and one watched event, and a Remove of the same interaction leaves none |
| UiInput.ButtonBits | gen/fidl/fuchsia_ui_input/src/lib.rs:451-461 | the word has bit 0, 1 and 2 for the primary, secondary and tertiary buttons, is their 1 + 2 + 4, and is non-zero exactly when any_pressed |
| UiInput.ButtonValue | gen/fidl/fuchsia_ui_input/src/lib.rs:455-461 | a word with the pressed buttons' bits is their 1, 2 and 4 added up |
| UiInput.AnyPressed | gen/fidl/fuchsia_ui_input/src/lib.rs:451-453 | no button is pressed exactly when all three are released |
| UiInput.NewMouseSample | gen/fidl/fuchsia_ui_input/src/lib.rs:489-501 | a new sample is at the given position, device 0, with no scrolling, motion or buttons |
| UiInput.MouseSource.constructor | gen/fidl/fuchsia_ui_input/src/lib.rs:569-577 | a new mouse source has no events, no parameters, no position and no buttons |
| UiInput.MouseSource.SetViewParameters | gen/fidl/fuchsia_ui_input/src/lib.rs:579-581 | later events carry these parameters; nothing else changes |
| UiInput.MouseSource.InjectEvent | gen/fidl/fuchsia_ui_input/src/lib.rs:583-596 | the buttons and position become the sample's, and an event carrying it and the view parameters is queued |
| UiInput.MouseSource.Watch | gen/fidl/fuchsia_ui_input/src/lib.rs:598-601 | every queued event is returned oldest first and the queue is left empty |
| UiInput.MouseSourceScenario | gen/fidl/fuchsia_ui_input/src/lib.rs:660-670 | the source reports the last sample's position and buttons, and a watch returns the samples in order |
| WlanSoftmac.NewChannel | gen/fidl/fuchsia_wlan_softmac/src/lib.rs:74-80 | a new channel is 20 MHz on the given primary, with no secondary |
| WlanSoftmac.ChannelWithBandwidth | gen/fidl/fuchsia_wlan_softmac/src/lib.rs:82-88 | the channel has the given primary and bandwidth and no secondary |
| WlanSoftmac.DefaultInfo | gen/fidl/fuchsia_wlan_softmac/src/lib.rs:319-343 | a client with OFDM and HT, hardware capability 0 and the one 2.4 GHz band |
| WlanSoftmac.ValidChannels | gen/fidl/fuchsia_wlan_softmac/src/lib.rs:411-414 | a channel is valid exactly when some band lists it among its operating channels |
| WlanSoftmac.DefaultChannels | gen/fidl/fuchsia_wlan_softmac/src/lib.rs:411-418 | a new bridge accepts exactly the channels 1 to 13 |
| WlanSoftmac.QueryMacSublayerSupport | gen/fidl/fuchsia_wlan_softmac/src/lib.rs:362-375 | no rate-selection offload, an Ethernet data plane, and a real device reporting TX status |
| WlanSoftmac.Bridge.constructor | gen/fidl/fuchsia_wlan_softmac/src/lib.rs:319-354 | a new bridge holds the default information and is stopped, with no channel, BSS, keys, scan results or callback |
| WlanSoftmac.Bridge.Query | gen/fidl/fuchsia_wlan_softmac/src/lib.rs:357-359 | query always succeeds with the device information |
| WlanSoftmac.Bridge.GetChannel | gen/fidl/fuchsia_wlan_softmac/src/lib.rs:541-543 | a started bridge always has a channel |
| WlanSoftmac.Bridge.IsStarted | gen/fidl/fuchsia_wlan_softmac/src/lib.rs:546-548 | the bridge is started exactly while a receive callback is installed |
| WlanSoftmac.Bridge.Start | gen/fidl/fuchsia_wlan_softmac/src/lib.rs:378-391 | BAD_STATE with nothing changed when already started; otherwise installs the callback, starts and tunes to channel 1, which it returns, keeping BSS, keys and scan results |
| WlanSoftmac.Bridge.Stop | gen/fidl/fuchsia_wlan_softmac/src/lib.rs:394-402 | BAD_STATE with nothing changed unless started; otherwise stops and drops the callback, keeping channel, BSS, keys and scan results |
| WlanSoftmac.Bridge.SetChannel | gen/fidl/fuchsia_wlan_softmac/src/lib.rs:405-422 | succeeds exactly when started and some band operates on the primary channel, BAD_STATE or INVALID_ARGS otherwise; only success changes the channel |
| WlanSoftmac.Bridge.JoinBss | gen/fidl/fuchsia_wlan_softmac/src/lib.rs:425-432 | BAD_STATE with nothing changed unless started; otherwise records the BSS and changes nothing else |
| WlanSoftmac.Bridge.LeaveBss | gen/fidl/fuchsia_wlan_softmac/src/lib.rs:435-443 | BAD_STATE with nothing changed when no BSS is recorded, started or not; otherwise forgets the BSS and every installed key |
| WlanSoftmac.Bridge.InstallKey | gen/fidl/fuchsia_wlan_softmac/src/lib.rs:446-453 | BAD_STATE with nothing changed unless started; otherwise the key is filed under its index, replacing only that slot |
| WlanSoftmac.Bridge.StartPassiveScan | gen/fidl/fuchsia_wlan_softmac/src/lib.rs:456-467 | BAD_STATE with nothing changed unless started; otherwise clears the scan results and returns scan id 1 |
| WlanSoftmac.Bridge.StartedGate | gen/fidl/fuchsia_wlan_softmac/src/lib.rs:470-516 | succeeds exactly when started, BAD_STATE otherwise |
| WlanSoftmac.Bridge.CancelScan | gen/fidl/fuchsia_wlan_softmac/src/lib.rs:470-477 | succeeds exactly when started, BAD_STATE otherwise |
| WlanSoftmac.Bridge.QueueTx | gen/fidl/fuchsia_wlan_softmac/src/lib.rs:480-487 | succeeds exactly when started, BAD_STATE otherwise |
| WlanSoftmac.Bridge.ConfigureAssociation | gen/fidl/fuchsia_wlan_softmac/src/lib.rs:510-516 | succeeds exactly when started, BAD_STATE otherwise |
| WlanSoftmac.Bridge.EnableBeaconing | gen/fidl/fuchsia_wlan_softmac/src/lib.rs:490-496 | succeeds exactly when the role is AP, NOT_SUPPORTED otherwise, started or not |
| WlanSoftmac.Bridge.ConfigureBss | gen/fidl/fuchsia_wlan_softmac/src/lib.rs:504-507 | records the BSS with no check that the bridge is started, changing nothing else |
| WlanSoftmac.Bridge.NotifyRx | gen/fidl/fuchsia_wlan_softmac/src/lib.rs:529-533 | the packet is handed to the callback exactly when one is installed, that is while the bridge is started |
| WlanSoftmac.AlwaysOk | gen/fidl/fuchsia_wlan_softmac/src/lib.rs:499-526 | disable_beaconing, clear_association and update_wmm_parameters always succeed |
| WlanSoftmac.StartStopScenario | gen/fidl/fuchsia_wlan_softmac/src/lib.rs:639-652 | a new bridge is stopped, start starts it on channel 1, and stop stops it |
| WlanSoftmac.DoubleStartScenario | gen/fidl/fuchsia_wlan_softmac/src/lib.rs:378-402 | a second start and a stop of a stopped bridge are both BAD_STATE |
| WlanSoftmac.SetChannelScenario | gen/fidl/fuchsia_wlan_softmac/src/lib.rs:654-669 | channel 6 is accepted, channel 50 is refused with INVALID_ARGS, and channel 6 stays |
| WlanSoftmac.JoinLeaveScenario | gen/fidl/fuchsia_wlan_softmac/src/lib.rs:671-686 | join then leave succeeds, the keys are gone, and a second leave is BAD_STATE |
| WlanSoftmac.InstallKeyScenario | gen/fidl/fuchsia_wlan_softmac/src/lib.rs:688-706 | a stopped bridge refuses keys; two keys under one index keep only the second |
| WlanSoftmac.BeaconingScenario | gen/fidl/fuchsia_wlan_softmac/src/lib.rs:490-496 | a new bridge is a client, so beaconing is NOT_SUPPORTED started or not |
| WlanSoftmac.ConfigureThenLeaveScenario | gen/fidl/fuchsia_wlan_softmac/src/lib.rs:504-507 | configure_bss needs no start, so a stopped bridge can then leave the BSS |

## Left out

- Allocation failure (`malloc`/`calloc` returning NULL) in the arena, VMO, packet, handle-table and channel code is not modelled. The model assumes allocation succeeds.
- `message_packet_destroy` and the frees in the queue and table teardown: memory release has no observable state in the model. The queue and table are simply emptied.
- Debug-build integer-overflow panics in the Rust crates are not modelled. Arithmetic is that of a release build, which wraps. Where the source panics whatever the build, the member has a precondition.
- Mmc transfers assume that the stored card information has a block size of 512 (the class invariant). `init` is the only place that stores card information, and it always stores 512.
- Mmc: CID and CSD decoding is a stub in the source (a zero CID and a fixed capacity table), and it is modelled as that stub.
- Mmio.MmioHelper.ReadMasked32 and Mmio.MmioHelper.WriteMasked32 require `shift < 32`: a larger shift of a 32-bit value is undefined behaviour in C++, so those calls have no defined result to model.
- `MmioHelper::WaitForBit32` polls against a monotonic clock with a timeout. It is not modelled.
- The numeric examples from the MMIO and register-map unit tests (`0x12345678` becoming `0x1234AB78`) are not proved as literals. The general read-modify-write laws they instantiate are proved instead (`Bits.Merge`, `Mmio.MmioHelper.ModifyBits32`, `MockRegister.SetIsModify`).
- HalSdio: buffer contents are not modelled. A transaction records the buffer offset and length it covers.
- Aic8800 `handle_interrupt` and `process_rx`: these are interrupt-driven bus reads. They are not modelled.
- Aic8800 `flow_control`: its polling and backoff depend on time. Its outcome is a parameter of `Aic8800.Driver.Transmit`.
- Aic8800 `wait_firmware_ready`, `configure_patches` and `enable_chip`: `download_firmware` always fails with NOT_SUPPORTED, so `init` never reaches them. They also poll with sleeps.
- Aic8800 `reset_chip`: its two writes to the reset register are modelled inside `Aic8800.Driver.Init`. The sleeps between and after them are not.
- Aic8800 getters `get_mac_address`, `get_channel`, `is_initialized` and `get_chip_id` are plain field reads. They are not separate members.
- Aic8800: the `i8` RSSI field is kept as an unbounded integer and carried along only.
- MockSdio.Device.DownloadFirmware requires a non-zero block size, because the source divides by the block size. It also requires an image shorter than 2^64 bytes, the most a slice can hold.
- MockSdio, MockFirmware: the `Arc<Mutex<..>>` sharing between clones becomes one object. Concurrent access is not modelled.
- Gpio.GpioController.Route, Gpio.GpioController.Read and Gpio.GpioController.Write require a non-zero pins-per-bank count, because the source divides by it and panics on zero.
- BuildModels.ToLower: `to_lowercase` is modelled on ASCII letters only. Other characters are left unchanged.
- Clock.AllwinnerCcu.GetRate states only that it never fails. The rates it reports for each clock id are not stated.
- Clock.AllwinnerCcu: the `losc_rate` field is set to 32.768 kHz by the constructor but never read by the source, so nothing further is stated about it.
- Clock.GenericClockController.Enable requires the clock's parent chain to end (`ChainEnds`). A cyclic chain recurses without bound in the source (`Clock.SelfParentNeverEnds`).
- Clock.GenericClockController.SetRate requires `SetRateDefined`. The source panics when the minimum rate exceeds the maximum, and when the truncated divider is 0 (`Clock.DividerTruncates`).
- Uart `write_byte` and `read_byte` wait without bound for the device. They are not modelled, because an unbounded loop cannot be proved to terminate. The bounded `write`, `read` and `flush` loops are modelled.
- Uart.EarlyConsole.Putc: its wait on the line-status register is not modelled. Only the bytes it sends are.
- Uart: the `EARLY_CONSOLE` static and the `early_print` macro are global formatting plumbing. They are not modelled.
- Uart.GenericUart.Configure requires `DivisorDefined`. A baud rate of 0, or one where `16 * baud` wraps to 0, makes the source divide by zero.
- UiInput: `InteractionId::new` draws from a global atomic counter. Interaction ids are parameters.
- UiInput: `ViewParameters::identity`, `transform_point` and the `x()`/`y()` accessors compute in `f32`. Positions are kept as reals and carried along, never computed with.
- UiInput: `update_response` does nothing in the source. `get_modifiers`, `get_position` and `get_buttons` are field reads.
- WlanSoftmac: `report_tx_status` does nothing in the source. The receive callback is a closure, modelled as whether one is installed.
