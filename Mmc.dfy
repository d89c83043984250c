/** The generic SD/MMC protocol engine: card identification (`init`), block
    reads and writes, erase, flush, and the block-device view built on top.

    The host controller (`MmcHostOps`) is a scripted value: the call the
    driver issues as its `k`-th host operation gets the answer the script
    gives for position `k`, and a `read_data` issued as call `k` fills its
    buffer slice with the script's block for `k`. The driver records every
    call it issues in `calls`. Each protocol step is a function of the
    script and of the history of calls before it (whose length is the
    position of its first call), and yields the history after it together
    with the step's result. */
module Mmc {
  import opened Common
  import opened DriverTraits

  // Command opcodes used by the driver.
  const GO_IDLE_STATE: u32 := 0
  const SEND_OP_COND: u32 := 1
  const ALL_SEND_CID: u32 := 2
  const SET_RELATIVE_ADDR: u32 := 3
  const SELECT_CARD: u32 := 7
  const SEND_IF_COND: u32 := 8
  const STOP_TRANSMISSION: u32 := 12
  const SET_BLOCKLEN: u32 := 16
  const READ_SINGLE_BLOCK: u32 := 17
  const READ_MULTIPLE_BLOCK: u32 := 18
  const WRITE_SINGLE_BLOCK: u32 := 24
  const WRITE_MULTIPLE_BLOCK: u32 := 25
  const ERASE_START: u32 := 32
  const ERASE_END: u32 := 33
  const ERASE: u32 := 38
  const APP_CMD: u32 := 55
  const SD_SET_BUS_WIDTH: u32 := 6
  const SD_SEND_OP_COND: u32 := 41

  /** Number of OCR polls before identification gives up. */
  const OCR_ATTEMPTS: nat := 100
  /** CMD8 argument: 2.7-3.6 V and check pattern 0xAA. */
  const IF_COND_ARG: u32 := 0x1AA
  /** CMD1 argument: high capacity, sector mode. */
  const EMMC_OCR_ARG: u32 := 0x40FF8080
  const BLOCK_SIZE: u32 := 512

  datatype MmcResponse = RspNone | R1 | R1b | R2 | R3 | R6 | R7

  datatype MmcCmdFlags = MmcCmdFlags(response: MmcResponse, data: bool, write: bool, multiBlock: bool)

  /** `MmcCmdFlags::default`: an R1 response and no data phase. */
  function DefaultFlags(): (f: MmcCmdFlags)
    ensures f.response == R1 && !f.data && !f.write && !f.multiBlock
  {
    MmcCmdFlags(R1, false, false, false)
  }

  /** `MmcCmdFlags { response, ..Default::default() }`. */
  function Flags(response: MmcResponse): MmcCmdFlags
  {
    DefaultFlags().(response := response)
  }

  /** One call the driver makes on its host controller. */
  datatype HostCall =
    | SendCmd(cmd: u32, arg: u32, flags: MmcCmdFlags)
    | ReadData(blockSize: u32)
    | WriteData(block: seq<u8>, blockSize: u32)
    | SetBusWidth(width: MmcBusWidth)
    | SetClock(freqHz: u32)
    | WaitReady(timeoutMs: u32)

  /** The scripted host: `present` is what `card_detect` reports, `answer(k)`
      what the host returns to the call issued at position `k`, and
      `block(k)` the bytes the slice handed to a `read_data` issued at
      position `k` holds when the call returns. The host interface promises
      nothing about that slice when the call fails, so the script decides
      it then too (it may hold the old bytes, a partial block or
      anything else). */
  datatype Host = Host(present: bool, answer: nat -> DriverResult<u32>, block: nat -> seq<u8>)

  /** The answer to the call issued at position `k`. */
  function AnswerAt(h: Host, k: nat): DriverResult<u32>
  {
    h.answer(k)
  }

  /** The block a `read_data` issued at position `k` delivers into a
      512-byte slice: the script's bytes cut or zero-extended. */
  function BlockAt(h: Host, k: nat): (b: seq<u8>)
    ensures |b| == BLOCK_SIZE as int
  {
    Fit(h.block(k), BLOCK_SIZE)
  }

  /** The history after a protocol step and the step's result. */
  datatype Step<T> = Step(calls: seq<HostCall>, result: DriverResult<T>)

  /** A failed step's history with its error, at another result type. */
  function Fail<T, U>(s: Step<T>): (f: Step<U>)
    requires s.result.Err?
  {
    Step(s.calls, Err(s.result.error))
  }

  /** One host call after history `t`, yielding the host's raw answer. */
  function Ask(h: Host, t: seq<HostCall>, c: HostCall): (s: Step<u32>)
  {
    Step(t + [c], AnswerAt(h, |t|))
  }

  /** One host call whose answer is only checked with `?`. */
  function Call(h: Host, t: seq<HostCall>, c: HostCall): (s: Step<()>)
  {
    var a := AnswerAt(h, |t|);
    Step(t + [c], if a.Ok? then Ok(()) else Err(a.error))
  }

  /** A run of host calls chained with `?`: issue `cs` in order after `t`,
      stop at the first failure, and yield the last answer. It is the
      reference against which the driver's straight-line sequences are
      checked. */
  function Chain(h: Host, t: seq<HostCall>, cs: seq<HostCall>): (s: Step<u32>)
    decreases |cs|
  {
    if cs == [] then Step(t, Ok(0))
    else
      var a := Ask(h, t, cs[0]);
      if a.result.Err? || |cs| == 1 then a else Chain(h, a.calls, cs[1..])
  }

  /** What a chain does: it issues a prefix of `cs` after `t`, every call
      before the last one is answered Ok, the last answer is its result, and
      it issues all of `cs` exactly when it succeeds. */
  lemma {:induction false} ChainIssues(h: Host, t: seq<HostCall>, cs: seq<HostCall>)
    requires cs != []
    ensures var s := Chain(h, t, cs);
      && |t| < |s.calls| <= |t| + |cs| && s.calls == t + cs[..|s.calls| - |t|]
      && s.result == AnswerAt(h, |s.calls| - 1)
      && (forall i :: |t| <= i < |s.calls| - 1 ==> AnswerAt(h, i).Ok?)
      && (s.result.Ok? <==> s.calls == t + cs && forall i :: |t| <= i < |s.calls| ==> AnswerAt(h, i).Ok?)
    decreases |cs|
  {
    var a := Ask(h, t, cs[0]);
    if a.result.Ok? && |cs| > 1 {
      ChainIssues(h, a.calls, cs[1..]);
      var s := Chain(h, a.calls, cs[1..]);
      assert t + cs[..|s.calls| - |t|] == a.calls + cs[1..][..|s.calls| - |a.calls|];
    } else if |cs| == 1 {
      assert cs[..1] == cs;
    }
  }

  /** The list of results a step keeps, with success mapped to `()`. */
  function Unit<T>(s: Step<T>): Step<()>
  {
    Step(s.calls, if s.result.Ok? then Ok(()) else Err(s.result.error))
  }

  /** A count of the `SendCmd(cmd, ..)` entries in a list of calls. */
  function CountCmd(t: seq<HostCall>, cmd: u32): nat
  {
    if t == [] then 0
    else (if t[0].SendCmd? && t[0].cmd == cmd then 1 else 0) + CountCmd(t[1..], cmd)
  }

  lemma {:induction false} CountCmdConcat(a: seq<HostCall>, b: seq<HostCall>, cmd: u32)
    ensures CountCmd(a + b, cmd) == CountCmd(a, cmd) + CountCmd(b, cmd)
  {
    if a == [] {
      assert a + b == b;
    } else {
      assert (a + b)[0] == a[0];
      assert (a + b)[1..] == a[1..] + b;
      CountCmdConcat(a[1..], b, cmd);
    }
  }

  /** A list whose entries are all drawn from `allowed` never holds a
      command that `allowed` does not contain. */
  lemma {:induction false} NoCmdOutside(t: seq<HostCall>, allowed: set<HostCall>, cmd: u32)
    requires forall i :: 0 <= i < |t| ==> t[i] in allowed
    requires forall c :: c in allowed ==> !(c.SendCmd? && c.cmd == cmd)
    ensures CountCmd(t, cmd) == 0
  {
    if t != [] {
      assert t[0] in allowed;
      NoCmdOutside(t[1..], allowed, cmd);
    }
  }

  // ------------------------------------------------------------ response bits

  /** OCR bit 31: the card has finished powering up. */
  predicate OcrReady(ocr: u32) { (ocr / 0x8000_0000) % 2 == 1 }

  /** OCR bit 30 (CCS): the card is block addressed. */
  predicate OcrCcs(ocr: u32) { (ocr / 0x4000_0000) % 2 == 1 }

  /** ACMD41 argument: HCS set only for a card that answered CMD8. */
  function SdOcrArg(isSdhc: bool): u32
  {
    if isSdhc then 0x40FF8000 else 0x00FF8000
  }

  predicate IsSdType(t: MmcCardType) { t == Sd || t == SdHc || t == SdXc }

  /** SdHc, SdXc and eMMC cards take block numbers as addresses, the others bytes. */
  predicate BlockAddressed(t: MmcCardType) { t == SdHc || t == SdXc || t == Emmc }

  // ------------------------------------------------------------ identification

  /** `go_idle`: CMD0 with no response. */
  function GoIdleSpec(h: Host, t: seq<HostCall>): (s: Step<()>)
  {
    Call(h, t, SendCmd(GO_IDLE_STATE, 0, Flags(RspNone)))
  }

  /** `check_sd_card`: CMD8 never fails; it reports "SD v2" exactly when the
      card answers and echoes the check pattern in the low byte. */
  function CheckSdCardSpec(h: Host, t: seq<HostCall>): (s: Step<bool>)
    ensures s.calls == t + [SendCmd(SEND_IF_COND, IF_COND_ARG, Flags(R7))]
    ensures s.result.Ok?
    ensures s.result.value <==> AnswerAt(h, |t|).Ok? && AnswerAt(h, |t|).value % 0x100 == 0xAA
  {
    var a := Ask(h, t, SendCmd(SEND_IF_COND, IF_COND_ARG, Flags(R7)));
    Step(a.calls, Ok(a.result.Ok? && a.result.value % 0x100 == 0xAA))
  }

  /** The two OCR polling loops of identification: ACMD41 for SD cards (with
      or without the HCS bit) and CMD1 for eMMC. */
  datatype Probe = SdProbe(hcs: bool) | EmmcProbe

  /** The commands one polling round sends. */
  function ProbeCalls(p: Probe): (cs: seq<HostCall>)
  {
    match p
    case SdProbe(hcs) => [SendCmd(APP_CMD, 0, Flags(R1)), SendCmd(SD_SEND_OP_COND, SdOcrArg(hcs), Flags(R3))]
    case EmmcProbe => [SendCmd(SEND_OP_COND, EMMC_OCR_ARG, Flags(R3))]
  }

  /** The command whose answer is the OCR. */
  function ProbeOp(p: Probe): u32
  {
    if p.SdProbe? then SD_SEND_OP_COND else SEND_OP_COND
  }

  /** The card type a ready OCR names: the CCS bit tells SDHC from SD. */
  function ProbeType(p: Probe, ocr: u32): MmcCardType
  {
    if p.EmmcProbe? then Emmc else if OcrCcs(ocr) then SdHc else Sd
  }

  /** The probe commands of one round chained with `?`; the result is the
      OCR when they all succeed. */
  function ProbeAnswer(h: Host, t: seq<HostCall>, p: Probe): (s: Step<u32>)
  {
    match p
    case SdProbe(hcs) =>
      var a := Ask(h, t, SendCmd(APP_CMD, 0, Flags(R1)));
      if a.result.Err? then a else Ask(h, a.calls, SendCmd(SD_SEND_OP_COND, SdOcrArg(hcs), Flags(R3)))
    case EmmcProbe => Ask(h, t, SendCmd(SEND_OP_COND, EMMC_OCR_ARG, Flags(R3)))
  }

  /** One polling round: the probe commands, then either the ready OCR
      (`Some`) or, after a 10 ms wait, `None`. */
  function OcrRound(h: Host, t: seq<HostCall>, p: Probe): (s: Step<Option<u32>>)
  {
    var o := ProbeAnswer(h, t, p);
    if o.result.Err? then Fail(o)
    else if OcrReady(o.result.value) then Step(o.calls, Ok(Some(o.result.value)))
    else
      var w := Call(h, o.calls, WaitReady(10));
      if w.result.Err? then Fail(w) else Step(w.calls, Ok(None))
  }

  /** A polling loop with `n` rounds left (`init_sd_card`, `init_emmc`). */
  function OcrPoll(h: Host, p: Probe, n: nat, t: seq<HostCall>): (s: Step<MmcCardType>)
    decreases n
  {
    if n == 0 then Step(t, Err(Timeout))
    else
      var r := OcrRound(h, t, p);
      if r.result.Err? then Fail(r)
      else if r.result.value.Some? then Step(r.calls, Ok(ProbeType(p, r.result.value.value)))
      else OcrPoll(h, p, n - 1, r.calls)
  }

  /** The calls a round can add: its probe commands and the 10 ms wait. */
  function RoundCalls(p: Probe): set<HostCall>
  {
    set c | c in ProbeCalls(p) + [WaitReady(10)]
  }

  /** A round only extends the history, starting with its first probe
      command. */
  lemma OcrRoundExtends(h: Host, t: seq<HostCall>, p: Probe)
    ensures var s := OcrRound(h, t, p);
      |t| < |s.calls| && s.calls[..|t|] == t && s.calls[|t|] == ProbeCalls(p)[0]
  {
  }

  /** What a round adds: the first probe command alone, all of them, or all
      of them and the wait. */
  lemma OcrRoundAdds(h: Host, t: seq<HostCall>, p: Probe)
    ensures var s := OcrRound(h, t, p);
      var d := s.calls[|t|..];
      |t| <= |s.calls| && (d == ProbeCalls(p)[..1] || d == ProbeCalls(p) || d == ProbeCalls(p) + [WaitReady(10)])
      && (s.result.Ok? && s.result.value.None? ==> d == ProbeCalls(p) + [WaitReady(10)])
  {
  }

  /** A round adds a non-empty prefix of its probe commands and the wait,
      and nothing else. */
  lemma OcrRoundShape(h: Host, t: seq<HostCall>, p: Probe)
    ensures var s := OcrRound(h, t, p);
      && |t| < |s.calls| <= |t| + |ProbeCalls(p)| + 1 && s.calls[..|t|] == t
      && (forall i :: |t| <= i < |s.calls| ==> s.calls[i] in RoundCalls(p))
      && (s.result.Ok? ==> s.calls[|t|..|t| + |ProbeCalls(p)|] == ProbeCalls(p))
  {
  }

  /** A round that fails passes on the error of its last call. */
  lemma OcrRoundFails(h: Host, t: seq<HostCall>, p: Probe)
    ensures var s := OcrRound(h, t, p);
      s.result.Err? ==> |s.calls| > |t| && AnswerAt(h, |s.calls| - 1) == Err(s.result.error)
  {
  }

  /** A round that returns `Some` has sent exactly its probe commands and
      returns the ready OCR the last of them answered. */
  lemma OcrRoundReady(h: Host, t: seq<HostCall>, p: Probe)
    ensures var s := OcrRound(h, t, p);
      s.result.Ok? && s.result.value.Some? ==>
        && s.calls == t + ProbeCalls(p) && AnswerAt(h, |s.calls| - 1) == Ok(s.result.value.value)
        && OcrReady(s.result.value.value)
  {
  }

  /** A round that returns `None` has sent its probe commands and waited. */
  lemma OcrRoundWaits(h: Host, t: seq<HostCall>, p: Probe)
    ensures var s := OcrRound(h, t, p);
      s.result.Ok? && s.result.value.None? ==> s.calls == t + ProbeCalls(p) + [WaitReady(10)]
  {
  }

  /** A round polls the OCR at most once, and exactly once when it ends
      waiting for the card. */
  lemma OcrRoundPollsOnce(h: Host, t: seq<HostCall>, p: Probe)
    ensures var s := OcrRound(h, t, p);
      && CountCmd(s.calls, ProbeOp(p)) <= CountCmd(t, ProbeOp(p)) + 1
      && (s.result == Ok(None) ==> CountCmd(s.calls, ProbeOp(p)) == CountCmd(t, ProbeOp(p)) + 1)
  {
    var s := OcrRound(h, t, p);
    var cs := ProbeCalls(p);
    var op := ProbeOp(p);
    OcrRoundAdds(h, t, p);
    var d := s.calls[|t|..];
    assert s.calls == t + d by {
      OcrRoundExtends(h, t, p);
    }
    CountCmdConcat(t, d, op);
    assert CountCmd([WaitReady(10)], op) == 0 by {
      assert [WaitReady(10)][1..] == [];
    }
    if p.SdProbe? {
      assert CountCmd([cs[1]], op) == 1 by {
        assert [cs[1]][1..] == [];
      }
      assert CountCmd(cs, op) == 1 by {
        assert cs[1..] == [cs[1]];
      }
      if d == cs[..1] {
        assert CountCmd(d, op) == 0 by {
          assert d[1..] == [];
        }
      } else if d == cs {
      } else {
        CountCmdConcat(cs, [WaitReady(10)], op);
      }
    } else {
      assert CountCmd(cs, op) == 1 by {
        assert cs[1..] == [];
      }
      if d == cs[..1] {
        assert d == cs;
      } else if d == cs {
      } else {
        CountCmdConcat(cs, [WaitReady(10)], op);
      }
    }
  }

  /** A polling loop only extends the history. */
  lemma {:induction false} OcrPollExtends(h: Host, p: Probe, n: nat, t: seq<HostCall>)
    ensures var s := OcrPoll(h, p, n, t); |t| <= |s.calls| && s.calls[..|t|] == t
    decreases n
  {
    if n > 0 {
      var r := OcrRound(h, t, p);
      OcrRoundExtends(h, t, p);
      if r.result.Ok? && r.result.value.None? {
        OcrPollExtends(h, p, n - 1, r.calls);
      }
    }
  }

  /** A polling loop never sends anything but its own probe commands and the
      10 ms wait. */
  lemma {:induction false} OcrPollSendsOnlyProbes(h: Host, p: Probe, n: nat, t: seq<HostCall>)
    ensures var s := OcrPoll(h, p, n, t);
      forall i :: |t| <= i < |s.calls| ==> s.calls[i] in RoundCalls(p)
    decreases n
  {
    if n > 0 {
      var r := OcrRound(h, t, p);
      OcrRoundShape(h, t, p);
      if r.result.Ok? && r.result.value.None? {
        var s := OcrPoll(h, p, n - 1, r.calls);
        OcrPollSendsOnlyProbes(h, p, n - 1, r.calls);
        OcrPollExtends(h, p, n - 1, r.calls);
        AllDrawnFrom(t, r.calls, s.calls, RoundCalls(p));
      }
    }
  }

  /** Entries drawn from `allowed` past `t` in `r`, and past `r` in its
      extension `s`, are all the entries past `t` in `s`. */
  lemma AllDrawnFrom(t: seq<HostCall>, r: seq<HostCall>, s: seq<HostCall>, allowed: set<HostCall>)
    requires |t| <= |r| <= |s| && s[..|r|] == r
    requires forall i :: |t| <= i < |r| ==> r[i] in allowed
    requires forall i :: |r| <= i < |s| ==> s[i] in allowed
    ensures forall i :: |t| <= i < |s| ==> s[i] in allowed
  {
    forall i | |t| <= i < |s|
      ensures s[i] in allowed
    {
      if i < |r| {
        assert s[i] == s[..|r|][i];
      }
    }
  }

  /** A polling loop with `n` rounds left polls the OCR at most `n` more
      times. */
  lemma {:induction false} OcrPollCount(h: Host, p: Probe, n: nat, t: seq<HostCall>)
    ensures CountCmd(OcrPoll(h, p, n, t).calls, ProbeOp(p)) <= CountCmd(t, ProbeOp(p)) + n
    decreases n
  {
    if n > 0 {
      var r := OcrRound(h, t, p);
      OcrRoundPollsOnce(h, t, p);
      if r.result == Ok(None) {
        OcrPollCount(h, p, n - 1, r.calls);
      }
    }
  }

  /** A polling loop that times out has polled the OCR exactly `n` more
      times, unless the host itself answered its last call with Timeout. */
  lemma {:induction false} OcrPollTimeout(h: Host, p: Probe, n: nat, t: seq<HostCall>)
    ensures var s := OcrPoll(h, p, n, t);
      s.result == Err(Timeout) ==>
        CountCmd(s.calls, ProbeOp(p)) == CountCmd(t, ProbeOp(p)) + n
        || (|s.calls| > 0 && AnswerAt(h, |s.calls| - 1) == Err(Timeout))
    decreases n
  {
    if n > 0 {
      var r := OcrRound(h, t, p);
      OcrRoundFails(h, t, p);
      OcrRoundPollsOnce(h, t, p);
      if r.result == Ok(None) {
        assert OcrPoll(h, p, n, t) == OcrPoll(h, p, n - 1, r.calls);
        OcrPollTimeout(h, p, n - 1, r.calls);
      }
    }
  }

  /** A polling loop that succeeds ends on a ready OCR, and the card type
      it names is the one that OCR's CCS bit selects. */
  lemma {:induction false} OcrPollReady(h: Host, p: Probe, n: nat, t: seq<HostCall>)
    ensures var s := OcrPoll(h, p, n, t);
      var m := |s.calls|;
      s.result.Ok? ==>
        && m > 0 && AnswerAt(h, m - 1).Ok? && OcrReady(AnswerAt(h, m - 1).value)
        && s.result.value == ProbeType(p, AnswerAt(h, m - 1).value)
    decreases n
  {
    if n > 0 {
      var r := OcrRound(h, t, p);
      OcrRoundReady(h, t, p);
      if r.result.Ok? && r.result.value.None? {
        assert OcrPoll(h, p, n, t) == OcrPoll(h, p, n - 1, r.calls);
        OcrPollReady(h, p, n - 1, r.calls);
      }
    }
  }

  /** A polling loop that fails either passes on the host's error on its
      last call or has run out of rounds. */
  lemma {:induction false} OcrPollFails(h: Host, p: Probe, n: nat, t: seq<HostCall>)
    ensures var s := OcrPoll(h, p, n, t);
      var m := |s.calls|;
      s.result.Err? ==> (m > |t| && AnswerAt(h, m - 1) == Err(s.result.error)) || s.result.error == Timeout
    decreases n
  {
    if n > 0 {
      var r := OcrRound(h, t, p);
      OcrRoundFails(h, t, p);
      if r.result.Ok? && r.result.value.None? {
        assert OcrPoll(h, p, n, t) == OcrPoll(h, p, n - 1, r.calls);
        OcrPollFails(h, p, n - 1, r.calls);
      }
    }
  }

  /** A polling loop only ever identifies the card types its probe can name. */
  lemma {:induction false} OcrPollTypes(h: Host, p: Probe, n: nat, t: seq<HostCall>)
    ensures var s := OcrPoll(h, p, n, t);
      s.result.Ok? ==> (if p.EmmcProbe? then s.result.value == Emmc else s.result.value in {Sd, SdHc})
    decreases n
  {
    if n > 0 {
      OcrPollTypes(h, p, n - 1, OcrRound(h, t, p).calls);
    }
  }

  /** The card type chosen after CMD8: a card that echoed the pattern goes
      through the SD loop with HCS alone; otherwise the SD loop without HCS
      runs first, and on any failure the eMMC loop. Each loop has `attempts`
      rounds (the driver uses `OCR_ATTEMPTS`). */
  function IdentifyCard(h: Host, t: seq<HostCall>, v2: bool, attempts: nat): (s: Step<MmcCardType>)
  {
    if v2 then OcrPoll(h, SdProbe(true), attempts, t)
    else
      var sd := OcrPoll(h, SdProbe(false), attempts, t);
      if sd.result.Ok? then sd else OcrPoll(h, EmmcProbe, attempts, sd.calls)
  }

  /** Identification only ever names SD, SDHC or eMMC (never SDXC or MMC),
      and a card that echoed CMD8 only SD or SDHC. */
  lemma IdentifyTypes(h: Host, t: seq<HostCall>, v2: bool, attempts: nat)
    ensures var s := IdentifyCard(h, t, v2, attempts);
      s.result.Ok? ==> s.result.value in {Sd, SdHc, Emmc} && (v2 ==> s.result.value in {Sd, SdHc})
  {
    var sd := OcrPoll(h, SdProbe(v2), attempts, t);
    OcrPollTypes(h, SdProbe(v2), attempts, t);
    OcrPollTypes(h, EmmcProbe, attempts, sd.calls);
  }

  /** A card that echoes CMD8 is never probed as eMMC: no CMD1 is sent. */
  lemma IdentifyV2NeverProbesEmmc(h: Host, t: seq<HostCall>, attempts: nat)
    ensures var s := IdentifyCard(h, t, true, attempts);
      |t| <= |s.calls| && CountCmd(s.calls[|t|..], SEND_OP_COND) == 0
  {
    var s := IdentifyCard(h, t, true, attempts);
    OcrPollExtends(h, SdProbe(true), attempts, t);
    OcrPollSendsOnlyProbes(h, SdProbe(true), attempts, t);
    var d := s.calls[|t|..];
    assert forall i :: 0 <= i < |d| ==> d[i] == s.calls[|t| + i];
    NoCmdOutside(d, RoundCalls(SdProbe(true)), SEND_OP_COND);
  }

  /** A card that does not echo CMD8 and is not brought up by the SD loop is
      probed with CMD1 next, and is identified exactly when that loop
      succeeds, as eMMC. */
  lemma IdentifyFallsBackToEmmc(h: Host, t: seq<HostCall>, attempts: nat)
    requires attempts > 0
    requires OcrPoll(h, SdProbe(false), attempts, t).result.Err?
    ensures var sd := OcrPoll(h, SdProbe(false), attempts, t);
      var s := IdentifyCard(h, t, false, attempts);
      && |sd.calls| < |s.calls| && s.calls[|sd.calls|] == SendCmd(SEND_OP_COND, EMMC_OCR_ARG, Flags(R3))
      && (s.result.Ok? <==> s.result == Ok(Emmc))
  {
    var sd := OcrPoll(h, SdProbe(false), attempts, t);
    OcrPollTypes(h, EmmcProbe, attempts, sd.calls);
    OcrRoundExtends(h, sd.calls, EmmcProbe);
    OcrPollExtends(h, EmmcProbe, attempts - 1, OcrRound(h, sd.calls, EmmcProbe).calls);
  }

  // ------------------------------------------------------------ configuration

  /** One more call after a step that succeeded, chained with `?`. */
  function AndThen(h: Host, a: Step<()>, c: HostCall): (s: Step<()>)
  {
    if a.result.Err? then a else Call(h, a.calls, c)
  }

  /** A single call is a chain of one. */
  lemma CallIsChain(h: Host, t: seq<HostCall>, c: HostCall)
    ensures Call(h, t, c) == Unit(Chain(h, t, [c]))
  {
  }

  /** Chaining one more call onto a chain is the longer chain. */
  lemma {:induction false} AndThenIsChain(h: Host, t: seq<HostCall>, cs: seq<HostCall>, c: HostCall)
    requires cs != []
    ensures AndThen(h, Unit(Chain(h, t, cs)), c) == Unit(Chain(h, t, cs + [c]))
    decreases |cs|
  {
    var a := Ask(h, t, cs[0]);
    assert (cs + [c])[0] == cs[0];
    if a.result.Ok? {
      if |cs| == 1 {
        assert (cs + [c])[1..] == [c];
      } else {
        assert (cs + [c])[1..] == cs[1..] + [c];
        AndThenIsChain(h, a.calls, cs[1..], c);
      }
    }
  }

  /** `get_cid`: CMD2 with an R2 response; the CID is not decoded and reads
      as four zero words. */
  function GetCidSpec(h: Host, t: seq<HostCall>): (s: Step<seq<u32>>)
    ensures s.calls == t + [SendCmd(ALL_SEND_CID, 0, Flags(R2))]
    ensures s.result.Ok? <==> AnswerAt(h, |t|).Ok?
    ensures s.result.Ok? ==> s.result.value == [0, 0, 0, 0]
    ensures s.result.Err? ==> AnswerAt(h, |t|) == Err(s.result.error)
  {
    var a := Call(h, t, SendCmd(ALL_SEND_CID, 0, Flags(R2)));
    if a.result.Err? then Fail(a) else Step(a.calls, Ok([0, 0, 0, 0]))
  }

  /** `get_rca`: an SD card publishes its address in the upper half of the R6
      response; an eMMC is assigned address 1 (argument 1 << 16). */
  function GetRcaSpec(h: Host, t: seq<HostCall>, isSd: bool): (s: Step<u16>)
    ensures isSd ==> s.calls == t + [SendCmd(SET_RELATIVE_ADDR, 0, Flags(R6))]
    ensures !isSd ==> s.calls == t + [SendCmd(SET_RELATIVE_ADDR, 0x1_0000, Flags(R1))]
    ensures s.result.Ok? <==> AnswerAt(h, |t|).Ok?
    ensures s.result.Err? ==> AnswerAt(h, |t|) == Err(s.result.error)
    ensures s.result.Ok? && isSd ==>
      s.result.value * 0x1_0000 <= AnswerAt(h, |t|).value < (s.result.value + 1) * 0x1_0000
    ensures s.result.Ok? && !isSd ==> s.result.value == 1
  {
    if isSd then
      var a := Ask(h, t, SendCmd(SET_RELATIVE_ADDR, 0, Flags(R6)));
      if a.result.Err? then Fail(a) else Step(a.calls, Ok(a.result.value / 0x1_0000))
    else
      var rca: u16 := 1;
      var a := Call(h, t, SendCmd(SET_RELATIVE_ADDR, rca * 0x1_0000, Flags(R1)));
      if a.result.Err? then Fail(a) else Step(a.calls, Ok(rca))
  }

  /** `select_card`: CMD7 at the card's address, R1b. */
  function SelectCardSpec(h: Host, t: seq<HostCall>, rca: u16): Step<()>
  {
    Call(h, t, SendCmd(SELECT_CARD, rca * 0x1_0000, Flags(R1b)))
  }

  /** `set_sd_bus_width`: APP_CMD at the card's address, ACMD6 with argument
      2 (4 bits), then the host bus to 4 bits. */
  function SetSdBusWidthSpec(h: Host, t: seq<HostCall>, rca: u16): Step<()>
  {
    var app := Call(h, t, SendCmd(APP_CMD, rca * 0x1_0000, Flags(R1)));
    AndThen(h, AndThen(h, app, SendCmd(SD_SET_BUS_WIDTH, 2, Flags(R1))), SetBusWidth(Width4))
  }

  /** The calls `init` makes once the card has its address, in order:
      `select_card`, `set_sd_bus_width` (or the 8-bit host bus for eMMC),
      `set_block_length(512)` and the switch to the card's clock. */
  function ConfigureCalls(isSd: bool, rca: u16, freq: u32): seq<HostCall>
  {
    [SendCmd(SELECT_CARD, rca * 0x1_0000, Flags(R1b))]
    + (if isSd then [SendCmd(APP_CMD, rca * 0x1_0000, Flags(R1)), SendCmd(SD_SET_BUS_WIDTH, 2, Flags(R1)), SetBusWidth(Width4)]
       else [SetBusWidth(Width8)])
    + [SendCmd(SET_BLOCKLEN, BLOCK_SIZE, Flags(R1)), SetClock(freq)]
  }

  /** The configuration half of `init`, step by step. */
  function ConfigureSpec(h: Host, t: seq<HostCall>, isSd: bool, rca: u16, freq: u32): Step<()>
  {
    var sel := SelectCardSpec(h, t, rca);
    var bus :=
      if sel.result.Err? then sel
      else if isSd then SetSdBusWidthSpec(h, sel.calls, rca)
      else Call(h, sel.calls, SetBusWidth(Width8));
    AndThen(h, AndThen(h, bus, SendCmd(SET_BLOCKLEN, BLOCK_SIZE, Flags(R1))), SetClock(freq))
  }

  /** The configuration steps are exactly the chain of `ConfigureCalls`:
      they issue those calls in order, stop at the first failing one, and
      succeed exactly when every one of them is answered Ok. */
  lemma ConfigureIsChain(h: Host, t: seq<HostCall>, isSd: bool, rca: u16, freq: u32)
    ensures ConfigureSpec(h, t, isSd, rca, freq) == Unit(Chain(h, t, ConfigureCalls(isSd, rca, freq)))
  {
    var sel := SendCmd(SELECT_CARD, rca * 0x1_0000, Flags(R1b));
    var blk := SendCmd(SET_BLOCKLEN, BLOCK_SIZE, Flags(R1));
    var bus := if isSd then [SendCmd(APP_CMD, rca * 0x1_0000, Flags(R1)), SendCmd(SD_SET_BUS_WIDTH, 2, Flags(R1)), SetBusWidth(Width4)]
               else [SetBusWidth(Width8)];
    CallIsChain(h, t, sel);
    var s1 := SelectCardSpec(h, t, rca);
    if isSd {
      if s1.result.Ok? {
        CallIsChain(h, s1.calls, bus[0]);
        AndThenIsChain(h, s1.calls, [bus[0]], bus[1]);
        assert [bus[0]] + [bus[1]] == bus[..2];
        AndThenIsChain(h, s1.calls, bus[..2], bus[2]);
        assert bus[..2] + [bus[2]] == bus;
      }
    } else if s1.result.Ok? {
      CallIsChain(h, s1.calls, bus[0]);
    }
    ChainSplit(h, t, [sel], bus);
    var busStep :=
      if s1.result.Err? then s1
      else if isSd then SetSdBusWidthSpec(h, s1.calls, rca)
      else Call(h, s1.calls, SetBusWidth(Width8));
    assert busStep == Unit(Chain(h, t, [sel] + bus));
    AndThenIsChain(h, t, [sel] + bus, blk);
    assert ConfigureCalls(isSd, rca, freq) == [sel] + bus + [blk] + [SetClock(freq)];
    AndThenIsChain(h, t, [sel] + bus + [blk], SetClock(freq));
  }

  /** A chain of `a + b` runs `b` after `a` when `a` succeeds. */
  lemma {:induction false} ChainSplit(h: Host, t: seq<HostCall>, a: seq<HostCall>, b: seq<HostCall>)
    requires a != [] && b != []
    ensures var c := Chain(h, t, a);
      Unit(Chain(h, t, a + b)) == if c.result.Err? then Unit(c) else Unit(Chain(h, c.calls, b))
    decreases |a|
  {
    var x := Ask(h, t, a[0]);
    assert (a + b)[0] == a[0];
    assert (a + b)[1..] == a[1..] + b;
    if x.result.Ok? && |a| > 1 {
      ChainSplit(h, x.calls, a[1..], b);
    }
  }

  /** `get_capacity`: a fixed size per card type (the CSD is not decoded),
      a whole number of blocks between 512 MiB and 64 GiB. */
  function Capacity(t: MmcCardType): (c: u64)
    ensures c % 512 == 0 && 512 * 1024 * 1024 <= c <= 64 * 1024 * 1024 * 1024
  {
    match t
    case Sd => 2 * 1024 * 1024 * 1024
    case SdHc => 32 * 1024 * 1024 * 1024
    case SdXc => 64 * 1024 * 1024 * 1024
    case Emmc => 16 * 1024 * 1024 * 1024
    case Mmc => 512 * 1024 * 1024
  }

  /** The bus clock `init` switches to once the card is identified: the
      25 MHz default speed, raised only for high-capacity SD cards and
      eMMC. */
  function MaxFrequency(t: MmcCardType): (f: u32)
    ensures 25_000_000 <= f <= 52_000_000
    ensures f > 25_000_000 <==> t == SdHc || t == SdXc || t == Emmc
  {
    match t
    case SdHc => 50_000_000
    case SdXc => 50_000_000
    case Emmc => 52_000_000
    case _ => 25_000_000
  }

  /** The card description `init` stores for a card of type `t`. */
  predicate IdentifiedAs(info: MmcCardInfo, t: MmcCardType)
  {
    && info.cardType == t
    && info.capacityBytes == Capacity(t)
    && info.blockSize == BLOCK_SIZE
    && info.busWidth == (if IsSdType(t) then Width4 else Width8)
    && info.maxFrequency == MaxFrequency(t)
  }

  /** Every card description `init` stores has 512-byte blocks, a capacity
      that is a whole number of them, and at least 2^20 of them. */
  lemma IdentifiedSectors(info: MmcCardInfo, t: MmcCardType)
    requires IdentifiedAs(info, t)
    ensures info.blockSize == 512 && info.capacityBytes % 512 == 0
    ensures info.capacityBytes / 512 == Capacity(t) / 512 >= 1024 * 1024
  {
  }

  /** What `init` leaves behind: the history, the relative address, the
      card description and the result. `rca` and `cardInfo` keep their old
      values unless `init` gets far enough to assign them. */
  datatype InitOutcome = InitOutcome(calls: seq<HostCall>, rca: u16, cardInfo: Option<MmcCardInfo>, result: DriverResult<()>)

  /** The start of `init`: 400 kHz clock, 1-bit bus, CMD0, then CMD8; the
      result says whether the card echoed CMD8. */
  function InitPrelude(h: Host, t: seq<HostCall>): (s: Step<bool>)
  {
    var clk := Call(h, t, SetClock(400_000));
    var bus := AndThen(h, clk, SetBusWidth(Width1));
    var idle := if bus.result.Err? then bus else GoIdleSpec(h, bus.calls);
    if idle.result.Err? then Fail(idle) else CheckSdCardSpec(h, idle.calls)
  }

  /** The prelude issues the clock, bus, CMD0 and CMD8 calls in order and
      fails only on one of the first three; CMD8 itself never fails. */
  lemma InitPreludeCalls(h: Host, t: seq<HostCall>)
    ensures var s := InitPrelude(h, t);
      var cs := [SetClock(400_000), SetBusWidth(Width1), SendCmd(GO_IDLE_STATE, 0, Flags(RspNone)),
                 SendCmd(SEND_IF_COND, IF_COND_ARG, Flags(R7))];
      && (s.result.Ok? <==> Chain(h, t, cs[..3]).result.Ok?)
      && (s.result.Ok? ==>
            && s.calls == t + cs
            && (s.result.value <==> AnswerAt(h, |t| + 3).Ok? && AnswerAt(h, |t| + 3).value % 0x100 == 0xAA))
      && (s.result.Err? ==> Unit(Chain(h, t, cs[..3])) == Unit(s))
  {
    var cs := [SetClock(400_000), SetBusWidth(Width1), SendCmd(GO_IDLE_STATE, 0, Flags(RspNone)),
               SendCmd(SEND_IF_COND, IF_COND_ARG, Flags(R7))];
    CallIsChain(h, t, cs[0]);
    AndThenIsChain(h, t, [cs[0]], cs[1]);
    assert [cs[0]] + [cs[1]] == cs[..2];
    AndThenIsChain(h, t, cs[..2], cs[2]);
    assert cs[..2] + [cs[2]] == cs[..3];
  }

  /** The part of `init` after the card type is known: CID, RCA, then the
      configuration steps, and the stored card description. */
  function InitAfterIdentify(h: Host, t: seq<HostCall>, ty: MmcCardType, rca: u16, info: Option<MmcCardInfo>): (o: InitOutcome)
  {
    var cid := GetCidSpec(h, t);
    if cid.result.Err? then InitOutcome(cid.calls, rca, info, Err(cid.result.error))
    else
      var isSd := IsSdType(ty);
      var r := GetRcaSpec(h, cid.calls, isSd);
      if r.result.Err? then InitOutcome(r.calls, rca, info, Err(r.result.error))
      else
        var newRca := r.result.value;
        var freq := MaxFrequency(ty);
        var c := ConfigureSpec(h, r.calls, isSd, newRca, freq);
        if c.result.Err? then InitOutcome(c.calls, newRca, info, Err(c.result.error))
        else
          var card := MmcCardInfo(ty, Capacity(ty), BLOCK_SIZE, if isSd then Width4 else Width8, freq);
          InitOutcome(c.calls, newRca, Some(card), Ok(()))
  }

  /** `init` after history `t`, with `attempts` OCR polls per
      identification loop, on a driver holding `rca` and `info`. */
  function InitSpec(h: Host, t: seq<HostCall>, rca: u16, info: Option<MmcCardInfo>, attempts: nat): (o: InitOutcome)
  {
    if !h.present then InitOutcome(t, rca, info, Err(NotFound))
    else
      var pre := InitPrelude(h, t);
      if pre.result.Err? then InitOutcome(pre.calls, rca, info, Err(pre.result.error))
      else
        var id := IdentifyCard(h, pre.calls, pre.result.value, attempts);
        if id.result.Err? then InitOutcome(id.calls, rca, info, Err(id.result.error))
        else InitAfterIdentify(h, id.calls, id.result.value, rca, info)
  }

  /** Without a card `init` issues no call and reports NotFound; a failed
      `init` keeps the old card description; a successful one stores the
      description of the card it identified and ends by switching to that
      card's clock. */
  lemma InitOutcomes(h: Host, t: seq<HostCall>, rca: u16, info: Option<MmcCardInfo>, attempts: nat)
    ensures var o := InitSpec(h, t, rca, info, attempts);
      && (!h.present ==> o == InitOutcome(t, rca, info, Err(NotFound)))
      && (o.result.Err? ==> o.cardInfo == info)
      && (o.result.Ok? ==>
            && o.cardInfo.Some? && IdentifiedAs(o.cardInfo.value, o.cardInfo.value.cardType)
            && |o.calls| > 0 && o.calls[|o.calls| - 1] == SetClock(o.cardInfo.value.maxFrequency))
  {
    var o := InitSpec(h, t, rca, info, attempts);
    if h.present && o.result.Ok? {
      var pre := InitPrelude(h, t);
      var id := IdentifyCard(h, pre.calls, pre.result.value, attempts);
      var cid := GetCidSpec(h, id.calls);
      var ty := id.result.value;
      var r := GetRcaSpec(h, cid.calls, IsSdType(ty));
      ConfigureIsChain(h, r.calls, IsSdType(ty), r.result.value, MaxFrequency(ty));
      ChainIssues(h, r.calls, ConfigureCalls(IsSdType(ty), r.result.value, MaxFrequency(ty)));
    }
  }

  /** A successful `init` identifies an SD, SDHC or eMMC card; an eMMC gets
      relative address 1 and an 8-bit bus, an SD card the address it
      published and a 4-bit bus, and a card that echoed CMD8 is SD or SDHC. */
  lemma InitIdentifies(h: Host, t: seq<HostCall>, rca: u16, info: Option<MmcCardInfo>, attempts: nat)
    requires InitSpec(h, t, rca, info, attempts).result.Ok?
    ensures var o := InitSpec(h, t, rca, info, attempts);
      var ty := o.cardInfo.value.cardType;
      && ty in {Sd, SdHc, Emmc}
      && (ty == Emmc ==> o.rca == 1 && o.cardInfo.value.busWidth == Width8)
      && (ty != Emmc ==> o.cardInfo.value.busWidth == Width4)
      && (InitPrelude(h, t).result == Ok(true) ==> ty in {Sd, SdHc})
  {
    var pre := InitPrelude(h, t);
    IdentifyTypes(h, pre.calls, pre.result.value, attempts);
  }

  // ------------------------------------------------------------ transfers

  /** The card description a driver can hold: the only one `init` ever
      stores has 512-byte blocks. */
  predicate ValidInfo(info: Option<MmcCardInfo>)
  {
    info.Some? ==> info.value.blockSize == BLOCK_SIZE
  }

  /** The command argument addressing block `block` of a card of type `t`:
      the block number cast to 32 bits, or its byte offset computed in 64
      bits (wrapping) and then cast to 32 bits. */
  function BlockAddress(t: MmcCardType, block: u64): u32
  {
    if BlockAddressed(t) then block % U32_MOD else ((block * BLOCK_SIZE) % U64_MOD) % U32_MOD
  }

  /** Wrapping to 64 bits and then truncating to 32 is truncating to 32. */
  lemma Wrap64Then32(x: int)
    ensures (x % U64_MOD) % U32_MOD == x % U32_MOD
  {
    var q := x / U64_MOD;
    var r := x % U64_MOD;
    assert x == q * U64_MOD + r;
    var q2 := q * U32_MOD;
    assert x == q2 * U32_MOD + r;
    assert r == (r / U32_MOD) * U32_MOD + r % U32_MOD;
    assert x == (q2 + r / U32_MOD) * U32_MOD + r % U32_MOD;
  }

  /** The address is the block number on a block-addressed card and the
      byte offset on the others, both modulo 2^32. */
  lemma BlockAddressValue(t: MmcCardType, block: u64)
    ensures BlockAddressed(t) ==> BlockAddress(t, block) == block % U32_MOD
    ensures !BlockAddressed(t) ==> BlockAddress(t, block) == (block * 512) % U32_MOD
  {
    Wrap64Then32(block * 512);
  }

  /** On every card `init` can describe, each block inside the capacity
      gets its exact block number or byte offset: the 32-bit cast loses
      nothing there. */
  lemma BlockAddressInCapacity(info: MmcCardInfo, t: MmcCardType, block: u64)
    requires IdentifiedAs(info, t) && t != SdXc
    requires block < info.capacityBytes / 512
    ensures BlockAddress(t, block) == if BlockAddressed(t) then block else block * 512
  {
  }

  /** Past 2^32 bytes the byte address of an SD card wraps: block 2^23 is
      sent with the address of block 0. */
  lemma ByteAddressWraps()
    ensures BlockAddress(Sd, 0x80_0000) == BlockAddress(Sd, 0) == 0
  {
  }

  /** The read or write command for `count` blocks from `start`. */
  function TransferCmd(t: MmcCardType, start: u64, count: nat, write: bool): HostCall
  {
    var op := if write then (if count > 1 then WRITE_MULTIPLE_BLOCK else WRITE_SINGLE_BLOCK)
              else (if count > 1 then READ_MULTIPLE_BLOCK else READ_SINGLE_BLOCK);
    SendCmd(op, BlockAddress(t, start), MmcCmdFlags(R1, true, write, count > 1))
  }

  /** The history after a transfer, its result and the caller's buffer. */
  datatype Transfer<T> = Transfer(calls: seq<HostCall>, result: DriverResult<T>, data: seq<u8>)

  /** `buf` with the 512 bytes at block `i` replaced by `b`. */
  function PutBlock(buf: seq<u8>, i: nat, b: seq<u8>): (r: seq<u8>)
    requires (i + 1) * 512 <= |buf| && |b| == 512
    ensures |r| == |buf|
  {
    buf[..i * 512] + b + buf[(i + 1) * 512..]
  }

  /** The `read_data` loop over blocks `i .. n` of `buf`. Each read leaves
      in its slice whatever the host wrote there; a read that fails ends
      the loop. */
  function ReadLoop(h: Host, t: seq<HostCall>, buf: seq<u8>, i: nat, n: nat): (r: Transfer<()>)
    requires i <= n && n * 512 <= |buf|
    ensures |r.data| == |buf| && |t| <= |r.calls|
    decreases n - i
  {
    if i == n then Transfer(t, Ok(()), buf)
    else
      var a := AnswerAt(h, |t|);
      var t' := t + [ReadData(BLOCK_SIZE)];
      var buf' := PutBlock(buf, i, BlockAt(h, |t|));
      if a.Err? then Transfer(t', Err(a.error), buf')
      else ReadLoop(h, t', buf', i + 1, n)
  }

  /** The blocks `n` reads from position `k` deliver, concatenated. */
  function Delivered(h: Host, k: nat, n: nat): (d: seq<u8>)
    ensures |d| == n * 512
    decreases n
  {
    if n == 0 then [] else BlockAt(h, k) + Delivered(h, k + 1, n - 1)
  }

  /** Block `j` of what `n` reads from position `k` delivered is the block
      the `j`-th of them returned. */
  lemma {:induction false} DeliveredBlock(h: Host, k: nat, n: nat, j: nat)
    requires j < n
    ensures (j + 1) * 512 <= n * 512
    ensures Delivered(h, k, n)[j * 512..(j + 1) * 512] == BlockAt(h, k + j)
    decreases n
  {
    if j > 0 {
      DeliveredBlock(h, k + 1, n - 1, j - 1);
      var d := Delivered(h, k, n);
      var rest := Delivered(h, k + 1, n - 1);
      assert d == BlockAt(h, k) + rest;
      assert d[j * 512..(j + 1) * 512] == rest[(j - 1) * 512..j * 512];
    }
  }

  /** `n` copies of `c`. */
  function Repeat(c: HostCall, n: nat): (r: seq<HostCall>)
    ensures |r| == n && forall i :: 0 <= i < n ==> r[i] == c
  {
    if n == 0 then [] else [c] + Repeat(c, n - 1)
  }

  /** A read loop that succeeds issues one `read_data` per block, and leaves
      the blocks before `i` and the bytes after block `n` untouched, with the
      delivered blocks in between. */
  lemma {:induction false} ReadLoopOk(h: Host, t: seq<HostCall>, buf: seq<u8>, i: nat, n: nat)
    requires i <= n && n * 512 <= |buf|
    ensures var r := ReadLoop(h, t, buf, i, n);
      r.result.Ok? ==>
        && r.calls == t + Repeat(ReadData(BLOCK_SIZE), n - i)
        && r.data == buf[..i * 512] + Delivered(h, |t|, n - i) + buf[n * 512..]
    decreases n - i
  {
    if i < n && AnswerAt(h, |t|).Ok? {
      var t' := t + [ReadData(BLOCK_SIZE)];
      var b := BlockAt(h, |t|);
      var buf' := PutBlock(buf, i, b);
      ReadLoopOk(h, t', buf', i + 1, n);
      assert t + Repeat(ReadData(BLOCK_SIZE), n - i) == t' + Repeat(ReadData(BLOCK_SIZE), n - i - 1);
      assert buf'[..(i + 1) * 512] == buf[..i * 512] + b;
      assert buf'[n * 512..] == buf[n * 512..];
    }
  }

  /** What a read loop over blocks `i .. n` that failed leaves: `m > 0`
      `read_data` calls, the last of them answered with the error `e`; the
      slices of the `m` blocks it read, the failing one included, hold what
      the host wrote, and the rest of the buffer is untouched. */
  ghost predicate ReadFailed(h: Host, t: seq<HostCall>, buf: seq<u8>, i: nat, n: nat,
                             calls: seq<HostCall>, e: DriverError, data: seq<u8>)
    requires i <= n && n * 512 <= |buf|
  {
    var m := |calls| - |t|;
    && 0 < m <= n - i
    && calls == t + Repeat(ReadData(BLOCK_SIZE), m)
    && AnswerAt(h, |calls| - 1) == Err(e)
    && data == buf[..i * 512] + Delivered(h, |t|, m) + buf[(i + m) * 512..]
  }

  /** A read loop that fails has issued `read_data` calls only, the last of
      them answered with the error; the slices of the blocks it read,
      the failing one included, hold what the host wrote, and the rest of
      the buffer is untouched. */
  lemma {:induction false} ReadLoopFails(h: Host, t: seq<HostCall>, buf: seq<u8>, i: nat, n: nat)
    requires i <= n && n * 512 <= |buf|
    ensures var r := ReadLoop(h, t, buf, i, n);
      r.result.Err? ==> ReadFailed(h, t, buf, i, n, r.calls, r.result.error, r.data)
    decreases n - i
  {
    if i < n {
      var t' := t + [ReadData(BLOCK_SIZE)];
      var buf' := PutBlock(buf, i, BlockAt(h, |t|));
      var r := ReadLoop(h, t, buf, i, n);
      if AnswerAt(h, |t|).Err? {
        ReadFailFirst(h, t, buf, i, n);
      } else {
        ReadLoopFails(h, t', buf', i + 1, n);
        var rest := ReadLoop(h, t', buf', i + 1, n);
        assert r == rest;
        if rest.result.Err? {
          ReadFailStep(h, t, buf, i, n, rest.calls, rest.result.error, rest.data);
        }
      }
    }
  }

  /** A loop whose first read fails stops after it, with that block's slice
      as the host left it. */
  lemma ReadFailFirst(h: Host, t: seq<HostCall>, buf: seq<u8>, i: nat, n: nat)
    requires i < n && n * 512 <= |buf| && AnswerAt(h, |t|).Err?
    ensures ReadFailed(h, t, buf, i, n, t + [ReadData(BLOCK_SIZE)], AnswerAt(h, |t|).error,
                       PutBlock(buf, i, BlockAt(h, |t|)))
  {
    assert Delivered(h, |t|, 1) == BlockAt(h, |t|);
    assert Repeat(ReadData(BLOCK_SIZE), 1) == [ReadData(BLOCK_SIZE)];
  }

  /** The inductive step of `ReadLoopFails`: a failure from block `i + 1`
      on, after a successful read of block `i`, is a failure from block `i`
      on. */
  lemma ReadFailStep(h: Host, t: seq<HostCall>, buf: seq<u8>, i: nat, n: nat,
                     calls: seq<HostCall>, e: DriverError, data: seq<u8>)
    requires i < n && n * 512 <= |buf|
    requires ReadFailed(h, t + [ReadData(BLOCK_SIZE)], PutBlock(buf, i, BlockAt(h, |t|)), i + 1, n, calls, e, data)
    ensures ReadFailed(h, t, buf, i, n, calls, e, data)
  {
    ReadFailCallsStep(h, t, calls, e, n - (i + 1));
    ReadFailDataStep(h, |t|, buf, i, |calls| - |t| - 1, data);
  }

  /** The inductive step of `ReadLoopFails` for the calls: a failure after
      `m'` reads that follow one successful read is a failure after
      `m' + 1` reads. */
  lemma ReadFailCallsStep(h: Host, t: seq<HostCall>, calls: seq<HostCall>, e: DriverError, k: nat)
    requires var t' := t + [ReadData(BLOCK_SIZE)];
      var m' := |calls| - |t'|;
      && 0 < m' <= k
      && calls == t' + Repeat(ReadData(BLOCK_SIZE), m')
      && AnswerAt(h, |calls| - 1) == Err(e)
    ensures var m := |calls| - |t|;
      && 0 < m <= k + 1
      && calls == t + Repeat(ReadData(BLOCK_SIZE), m)
      && AnswerAt(h, |calls| - 1) == Err(e)
  {
    RepeatAfter(t, ReadData(BLOCK_SIZE), |calls| - |t| - 1);
  }

  /** The inductive step of `ReadLoopFails` for the buffer: block `i`
      written, then `m` blocks from `i + 1` on, is `m + 1` blocks from `i`
      on. */
  lemma ReadFailDataStep(h: Host, k: nat, buf: seq<u8>, i: nat, m: nat, data: seq<u8>)
    requires (i + 1 + m) * 512 <= |buf|
    requires var buf' := PutBlock(buf, i, BlockAt(h, k));
      data == buf'[..(i + 1) * 512] + Delivered(h, k + 1, m) + buf'[(i + 1 + m) * 512..]
    ensures data == buf[..i * 512] + Delivered(h, k, m + 1) + buf[(i + m + 1) * 512..]
  {
    SpliceStep(buf, BlockAt(h, k), i, m, Delivered(h, k + 1, m));
    assert Delivered(h, k, m + 1) == BlockAt(h, k) + Delivered(h, k + 1, m);
  }

  /** One call followed by `m` more of the same is `m + 1` of them. */
  lemma RepeatAfter(t: seq<HostCall>, c: HostCall, m: nat)
    ensures t + Repeat(c, m + 1) == (t + [c]) + Repeat(c, m)
  {
    assert Repeat(c, m + 1) == [c] + Repeat(c, m);
  }

  /** Writing block `i` and then `m` delivered blocks after it is writing
      `m + 1` blocks from `i` on. */
  lemma SpliceStep(buf: seq<u8>, b: seq<u8>, i: nat, m: nat, d: seq<u8>)
    requires |b| == 512 && |d| == m * 512 && (i + 1 + m) * 512 <= |buf|
    ensures var buf' := PutBlock(buf, i, b);
      buf'[..(i + 1) * 512] + d + buf'[(i + 1 + m) * 512..]
      == buf[..i * 512] + (b + d) + buf[(i + m + 1) * 512..]
  {
    var buf' := PutBlock(buf, i, b);
    assert buf'[..(i + 1) * 512] == buf[..i * 512] + b;
    assert buf'[(i + 1 + m) * 512..] == buf[(i + 1 + m) * 512..];
  }

  /** The data phase of a read of `count` blocks into `buf`: the `read_data`
      loop, then STOP_TRANSMISSION for more than one block. */
  function ReadPhase(h: Host, t: seq<HostCall>, buf: seq<u8>, count: nat): (r: Transfer<nat>)
    requires count * 512 <= |buf|
  {
    var l := ReadLoop(h, t, buf, 0, count);
    if l.result.Err? then Transfer(l.calls, Err(l.result.error), l.data)
    else
      var stop := if count > 1 then Call(h, l.calls, SendCmd(STOP_TRANSMISSION, 0, Flags(R1b))) else Step(l.calls, Ok(()));
      Transfer(stop.calls, if stop.result.Ok? then Ok(count * BLOCK_SIZE) else Err(stop.result.error), l.data)
  }

  /** A read of the whole blocks of `buf` from block `start` of a card of
      type `ty`: the read command, then the data phase. */
  function ReadCard(h: Host, t: seq<HostCall>, ty: MmcCardType, start: u64, buf: seq<u8>): (r: Transfer<nat>)
  {
    var count := |buf| / BLOCK_SIZE;
    var a := Call(h, t, TransferCmd(ty, start, count, false));
    if a.result.Err? then Transfer(a.calls, Err(a.result.error), buf)
    else ReadPhase(h, a.calls, buf, count)
  }

  /** `read_blocks` after history `t` on a driver whose card description is
      `info`, into a buffer holding `buf`. */
  function ReadBlocksSpec(h: Host, t: seq<HostCall>, info: Option<MmcCardInfo>, start: u64, buf: seq<u8>): (r: Transfer<nat>)
    requires ValidInfo(info)
  {
    if info.None? then Transfer(t, Err(NotFound), buf)
    else if |buf| < info.value.blockSize then Transfer(t, Err(InvalidParam), buf)
    else ReadCard(h, t, info.value.cardType, start, buf)
  }

  /** Before `init` a read fails with NotFound and with a buffer shorter than
      a block with InvalidParam, issuing no call and leaving the buffer as it
      was; a successful read reports the bytes of the whole blocks that fit. */
  lemma ReadBlocksResult(h: Host, t: seq<HostCall>, info: Option<MmcCardInfo>, start: u64, buf: seq<u8>)
    requires ValidInfo(info)
    ensures var r := ReadBlocksSpec(h, t, info, start, buf);
      && |r.data| == |buf|
      && (info.None? ==> r == Transfer(t, Err(NotFound), buf))
      && (info.Some? && |buf| < 512 ==> r == Transfer(t, Err(InvalidParam), buf))
      && (r.result.Ok? ==> info.Some? && r.result.value == |buf| / 512 * 512 <= |buf|)
  {
  }

  /** A successful data phase issues one `read_data` per block and then
      STOP_TRANSMISSION exactly for more than one block; the buffer holds
      the delivered blocks followed by its untouched tail. */
  lemma ReadPhaseOk(h: Host, t: seq<HostCall>, buf: seq<u8>, count: nat)
    requires count * 512 <= |buf|
    ensures var r := ReadPhase(h, t, buf, count);
      r.result.Ok? ==>
        && r.calls == t + Repeat(ReadData(BLOCK_SIZE), count)
             + (if count > 1 then [SendCmd(STOP_TRANSMISSION, 0, Flags(R1b))] else [])
        && r.data == Delivered(h, |t|, count) + buf[count * 512..]
  {
    ReadLoopOk(h, t, buf, 0, count);
  }

  /** A successful read sends the read command at the card's address, one
      `read_data` per whole block, and STOP_TRANSMISSION exactly when more
      than one block was read; block `j` of the buffer holds the `j`-th
      block the host delivered, and the bytes after the last whole block are
      untouched. */
  lemma ReadBlocksSucceeds(h: Host, t: seq<HostCall>, info: Option<MmcCardInfo>, start: u64, buf: seq<u8>, j: nat)
    requires ValidInfo(info) && info.Some?
    requires ReadBlocksSpec(h, t, info, start, buf).result.Ok?
    requires j < |buf| / 512
    ensures var r := ReadBlocksSpec(h, t, info, start, buf);
      var count := |buf| / 512;
      && r.calls == t + [TransferCmd(info.value.cardType, start, count, false)] + Repeat(ReadData(BLOCK_SIZE), count)
           + (if count > 1 then [SendCmd(STOP_TRANSMISSION, 0, Flags(R1b))] else [])
      && |r.data| == |buf| && (j + 1) * 512 <= |buf|
      && r.data[j * 512..(j + 1) * 512] == BlockAt(h, |t| + 1 + j)
      && r.data[count * 512..] == buf[count * 512..]
  {
    var count := |buf| / 512;
    var cmd := TransferCmd(info.value.cardType, start, count, false);
    ReadPhaseOk(h, t + [cmd], buf, count);
    DeliveredBlock(h, |t| + 1, count, j);
    var d := Delivered(h, |t| + 1, count);
    var r := ReadBlocksSpec(h, t, info, start, buf);
    assert r.data == d + buf[count * 512..];
    assert r.data[j * 512..(j + 1) * 512] == d[j * 512..(j + 1) * 512];
  }

  /** A data phase whose read fails ends on that `read_data` and sends no
      STOP_TRANSMISSION: the multi-block transfer is left open. The buffer
      then holds what the host wrote into the slices it was handed, the
      failing one included, followed by the untouched rest. */
  lemma ReadErrorLeavesTransferOpen(h: Host, t: seq<HostCall>, buf: seq<u8>, count: nat)
    requires count * 512 <= |buf|
    requires ReadLoop(h, t, buf, 0, count).result.Err?
    ensures var r := ReadPhase(h, t, buf, count);
      && r.result.Err? && |r.calls| > |t| && r.calls[|r.calls| - 1] == ReadData(BLOCK_SIZE)
      && CountCmd(r.calls, STOP_TRANSMISSION) == CountCmd(t, STOP_TRANSMISSION)
      && |r.calls| - |t| <= count
      && r.data == Delivered(h, |t|, |r.calls| - |t|) + buf[(|r.calls| - |t|) * 512..]
  {
    var r := ReadPhase(h, t, buf, count);
    ReadLoopFails(h, t, buf, 0, count);
    assert buf[..0] == [];
    var rds := Repeat(ReadData(BLOCK_SIZE), |r.calls| - |t|);
    CountCmdConcat(t, rds, STOP_TRANSMISSION);
    NoCmdOutside(rds, {ReadData(BLOCK_SIZE)}, STOP_TRANSMISSION);
  }

  /** The `write_data` loop over blocks `i .. n` of `data`. */
  function WriteLoop(h: Host, t: seq<HostCall>, data: seq<u8>, i: nat, n: nat): (s: Step<()>)
    requires i <= n && n * 512 <= |data|
    ensures |t| <= |s.calls| && s.calls[..|t|] == t
    decreases n - i
  {
    if i == n then Step(t, Ok(()))
    else
      var w := Call(h, t, WriteData(data[i * 512..(i + 1) * 512], BLOCK_SIZE));
      if w.result.Err? then w else WriteLoop(h, w.calls, data, i + 1, n)
  }

  /** Block `i` of `n` ends where block `i + 1` starts, within the first `n`. */
  lemma BlockSlices(i: nat, n: nat)
    requires i < n
    ensures i * 512 + 512 == (i + 1) * 512 <= n * 512
  {
  }

  /** A slice is its two halves around any point inside it. */
  lemma SliceSplit<T>(s: seq<T>, lo: nat, mid: nat, hi: nat)
    requires lo <= mid <= hi <= |s|
    ensures s[lo..hi] == s[lo..mid] + s[mid..hi]
  {
  }

  /** The bytes a list of calls handed to the host with `write_data`. */
  function Written(t: seq<HostCall>): seq<u8>
  {
    if t == [] then [] else Written(t[..|t| - 1]) + (if t[|t| - 1].WriteData? then t[|t| - 1].block else [])
  }

  /** A write loop that succeeds hands the host exactly the bytes of blocks
      `i .. n`, in order, one block per call, and sends no command. */
  lemma {:induction false} WriteLoopHandsOver(h: Host, t: seq<HostCall>, data: seq<u8>, i: nat, n: nat, cmd: u32)
    requires i <= n && n * 512 <= |data|
    ensures var s := WriteLoop(h, t, data, i, n);
      s.result.Ok? ==>
        && |s.calls| == |t| + n - i
        && Written(s.calls) == Written(t) + data[i * 512..n * 512]
        && CountCmd(s.calls, cmd) == CountCmd(t, cmd)
    decreases n - i
  {
    if i < n {
      var lo, mid, hi := i * 512, (i + 1) * 512, n * 512;
      BlockSlices(i, n);
      var c := WriteData(data[lo..mid], BLOCK_SIZE);
      var w := Call(h, t, c);
      if w.result.Ok? {
        WriteLoopHandsOver(h, w.calls, data, i + 1, n, cmd);
        assert w.calls[..|w.calls| - 1] == t;
        SliceSplit(data, lo, mid, hi);
        CountCmdConcat(t, [c], cmd);
        assert CountCmd([c], cmd) == 0 by {
          assert [c][1..] == [];
        }
      }
    }
  }

  /** The end of a write of `count` blocks: STOP_TRANSMISSION for more than
      one block, then a 500 ms wait. */
  function FinishWrite(h: Host, t: seq<HostCall>, count: nat): Step<()>
  {
    var stop := if count > 1 then Call(h, t, SendCmd(STOP_TRANSMISSION, 0, Flags(R1b))) else Step(t, Ok(()));
    AndThen(h, stop, WaitReady(500))
  }

  /** A finished write adds STOP_TRANSMISSION exactly for more than one
      block, and the wait last; it hands the host no data. */
  lemma FinishWriteOk(h: Host, t: seq<HostCall>, count: nat)
    ensures var w := FinishWrite(h, t, count);
      w.result.Ok? ==>
        && |w.calls| == |t| + (if count > 1 then 2 else 1) && w.calls[..|t|] == t
        && w.calls[|w.calls| - 1] == WaitReady(500)
        && Written(w.calls) == Written(t)
        && CountCmd(w.calls, STOP_TRANSMISSION) == CountCmd(t, STOP_TRANSMISSION) + (if count > 1 then 1 else 0)
  {
    var w := FinishWrite(h, t, count);
    if w.result.Ok? {
      var stop := SendCmd(STOP_TRANSMISSION, 0, Flags(R1b));
      var wait := WaitReady(500);
      if count > 1 {
        assert w.calls == t + [stop, wait];
        CountCmdConcat(t, [stop, wait], STOP_TRANSMISSION);
        assert CountCmd([wait], STOP_TRANSMISSION) == 0 by {
          assert [wait][1..] == [];
        }
        assert CountCmd([stop, wait], STOP_TRANSMISSION) == 1 by {
          assert [stop, wait][1..] == [wait];
        }
        assert w.calls[..|w.calls| - 1] == t + [stop];
        assert (t + [stop])[..|t|] == t;
      } else {
        assert w.calls == t + [wait];
        CountCmdConcat(t, [wait], STOP_TRANSMISSION);
        assert CountCmd([wait], STOP_TRANSMISSION) == 0 by {
          assert [wait][1..] == [];
        }
        assert w.calls[..|w.calls| - 1] == t;
      }
    }
  }

  /** The data phase of a write of `count` blocks of `data`. */
  function WritePhase(h: Host, t: seq<HostCall>, data: seq<u8>, count: nat): (s: Step<nat>)
    requires count * 512 <= |data|
  {
    var l := WriteLoop(h, t, data, 0, count);
    if l.result.Err? then Fail(l)
    else
      var w := FinishWrite(h, l.calls, count);
      if w.result.Err? then Fail(w) else Step(w.calls, Ok(count * BLOCK_SIZE))
  }

  /** A write of the whole blocks of `data` at block `start` of a card of
      type `ty`: the write command, then the data phase. */
  function WriteCard(h: Host, t: seq<HostCall>, ty: MmcCardType, start: u64, data: seq<u8>): (s: Step<nat>)
  {
    var count := |data| / BLOCK_SIZE;
    var a := Call(h, t, TransferCmd(ty, start, count, true));
    if a.result.Err? then Fail(a) else WritePhase(h, a.calls, data, count)
  }

  /** `write_blocks` after history `t`. */
  function WriteBlocksSpec(h: Host, t: seq<HostCall>, info: Option<MmcCardInfo>, start: u64, data: seq<u8>): (s: Step<nat>)
    requires ValidInfo(info)
  {
    if info.None? then Step(t, Err(NotFound))
    else if |data| < info.value.blockSize then Step(t, Err(InvalidParam))
    else WriteCard(h, t, info.value.cardType, start, data)
  }

  /** A successful data phase hands the host exactly the whole blocks of
      `data`, sends STOP_TRANSMISSION exactly for more than one block and
      ends with the 500 ms wait. */
  lemma WritePhaseOk(h: Host, t: seq<HostCall>, data: seq<u8>, count: nat)
    requires count * 512 <= |data|
    ensures var s := WritePhase(h, t, data, count);
      s.result.Ok? ==>
        && |s.calls| == |t| + count + (if count > 1 then 2 else 1) && s.calls[..|t|] == t
        && s.calls[|s.calls| - 1] == WaitReady(500)
        && Written(s.calls) == Written(t) + data[..count * 512]
        && CountCmd(s.calls, STOP_TRANSMISSION) == CountCmd(t, STOP_TRANSMISSION) + (if count > 1 then 1 else 0)
  {
    var l := WriteLoop(h, t, data, 0, count);
    WriteLoopHandsOver(h, t, data, 0, count, STOP_TRANSMISSION);
    FinishWriteOk(h, l.calls, count);
    var s := WritePhase(h, t, data, count);
    if s.result.Ok? {
      assert s.calls[..|l.calls|] == l.calls;
      assert s.calls[..|t|] == s.calls[..|l.calls|][..|t|];
    }
  }

  /** Before `init` a write fails with NotFound and with fewer than 512
      bytes with InvalidParam, issuing no call; a successful write reports
      the bytes of the whole blocks it wrote and ends with a 500 ms wait. */
  lemma WriteBlocksResult(h: Host, t: seq<HostCall>, info: Option<MmcCardInfo>, start: u64, data: seq<u8>)
    requires ValidInfo(info)
    ensures var s := WriteBlocksSpec(h, t, info, start, data);
      && (info.None? ==> s == Step(t, Err(NotFound)))
      && (info.Some? && |data| < 512 ==> s == Step(t, Err(InvalidParam)))
      && (s.result.Ok? ==>
            && info.Some? && s.result.value == |data| / 512 * 512 <= |data|
            && |s.calls| > |t| && s.calls[|s.calls| - 1] == WaitReady(500))
  {
    if info.Some? && |data| >= 512 {
      var count := |data| / 512;
      var a := Call(h, t, TransferCmd(info.value.cardType, start, count, true));
      WritePhaseOk(h, a.calls, data, count);
    }
  }

  /** A successful write sends the write command at the card's address
      first, hands the host exactly the caller's whole blocks in order, and
      sends STOP_TRANSMISSION exactly when more than one block was written. */
  lemma WriteBlocksSucceeds(h: Host, t: seq<HostCall>, info: Option<MmcCardInfo>, start: u64, data: seq<u8>)
    requires ValidInfo(info) && info.Some?
    requires WriteBlocksSpec(h, t, info, start, data).result.Ok?
    ensures var s := WriteBlocksSpec(h, t, info, start, data);
      var count := |data| / 512;
      && |s.calls| == |t| + count + (if count > 1 then 3 else 2)
      && s.calls[|t|] == TransferCmd(info.value.cardType, start, count, true)
      && Written(s.calls) == Written(t) + data[..count * 512]
      && CountCmd(s.calls, STOP_TRANSMISSION) == CountCmd(t, STOP_TRANSMISSION) + (if count > 1 then 1 else 0)
  {
    var count := |data| / 512;
    var cmd := TransferCmd(info.value.cardType, start, count, true);
    var a := Call(h, t, cmd);
    var s := WriteBlocksSpec(h, t, info, start, data);
    assert a.result.Ok? && s == WritePhase(h, a.calls, data, count);
    WritePhaseOk(h, a.calls, data, count);
    assert s.calls[|t|] == s.calls[..|a.calls|][|t|];
    assert Written(a.calls) == Written(t) by {
      assert a.calls[..|a.calls| - 1] == t;
    }
    CountCmdConcat(t, [cmd], STOP_TRANSMISSION);
    assert CountCmd([cmd], STOP_TRANSMISSION) == 0 by {
      assert [cmd][1..] == [];
    }
  }

  // ------------------------------------------------------------ erase

  /** The last block an erase of `count` blocks from `start` names:
      `start + count - 1`, wrapped to 64 bits. */
  function EraseEnd(start: u64, count: u64): u64
  {
    (start + count - 1) % U64_MOD
  }

  /** For `count > 0` with no 64-bit overflow the erase range is exactly the
      `count` blocks from `start`; a zero count instead names the block
      before `start` as the end (or the last 64-bit block when `start` is 0). */
  lemma EraseRange(start: u64, count: u64)
    ensures 0 < count && start + count <= U64_MOD ==> EraseEnd(start, count) - start + 1 == count
    ensures count == 0 && start > 0 ==> EraseEnd(start, count) == start - 1
    ensures count == 0 && start == 0 ==> EraseEnd(start, count) == U64_MOD - 1
  {
  }

  /** The calls of an erase: ERASE_START and ERASE_END with the addresses of
      the first and last block, then ERASE and a 5 s wait. */
  function EraseCalls(t: MmcCardType, start: u64, count: u64): seq<HostCall>
  {
    [ SendCmd(ERASE_START, BlockAddress(t, start), Flags(R1)),
      SendCmd(ERASE_END, BlockAddress(t, EraseEnd(start, count)), Flags(R1)),
      SendCmd(ERASE, 0, Flags(R1b)),
      WaitReady(5000) ]
  }

  /** `erase_blocks` after history `t`. */
  function EraseSpec(h: Host, t: seq<HostCall>, info: Option<MmcCardInfo>, start: u64, count: u64): (s: Step<()>)
  {
    if info.None? then Step(t, Err(NotFound))
    else
      var ty := info.value.cardType;
      var first := Call(h, t, SendCmd(ERASE_START, BlockAddress(ty, start), Flags(R1)));
      var last := AndThen(h, first, SendCmd(ERASE_END, BlockAddress(ty, EraseEnd(start, count)), Flags(R1)));
      AndThen(h, AndThen(h, last, SendCmd(ERASE, 0, Flags(R1b))), WaitReady(5000))
  }

  /** Before `init` an erase fails with NotFound and issues nothing;
      otherwise it is the chain of `EraseCalls`: those four calls in order,
      stopping at the first that fails. */
  lemma EraseIsChain(h: Host, t: seq<HostCall>, info: Option<MmcCardInfo>, start: u64, count: u64)
    ensures info.None? ==> EraseSpec(h, t, info, start, count) == Step(t, Err(NotFound))
    ensures info.Some? ==>
      EraseSpec(h, t, info, start, count) == Unit(Chain(h, t, EraseCalls(info.value.cardType, start, count)))
  {
    if info.Some? {
      var cs := EraseCalls(info.value.cardType, start, count);
      CallIsChain(h, t, cs[0]);
      AndThenIsChain(h, t, cs[..1], cs[1]);
      assert cs[..1] + [cs[1]] == cs[..2];
      AndThenIsChain(h, t, cs[..2], cs[2]);
      assert cs[..2] + [cs[2]] == cs[..3];
      AndThenIsChain(h, t, cs[..3], cs[3]);
      assert cs[..3] + [cs[3]] == cs;
    }
  }

  // ------------------------------------------------------------ the driver

  /** Copy the 512 bytes of `b` into block `i` of `buffer`. */
  method CopyBlock(buffer: array<u8>, i: nat, b: seq<u8>)
    requires (i + 1) * 512 <= buffer.Length && |b| == 512
    modifies buffer
    ensures buffer[..] == PutBlock(old(buffer[..]), i, b)
  {
    var off := i * 512;
    for j := 0 to 512
      invariant buffer[..] == old(buffer[..])[..off] + b[..j] + old(buffer[..])[off + j..]
    {
      buffer[off + j] := b[j];
      assert b[..j + 1] == b[..j] + [b[j]];
    }
    assert b[..512] == b;
  }

  /** `GenericMmcDriver`. `host` is the controller's script and `calls`
      every call made on it so far; `cardInfo` is set by a successful
      `init`; `rca` is the card's relative address. */
  class GenericMmcDriver {
    const host: Host
    /** The OCR polls each identification loop makes before giving up. */
    const ocrAttempts: nat
    var calls: seq<HostCall>
    var cardInfo: Option<MmcCardInfo>
    var rca: u16

    /** A stored card description has the 512-byte block size. */
    ghost predicate Valid()
      reads this
    {
      ValidInfo(cardInfo)
    }

    /** `new`: no card description and address 0. */
    constructor (host: Host)
      ensures this.host == host && ocrAttempts == OCR_ATTEMPTS
      ensures calls == [] && cardInfo == None && rca == 0
      ensures Valid()
    {
      this.host := host;
      ocrAttempts := OCR_ATTEMPTS;
      calls := [];
      cardInfo := None;
      rca := 0;
    }

    /** One host call, returning the host's raw answer. */
    method Issue(c: HostCall) returns (r: DriverResult<u32>)
      modifies this`calls
      ensures var s := Ask(host, old(calls), c); calls == s.calls && r == s.result
    {
      r := AnswerAt(host, |calls|);
      calls := calls + [c];
    }

    /** One host call whose answer only matters through `?`. */
    method Send(c: HostCall) returns (r: DriverResult<()>)
      modifies this`calls
      ensures var s := Call(host, old(calls), c); calls == s.calls && r == s.result
    {
      var a := Issue(c);
      r := if a.Ok? then Ok(()) else Err(a.error);
    }

    /** `go_idle`. */
    method GoIdle() returns (r: DriverResult<()>)
      modifies this`calls
      ensures var s := GoIdleSpec(host, old(calls)); calls == s.calls && r == s.result
    {
      r := Send(SendCmd(GO_IDLE_STATE, 0, Flags(RspNone)));
    }

    /** `check_sd_card`. */
    method CheckSdCard() returns (r: DriverResult<bool>)
      modifies this`calls
      ensures var s := CheckSdCardSpec(host, old(calls)); calls == s.calls && r == s.result
    {
      var a := Issue(SendCmd(SEND_IF_COND, IF_COND_ARG, Flags(R7)));
      match a {
        case Ok(resp) => r := Ok(resp % 0x100 == 0xAA);
        case Err(_) => r := Ok(false);
      }
    }

    /** One round of an OCR polling loop. */
    method PollRound(p: Probe) returns (r: DriverResult<Option<u32>>)
      modifies this`calls
      ensures var s := OcrRound(host, old(calls), p); calls == s.calls && r == s.result
    {
      var ocr: u32;
      match p {
        case SdProbe(hcs) =>
          var _ :- Send(SendCmd(APP_CMD, 0, Flags(R1)));
          ocr :- Issue(SendCmd(SD_SEND_OP_COND, SdOcrArg(hcs), Flags(R3)));
        case EmmcProbe =>
          ocr :- Issue(SendCmd(SEND_OP_COND, EMMC_OCR_ARG, Flags(R3)));
      }
      if OcrReady(ocr) {
        return Ok(Some(ocr));
      }
      var _ :- Send(WaitReady(10));
      return Ok(None);
    }

    /** `init_sd_card` (probe `SdProbe(is_sdhc)`) and `init_emmc` (probe
        `EmmcProbe`): poll the OCR until the card is ready, at most
        `ocrAttempts` times. */
    method PollOcr(p: Probe) returns (r: DriverResult<MmcCardType>)
      modifies this`calls
      ensures var s := OcrPoll(host, p, ocrAttempts, old(calls)); calls == s.calls && r == s.result
    {
      var i := 0;
      while i < ocrAttempts
        invariant 0 <= i <= ocrAttempts
        invariant OcrPoll(host, p, ocrAttempts - i, calls) == OcrPoll(host, p, ocrAttempts, old(calls))
      {
        var o :- PollRound(p);
        if o.Some? {
          return Ok(ProbeType(p, o.value));
        }
        i := i + 1;
      }
      return Err(Timeout);
    }

    /** The identification step of `init`: the SD loop (with HCS when the
        card echoed CMD8), and the eMMC loop when the SD loop without HCS
        fails. */
    method Identify(isSdV2: bool) returns (r: DriverResult<MmcCardType>)
      modifies this`calls
      ensures var s := IdentifyCard(host, old(calls), isSdV2, ocrAttempts); calls == s.calls && r == s.result
    {
      if isSdV2 {
        r := PollOcr(SdProbe(true));
      } else {
        r := PollOcr(SdProbe(false));
        if r.Err? {
          r := PollOcr(EmmcProbe);
        }
      }
    }

    /** `get_cid`. */
    method GetCid() returns (r: DriverResult<seq<u32>>)
      modifies this`calls
      ensures var s := GetCidSpec(host, old(calls)); calls == s.calls && r == s.result
    {
      var _ :- Send(SendCmd(ALL_SEND_CID, 0, Flags(R2)));
      return Ok([0, 0, 0, 0]);
    }

    /** `get_rca`. */
    method GetRca(isSd: bool) returns (r: DriverResult<u16>)
      modifies this`calls
      ensures var s := GetRcaSpec(host, old(calls), isSd); calls == s.calls && r == s.result
    {
      if isSd {
        var resp :- Issue(SendCmd(SET_RELATIVE_ADDR, 0, Flags(R6)));
        return Ok(resp / 0x1_0000);
      } else {
        var newRca: u16 := 1;
        var _ :- Send(SendCmd(SET_RELATIVE_ADDR, newRca * 0x1_0000, Flags(R1)));
        return Ok(newRca);
      }
    }

    /** `select_card`, at the stored relative address. */
    method SelectCard() returns (r: DriverResult<()>)
      modifies this`calls
      ensures var s := SelectCardSpec(host, old(calls), rca); calls == s.calls && r == s.result
    {
      r := Send(SendCmd(SELECT_CARD, rca * 0x1_0000, Flags(R1b)));
    }

    /** `set_sd_bus_width`. */
    method SetSdBusWidth() returns (r: DriverResult<()>)
      modifies this`calls
      ensures var s := SetSdBusWidthSpec(host, old(calls), rca); calls == s.calls && r == s.result
    {
      var _ :- Send(SendCmd(APP_CMD, rca * 0x1_0000, Flags(R1)));
      var _ :- Send(SendCmd(SD_SET_BUS_WIDTH, 2, Flags(R1)));
      r := Send(SetBusWidth(Width4));
    }

    /** `init`: the card-identification sequence. */
    method Init() returns (r: DriverResult<()>)
      requires Valid()
      modifies this`calls, this`rca, this`cardInfo
      ensures Valid()
      ensures var o := InitSpec(host, old(calls), old(rca), old(cardInfo), ocrAttempts);
        calls == o.calls && rca == o.rca && cardInfo == o.cardInfo && r == o.result
    {
      if !host.present {
        return Err(NotFound);
      }
      var _ :- Send(SetClock(400_000));
      var _ :- Send(SetBusWidth(Width1));
      var _ :- GoIdle();
      // `check_sd_card` never fails, so its `?` never returns early.
      var checked := CheckSdCard();
      var isSdV2 := checked.value;
      assert InitPrelude(host, old(calls)) == Step(calls, Ok(isSdV2));
      var cardType :- Identify(isSdV2);
      r := SetUpCard(cardType);
    }

    /** The part of `init` after identification: CID, RCA, select, bus
        width, block length, clock, and the card description. */
    method SetUpCard(cardType: MmcCardType) returns (r: DriverResult<()>)
      requires Valid()
      modifies this`calls, this`rca, this`cardInfo
      ensures Valid()
      ensures var o := InitAfterIdentify(host, old(calls), cardType, old(rca), old(cardInfo));
        calls == o.calls && rca == o.rca && cardInfo == o.cardInfo && r == o.result
    {
      var _ :- GetCid();
      var isSd := IsSdType(cardType);
      rca :- GetRca(isSd);
      var _ :- SelectCard();
      var busWidth: MmcBusWidth;
      if isSd {
        var _ :- SetSdBusWidth();
        busWidth := Width4;
      } else {
        var _ :- Send(SetBusWidth(Width8));
        busWidth := Width8;
      }
      var _ :- Send(SendCmd(SET_BLOCKLEN, BLOCK_SIZE, Flags(R1)));
      var maxFreq := MaxFrequency(cardType);
      var _ :- Send(SetClock(maxFreq));
      cardInfo := Some(MmcCardInfo(cardType, Capacity(cardType), BLOCK_SIZE, busWidth, maxFreq));
      return Ok(());
    }

    /** `card_present`. */
    function CardPresent(): (present: bool)
      reads this
      ensures present <==> host.present
    {
      host.present
    }

    /** `card_info`: the stored description, or NotFound before `init`. */
    function CardInfo(): (r: DriverResult<MmcCardInfo>)
      reads this
      ensures r.Ok? <==> cardInfo.Some?
      ensures r.Ok? ==> r.value == cardInfo.value
      ensures r.Err? ==> r.error == NotFound
    {
      if cardInfo.Some? then Ok(cardInfo.value) else Err(NotFound)
    }

    /** The host's `read_data` into block `i` of `buffer`: the host may
        write that slice, and nothing else of the buffer changes, whether
        the call succeeds or fails; its answer is the result. */
    method ReadInto(buffer: array<u8>, i: nat) returns (r: DriverResult<()>)
      requires (i + 1) * 512 <= buffer.Length
      modifies this`calls, buffer
      ensures calls == old(calls) + [ReadData(BLOCK_SIZE)]
      ensures r.Ok? <==> AnswerAt(host, |old(calls)|).Ok?
      ensures r.Err? ==> r.error == AnswerAt(host, |old(calls)|).error
      ensures buffer[..] == PutBlock(old(buffer[..]), i, BlockAt(host, |old(calls)|))
    {
      var a := AnswerAt(host, |calls|);
      var b := BlockAt(host, |calls|);
      calls := calls + [ReadData(BLOCK_SIZE)];
      CopyBlock(buffer, i, b);
      if a.Err? {
        return Err(a.error);
      }
      return Ok(());
    }

    /** `read_blocks`: the whole blocks that fit in `buffer`, from block
        `start`. */
    method ReadBlocks(start: u64, buffer: array<u8>) returns (r: DriverResult<nat>)
      requires Valid()
      modifies this`calls, buffer
      ensures var s := ReadBlocksSpec(host, old(calls), cardInfo, start, old(buffer[..]));
        calls == s.calls && r == s.result && buffer[..] == s.data
    {
      if cardInfo.None? {
        return Err(NotFound);
      }
      var info := cardInfo.value;
      var blockSize := info.blockSize;
      if buffer.Length < blockSize {
        return Err(InvalidParam);
      }
      var count := buffer.Length / blockSize;
      var _ :- Send(TransferCmd(info.cardType, start, count, false));
      ghost var t := calls;
      ghost var b := buffer[..];
      for i := 0 to count
        invariant ReadLoop(host, calls, buffer[..], i, count) == ReadLoop(host, t, b, 0, count)
      {
        var _ :- ReadInto(buffer, i);
      }
      if count > 1 {
        var _ :- Send(SendCmd(STOP_TRANSMISSION, 0, Flags(R1b)));
      }
      return Ok(count * blockSize);
    }

    /** `write_blocks`: the whole blocks of `data`, from block `start`. */
    method WriteBlocks(start: u64, data: seq<u8>) returns (r: DriverResult<nat>)
      requires Valid()
      modifies this`calls
      ensures var s := WriteBlocksSpec(host, old(calls), cardInfo, start, data);
        calls == s.calls && r == s.result
    {
      if cardInfo.None? {
        return Err(NotFound);
      }
      var info := cardInfo.value;
      var blockSize := info.blockSize;
      if |data| < blockSize {
        return Err(InvalidParam);
      }
      var count := |data| / blockSize;
      var _ :- Send(TransferCmd(info.cardType, start, count, true));
      ghost var t := calls;
      for i := 0 to count
        invariant WriteLoop(host, calls, data, i, count) == WriteLoop(host, t, data, 0, count)
      {
        var _ :- Send(WriteData(data[i * 512..(i + 1) * 512], BLOCK_SIZE));
      }
      if count > 1 {
        var _ :- Send(SendCmd(STOP_TRANSMISSION, 0, Flags(R1b)));
      }
      var _ :- Send(WaitReady(500));
      return Ok(count * blockSize);
    }

    /** `erase_blocks`: `count` blocks from `start`. */
    method EraseBlocks(start: u64, count: u64) returns (r: DriverResult<()>)
      modifies this`calls
      ensures var s := EraseSpec(host, old(calls), cardInfo, start, count); calls == s.calls && r == s.result
    {
      if cardInfo.None? {
        return Err(NotFound);
      }
      var info := cardInfo.value;
      var startAddr := BlockAddress(info.cardType, start);
      var endBlock := EraseEnd(start, count);
      var endAddr := BlockAddress(info.cardType, endBlock);
      var _ :- Send(SendCmd(ERASE_START, startAddr, Flags(R1)));
      var _ :- Send(SendCmd(ERASE_END, endAddr, Flags(R1)));
      var _ :- Send(SendCmd(ERASE, 0, Flags(R1b)));
      r := Send(WaitReady(5000));
    }

    /** `flush`: wait up to 500 ms for the card. */
    method Flush() returns (r: DriverResult<()>)
      modifies this`calls
      ensures var s := Call(host, old(calls), WaitReady(500)); calls == s.calls && r == s.result
    {
      r := Send(WaitReady(500));
    }

    /** `BlockDevice::read`: `read_blocks` with the byte count dropped. */
    method Read(sector: u64, buffer: array<u8>) returns (r: DriverResult<()>)
      requires Valid()
      modifies this`calls, buffer
      ensures var s := ReadBlocksSpec(host, old(calls), cardInfo, sector, old(buffer[..]));
        calls == s.calls && buffer[..] == s.data
        && (r.Ok? <==> s.result.Ok?) && (r.Err? ==> r.error == s.result.error)
    {
      var _ :- ReadBlocks(sector, buffer);
      return Ok(());
    }

    /** `BlockDevice::write`: `write_blocks` with the byte count dropped. */
    method Write(sector: u64, data: seq<u8>) returns (r: DriverResult<()>)
      requires Valid()
      modifies this`calls
      ensures var s := WriteBlocksSpec(host, old(calls), cardInfo, sector, data);
        calls == s.calls && (r.Ok? <==> s.result.Ok?) && (r.Err? ==> r.error == s.result.error)
    {
      var _ :- WriteBlocks(sector, data);
      return Ok(());
    }

    /** `BlockDevice::sector_size`: the card's block size, 512 before
        `init`; always 512. */
    function SectorSize(): (size: u32)
      reads this
      ensures ValidInfo(cardInfo) ==> size == 512
    {
      if cardInfo.Some? then cardInfo.value.blockSize else BLOCK_SIZE
    }

    /** `BlockDevice::sector_count`: 0 before `init`, otherwise the number
        of whole blocks in the card's capacity. */
    function SectorCount(): (n: u64)
      requires ValidInfo(cardInfo)
      reads this
      ensures cardInfo.None? ==> n == 0
      ensures cardInfo.Some? ==> n * 512 <= cardInfo.value.capacityBytes < (n + 1) * 512
    {
      if cardInfo.Some? then cardInfo.value.capacityBytes / cardInfo.value.blockSize else 0
    }

    /** `BlockDevice::sync`: `flush`. */
    method Sync() returns (r: DriverResult<()>)
      modifies this`calls
      ensures var s := Call(host, old(calls), WaitReady(500)); calls == s.calls && r == s.result
    {
      r := Flush();
    }
  }
}
