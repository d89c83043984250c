/** `soliloquy_hal::ClockResetHelper`: the clock gates and reset lines of a
    clock control unit, one bit per line and 32 lines per 32-bit register. A
    clock runs while its gate bit is set; a reset line is asserted while its
    bit is clear (active low). */
module ClockReset {
  import opened Common
  import opened Bits
  import opened Mmio
  import Zx

  const CLOCK_GATE_REG: u32 := 0x0000
  const RESET_REG: u32 := 0x0100

  /** The register holding line `id` of the bank that starts at `base`. */
  function LineOffset(base: u32, id: u32): u32
    requires base <= RESET_REG
  {
    base + (id / 32) * 4
  }

  /** The bit of line `id` within its register. */
  function LineBit(id: u32): u32
  {
    BitMask(id % 32)
  }

  predicate LineSet(regs: RegFile, base: u32, id: u32)
    requires base <= RESET_REG
  {
    Bit(RegAt(regs, LineOffset(base, id)), id % 32)
  }

  /** The bank after setting the bit of line `id`. */
  function SetLine(regs: RegFile, base: u32, id: u32): RegFile
    requires base <= RESET_REG
  {
    var off := LineOffset(base, id);
    regs[off := SetMask(RegAt(regs, off), LineBit(id))]
  }

  /** The bank after clearing the bit of line `id`. */
  function ClearLine(regs: RegFile, base: u32, id: u32): RegFile
    requires base <= RESET_REG
  {
    var off := LineOffset(base, id);
    regs[off := ClearMask(RegAt(regs, off), LineBit(id))]
  }

  predicate ClockEnabled(regs: RegFile, id: u32)
  {
    LineSet(regs, CLOCK_GATE_REG, id)
  }

  predicate ResetAsserted(regs: RegFile, id: u32)
  {
    !LineSet(regs, RESET_REG, id)
  }

  /** Two lines of one bank share a register bit only if they are the same
      line. */
  lemma LinesApart(base: u32, a: u32, b: u32)
    requires base <= RESET_REG
    requires a != b
    ensures LineOffset(base, a) != LineOffset(base, b) || a % 32 != b % 32
  {
  }

  /** Setting a line sets it, and leaves every other line of the same bank as
      it was. */
  lemma SetLineEffect(regs: RegFile, base: u32, id: u32, other: u32)
    requires base <= RESET_REG
    ensures LineSet(SetLine(regs, base, id), base, id)
    ensures other != id ==> LineSet(SetLine(regs, base, id), base, other) == LineSet(regs, base, other)
  {
    if other != id {
      LinesApart(base, id, other);
    }
  }

  /** Clearing a line clears it, and leaves every other line of the same bank
      as it was. */
  lemma ClearLineEffect(regs: RegFile, base: u32, id: u32, other: u32)
    requires base <= RESET_REG
    ensures !LineSet(ClearLine(regs, base, id), base, id)
    ensures other != id ==> LineSet(ClearLine(regs, base, id), base, other) == LineSet(regs, base, other)
  {
    if other != id {
      LinesApart(base, id, other);
    }
  }

  /** The gate registers of clocks 0 to 2047 lie below the reset registers;
      from clock 2048 on, a gate shares its register and bit with a reset
      line (clock 2048 with reset 0). */
  lemma GateBelowReset(clock: u32, reset: u32)
    ensures clock < 2048 ==> LineOffset(CLOCK_GATE_REG, clock) < LineOffset(RESET_REG, reset)
    ensures LineOffset(CLOCK_GATE_REG, 2048) == LineOffset(RESET_REG, 0) && LineBit(2048) == LineBit(0)
  {
  }

  /** `ClockResetHelper`, over a register bank that may be missing. */
  class ClockResetHelper {
    const ccu: MmioBuffer?

    constructor(ccu: MmioBuffer?)
      ensures this.ccu == ccu
    {
      this.ccu := ccu;
    }

    /** Ungates clock `id`. */
    method EnableClock(id: u32) returns (status: Zx.Status)
      modifies ccu
      ensures ccu == null ==> status == Zx.BadState
      ensures ccu != null ==> status == Zx.Ok && ccu.regs == SetLine(old(ccu.regs), CLOCK_GATE_REG, id)
    {
      if ccu == null {
        return Zx.BadState;
      }
      var regOffset := CLOCK_GATE_REG + (id / 32) * 4;
      var bitOffset := id % 32;
      var val := ccu.Read32(regOffset);
      val := SetMask(val, BitMask(bitOffset));
      ccu.Write32(val, regOffset);
      return Zx.Ok;
    }

    /** Gates clock `id`. */
    method DisableClock(id: u32) returns (status: Zx.Status)
      modifies ccu
      ensures ccu == null ==> status == Zx.BadState
      ensures ccu != null ==> status == Zx.Ok && ccu.regs == ClearLine(old(ccu.regs), CLOCK_GATE_REG, id)
    {
      if ccu == null {
        return Zx.BadState;
      }
      var regOffset := CLOCK_GATE_REG + (id / 32) * 4;
      var bitOffset := id % 32;
      var val := ccu.Read32(regOffset);
      val := ClearMask(val, BitMask(bitOffset));
      ccu.Write32(val, regOffset);
      return Zx.Ok;
    }

    /** Puts line `id` into reset by clearing its bit. */
    method AssertReset(id: u32) returns (status: Zx.Status)
      modifies ccu
      ensures ccu == null ==> status == Zx.BadState
      ensures ccu != null ==> status == Zx.Ok && ccu.regs == ClearLine(old(ccu.regs), RESET_REG, id)
    {
      if ccu == null {
        return Zx.BadState;
      }
      var regOffset := RESET_REG + (id / 32) * 4;
      var bitOffset := id % 32;
      var val := ccu.Read32(regOffset);
      val := ClearMask(val, BitMask(bitOffset));
      ccu.Write32(val, regOffset);
      return Zx.Ok;
    }

    /** Releases line `id` from reset by setting its bit. */
    method DeassertReset(id: u32) returns (status: Zx.Status)
      modifies ccu
      ensures ccu == null ==> status == Zx.BadState
      ensures ccu != null ==> status == Zx.Ok && ccu.regs == SetLine(old(ccu.regs), RESET_REG, id)
    {
      if ccu == null {
        return Zx.BadState;
      }
      var regOffset := RESET_REG + (id / 32) * 4;
      var bitOffset := id % 32;
      var val := ccu.Read32(regOffset);
      val := SetMask(val, BitMask(bitOffset));
      ccu.Write32(val, regOffset);
      return Zx.Ok;
    }

    /** Rate control is not implemented: once the bank is present the call is
        refused. */
    method SetClockRate(id: u32, rateHz: u64) returns (status: Zx.Status)
      ensures status == (if ccu == null then Zx.BadState else Zx.NotSupported)
    {
      if ccu == null {
        return Zx.BadState;
      }
      return Zx.NotSupported;
    }

    /** `outPresent` says whether the caller passed somewhere to store the
        rate; `out` is what the call stores there, if anything. */
    method GetClockRate(id: u32, outPresent: bool) returns (status: Zx.Status, out: Option<u64>)
      ensures ccu == null || !outPresent ==> status == Zx.InvalidArgs && out == None
      ensures ccu != null && outPresent ==> status == Zx.NotSupported && out == Some(0)
    {
      if ccu == null || !outPresent {
        return Zx.InvalidArgs, None;
      }
      return Zx.NotSupported, Some(0);
    }
  }

  /** Enabling a clock turns exactly that clock on: every other clock and
      every reset line keeps its state. Disabling turns exactly that clock
      off. */
  lemma ClockGateEffects(regs: RegFile, id: u32, other: u32)
    requires id < 2048
    ensures ClockEnabled(SetLine(regs, CLOCK_GATE_REG, id), id)
    ensures !ClockEnabled(ClearLine(regs, CLOCK_GATE_REG, id), id)
    ensures other != id ==> ClockEnabled(SetLine(regs, CLOCK_GATE_REG, id), other) == ClockEnabled(regs, other)
    ensures other != id ==> ClockEnabled(ClearLine(regs, CLOCK_GATE_REG, id), other) == ClockEnabled(regs, other)
    ensures ResetAsserted(SetLine(regs, CLOCK_GATE_REG, id), other) == ResetAsserted(regs, other)
    ensures ResetAsserted(ClearLine(regs, CLOCK_GATE_REG, id), other) == ResetAsserted(regs, other)
  {
    SetLineEffect(regs, CLOCK_GATE_REG, id, other);
    ClearLineEffect(regs, CLOCK_GATE_REG, id, other);
    GateBelowReset(id, other);
  }

  /** Asserting a reset line puts exactly that line into reset; deasserting
      releases exactly that line. */
  lemma ResetLineEffects(regs: RegFile, id: u32, other: u32)
    ensures ResetAsserted(ClearLine(regs, RESET_REG, id), id)
    ensures !ResetAsserted(SetLine(regs, RESET_REG, id), id)
    ensures other != id ==> ResetAsserted(ClearLine(regs, RESET_REG, id), other) == ResetAsserted(regs, other)
    ensures other != id ==> ResetAsserted(SetLine(regs, RESET_REG, id), other) == ResetAsserted(regs, other)
  {
    SetLineEffect(regs, RESET_REG, id, other);
    ClearLineEffect(regs, RESET_REG, id, other);
  }
}
