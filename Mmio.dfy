/** `soliloquy_hal::MmioHelper`: read-modify-write access to a bank of 32-bit
    memory-mapped registers. The bank (`ddk::MmioBuffer`) is a map from byte
    offset to register value; an offset never written reads 0. */
module Mmio {
  import opened Common
  import opened Bits

  /** `ddk::MmioBuffer`: the registers themselves. */
  class MmioBuffer {
    var regs: RegFile

    constructor(initial: RegFile)
      ensures regs == initial
    {
      regs := initial;
    }

    /** `Read32`: a register never written reads 0. */
    function Read32(offset: u32): (v: u32)
      reads this
      ensures offset in regs ==> v == regs[offset]
      ensures offset !in regs ==> v == 0
    {
      RegAt(regs, offset)
    }

    /** The DDK call takes the value first. */
    method Write32(value: u32, offset: u32)
      modifies this
      ensures regs == old(regs)[offset := value]
    {
      regs := regs[offset := value];
    }
  }

  /** `MmioHelper`, wrapping one register bank. */
  class MmioHelper {
    const mmio: MmioBuffer

    constructor(mmio: MmioBuffer)
      ensures this.mmio == mmio
    {
      this.mmio := mmio;
    }

    /** `Read32`, passed through to the bank. */
    function Read32(offset: u32): (v: u32)
      reads mmio
      ensures offset in mmio.regs ==> v == mmio.regs[offset]
      ensures offset !in mmio.regs ==> v == 0
    {
      mmio.Read32(offset)
    }

    method Write32(offset: u32, value: u32)
      modifies mmio
      ensures mmio.regs == old(mmio.regs)[offset := value]
    {
      mmio.Write32(value, offset);
    }

    /** Sets the bits of `mask` in one register; its other bits and every
        other register keep their values. */
    method SetBits32(offset: u32, mask: u32)
      modifies mmio
      ensures mmio.regs == old(mmio.regs)[offset := SetMask(old(Read32(offset)), mask)]
    {
      var val := Read32(offset);
      Write32(offset, SetMask(val, mask));
    }

    /** Clears the bits of `mask` in one register. */
    method ClearBits32(offset: u32, mask: u32)
      modifies mmio
      ensures mmio.regs == old(mmio.regs)[offset := ClearMask(old(Read32(offset)), mask)]
    {
      var val := Read32(offset);
      Write32(offset, ClearMask(val, mask));
    }

    /** Replaces the bits of `mask` in one register by those of `value`. */
    method ModifyBits32(offset: u32, mask: u32, value: u32)
      modifies mmio
      ensures mmio.regs == old(mmio.regs)[offset := Merge(old(Read32(offset)), mask, value)]
    {
      var val := Read32(offset);
      val := SetMask(ClearMask(val, mask), Mask(value, mask));
      Write32(offset, val);
    }

    /** The field `mask` of a register, moved down by `shift`. A shift of 32
        or more is undefined behaviour in C++. */
    function ReadMasked32(offset: u32, mask: u32, shift: u32): (v: u32)
      requires shift < 32
      reads mmio
      ensures forall k: nat :: Bit(v, k) == (Bit(mask, k + shift) && Bit(Read32(offset), k + shift))
    {
      Extract(Read32(offset), mask, shift)
    }

    /** Writes `value << shift` into the field `mask` of a register; reading
        the field back gives the value cut to the field's width. */
    method WriteMasked32(offset: u32, mask: u32, shift: u32, value: u32)
      requires shift < 32
      modifies mmio
      ensures mmio.regs == old(mmio.regs)[offset := Insert(old(Read32(offset)), mask, shift, value)]
      ensures ReadMasked32(offset, mask, shift) == Mask(value, ShiftRight(mask, shift))
    {
      var val := Read32(offset);
      ghost var before := val;
      val := SetMask(ClearMask(val, mask), Mask(ShiftLeft(value, shift), mask));
      Write32(offset, val);
      InsertExtract(before, mask, shift, value);
    }
  }
}
