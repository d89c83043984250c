/** The AIC8800 register file used by the tests: the register addresses and
    flag words of the chip, three predicates over register values, and a
    sparse map of 32-bit registers with read-modify-write helpers. */
module MockRegister {
  import opened Common
  import opened Bits
  import Aic8800

  const VENDOR_ID: u32 := 0xA5C8
  const DEVICE_ID: u32 := 0x8800

  const SDIO_FUNC0_CCCR: u32 := 0x0000_0000
  const SDIO_FUNC1_FBR: u32 := 0x0000_0100

  const REG_CHIP_ID: u32 := 0x0000_0000
  const REG_CHIP_REV: u32 := 0x0000_0004
  const REG_FW_STATUS: u32 := 0x0000_0008
  const REG_HOST_CTRL: u32 := 0x0000_000C
  const REG_INT_STATUS: u32 := 0x0000_0010
  const REG_INT_MASK: u32 := 0x0000_0014
  const REG_TX_READY: u32 := 0x0000_0018
  const REG_RX_READY: u32 := 0x0000_001C
  const REG_SDIO_CTRL: u32 := 0x0000_0100
  const REG_BLOCK_SIZE: u32 := 0x0000_0110
  const REG_BLOCK_COUNT: u32 := 0x0000_0114
  const REG_FW_DOWNLOAD_ADDR: u32 := 0x0010_0000
  const REG_FW_DOWNLOAD_SIZE: u32 := 0x0010_0004
  const REG_FW_DOWNLOAD_CTRL: u32 := 0x0010_0008
  const REG_MAC_ADDR_LOW: u32 := 0x0000_1000
  const REG_MAC_ADDR_HIGH: u32 := 0x0000_1004
  const REG_PHY_CTRL: u32 := 0x0000_2000
  const REG_RF_CTRL: u32 := 0x0000_2004
  const REG_AGC_CTRL: u32 := 0x0000_2008

  /** `INT_*`: bits 0, 1, 2 and 31. */
  const INT_FW_READY: u32 := 0x1
  const INT_TX_DONE: u32 := 0x2
  const INT_RX_READY: u32 := 0x4
  const INT_ERROR: u32 := 0x8000_0000

  const HOST_CTRL_RESET: u32 := 0x1
  const HOST_CTRL_ENABLE: u32 := 0x2
  const HOST_CTRL_SLEEP: u32 := 0x4

  const FW_STATUS_IDLE: u32 := 0
  const FW_STATUS_DOWNLOADING: u32 := 1
  const FW_STATUS_READY: u32 := 2
  const FW_STATUS_ERROR: u32 := 0xFF

  const FW_DOWNLOAD_START: u32 := 0x1
  const FW_DOWNLOAD_DONE: u32 := 0x2
  const FW_DOWNLOAD_ERROR: u32 := 0x8000_0000

  const BLOCK_SIZE_DEFAULT: nat := 512
  const BLOCK_SIZE_MAX: nat := 2048
  const FW_BASE_ADDR: u32 := 0x0010_0000
  const FW_MAX_SIZE: nat := 512 * 1024

  const TIMEOUT_MS_SHORT: u64 := 100
  const TIMEOUT_MS_MEDIUM: u64 := 1000
  const TIMEOUT_MS_LONG: u64 := 5000

  /** The `1 << k` constants are the one-bit words they stand for. */
  lemma FlagWords()
    ensures INT_FW_READY == BitMask(0) && INT_TX_DONE == BitMask(1) && INT_RX_READY == BitMask(2)
    ensures INT_ERROR == BitMask(31) && FW_DOWNLOAD_ERROR == BitMask(31)
  {
    Pow2Word();
  }

  /** `chip_id_to_string`: an AIC8800 variant name, or "Unknown" for an id
      outside the mock's three. */
  function ChipIdToString(chipId: u32): (name: string)
    ensures name == "Unknown" || (|name| >= 8 && name[..7] == "AIC8800")
    ensures (chipId < 0x8800_0000 || chipId > 0x8800_0002) ==> name == "Unknown"
  {
    if chipId == 0x8800_0000 then "AIC8800D"
    else if chipId == 0x8800_0001 then "AIC8800DC"
    else if chipId == 0x8800_0002 then "AIC8800DW"
    else "Unknown"
  }

  /** `is_valid_chip_id`: the range `0x88000000..=0x88000002`. */
  predicate IsValidChipId(chipId: u32)
    ensures IsValidChipId(chipId) ==> chipId / 0x100 == 0x88_0000 && chipId % 0x100 < 3
  {
    0x8800_0000 <= chipId <= 0x8800_0002
  }

  /** The ids `is_valid_chip_id` accepts are exactly the ones
      `chip_id_to_string` has a name for. */
  lemma ValidIffNamed(chipId: u32)
    ensures IsValidChipId(chipId) <==> ChipIdToString(chipId) != "Unknown"
  {
    if IsValidChipId(chipId) {
      assert chipId == 0x8800_0000 || chipId == 0x8800_0001 || chipId == 0x8800_0002;
    }
  }

  /** Every id the mock accepts is one the driver supports, but the driver
      also supports the D80, which the mock rejects and cannot name. */
  lemma MockIdsAreDriverIds(chipId: u32)
    ensures IsValidChipId(chipId) ==> Aic8800.IsChipSupported(chipId)
    ensures Aic8800.IsChipSupported(Aic8800.CHIP_ID_AIC8800D80)
    ensures !IsValidChipId(Aic8800.CHIP_ID_AIC8800D80)
    ensures ChipIdToString(Aic8800.CHIP_ID_AIC8800D80) == "Unknown"
  {
    if IsValidChipId(chipId) {
      assert chipId == 0x8800_0000 || chipId == 0x8800_0001 || chipId == 0x8800_0002;
    }
  }

  /** `is_fw_ready`. */
  predicate IsFwReady(fwStatus: u32)
    ensures IsFwReady(fwStatus) ==>
      fwStatus != FW_STATUS_IDLE && fwStatus != FW_STATUS_DOWNLOADING && fwStatus != FW_STATUS_ERROR
  {
    fwStatus == FW_STATUS_READY
  }

  /** `has_error`: the status masked with `INT_ERROR` is non-zero, which
      tests exactly bit 31 and ignores every other bit. */
  predicate HasError(status: u32)
    ensures HasError(status) <==> Bit(status, 31)
  {
    FlagWords();
    TestBit(status, 31);
    Mask(status, INT_ERROR) != 0
  }

  /** The error flag alone, or with `INT_TX_DONE`, has the error; the TX
      flag alone does not. */
  lemma ErrorDetection()
    ensures HasError(INT_ERROR)
    ensures HasError(SetMask(INT_ERROR, INT_TX_DONE))
    ensures !HasError(INT_TX_DONE)
  {
    FlagWords();
    PowerBit(31, 31);
    PowerBit(1, 31);
  }

  /** `set_bits` is `modify_bits` with the mask as the value. */
  lemma SetIsModify(w: u32, mask: u32)
    ensures SetMask(w, mask) == Merge(w, mask, mask)
  {
    BitsDetermine(SetMask(w, mask), Merge(w, mask, mask));
  }

  /** `clear_bits` is `modify_bits` with value 0. */
  lemma ClearIsModify(w: u32, mask: u32)
    ensures ClearMask(w, mask) == Merge(w, mask, 0)
  {
    MergeExtremes(w, mask);
  }

  /** Setting, or clearing, the same bits twice is setting, or clearing,
      them once. */
  lemma SetClearIdempotent(w: u32, mask: u32)
    ensures SetMask(SetMask(w, mask), mask) == SetMask(w, mask)
    ensures ClearMask(ClearMask(w, mask), mask) == ClearMask(w, mask)
  {
    BitsDetermine(SetMask(SetMask(w, mask), mask), SetMask(w, mask));
    BitsDetermine(ClearMask(ClearMask(w, mask), mask), ClearMask(w, mask));
  }

  /** Clearing bits and then setting the same bits is setting them, and the
      other way round is clearing them: the last operation wins. */
  lemma LastWins(w: u32, mask: u32)
    ensures SetMask(ClearMask(w, mask), mask) == SetMask(w, mask)
    ensures ClearMask(SetMask(w, mask), mask) == ClearMask(w, mask)
  {
    BitsDetermine(SetMask(ClearMask(w, mask), mask), SetMask(w, mask));
    BitsDetermine(ClearMask(SetMask(w, mask), mask), ClearMask(w, mask));
  }

  /** `Aic8800RegisterMap`. */
  class RegisterMap {
    var registers: map<u32, u32>

    /** `Aic8800RegisterMap::new`: chip id 0x88000001, revision 2, firmware
        idle and block size 512 preset; nothing else. */
    constructor ()
      ensures registers == map[REG_CHIP_ID := 0x8800_0001, REG_CHIP_REV := 2,
                               REG_FW_STATUS := FW_STATUS_IDLE, REG_BLOCK_SIZE := BLOCK_SIZE_DEFAULT as u32]
    {
      registers := map[];
      new;
      Write(REG_CHIP_ID, 0x8800_0001);
      Write(REG_CHIP_REV, 0x0000_0002);
      Write(REG_FW_STATUS, FW_STATUS_IDLE);
      Write(REG_BLOCK_SIZE, BLOCK_SIZE_DEFAULT as u32);
    }

    /** `read`: a register never written reads 0. */
    function Read(address: u32): (v: u32)
      reads this
      ensures address in registers ==> v == registers[address]
      ensures address !in registers ==> v == 0
    {
      if address in registers then registers[address] else 0
    }

    /** `write`. */
    method Write(address: u32, value: u32)
      modifies this
      ensures registers == old(registers)[address := value]
      ensures Read(address) == value
    {
      registers := registers[address := value];
    }

    /** `set_bits`: the register becomes `current | mask`. */
    method SetBits(address: u32, mask: u32)
      modifies this
      ensures registers == old(registers)[address := SetMask(old(Read(address)), mask)]
      ensures forall k: nat :: Bit(Read(address), k) == (Bit(mask, k) || Bit(old(Read(address)), k))
    {
      var current := Read(address);
      Write(address, SetMask(current, mask));
    }

    /** `clear_bits`: the register becomes `current & !mask`. */
    method ClearBits(address: u32, mask: u32)
      modifies this
      ensures registers == old(registers)[address := ClearMask(old(Read(address)), mask)]
      ensures forall k: nat :: Bit(Read(address), k) == (!Bit(mask, k) && Bit(old(Read(address)), k))
    {
      var current := Read(address);
      Write(address, ClearMask(current, mask));
    }

    /** `modify_bits`: the register becomes `(current & !mask) | (value &
        mask)`. */
    method ModifyBits(address: u32, mask: u32, value: u32)
      modifies this
      ensures registers == old(registers)[address := Merge(old(Read(address)), mask, value)]
      ensures forall k: nat :: Bit(Read(address), k) == if Bit(mask, k) then Bit(value, k) else Bit(old(Read(address)), k)
    {
      var current := Read(address);
      Write(address, Merge(current, mask, value));
    }
  }

  /** A new map reads the DC chip id, a valid and named one, and 0 at a
      register it does not preset; a write to the host control register
      reads back. */
  method RegisterMapScenario() returns (chipId: u32, other: u32, host: u32)
    ensures chipId == 0x8800_0001 && IsValidChipId(chipId) && ChipIdToString(chipId) == "AIC8800DC"
    ensures other == 0 && host == 0x1234_5678
  {
    var map_ := new RegisterMap();
    chipId := map_.Read(REG_CHIP_ID);
    other := map_.Read(REG_INT_MASK);
    map_.Write(REG_HOST_CTRL, 0x1234_5678);
    host := map_.Read(REG_HOST_CTRL);
  }
}
