/** The generic GPIO drivers: `GpioBank` (one register block of pins),
    `GpioController` (several banks behind one pin numbering) and
    `AllwinnerGpio` (the Allwinner PIO block). The registers each driver
    reaches through its base pointer are a register file owned by the driver
    object, keyed by byte offset from that base. Integer arithmetic is that of
    a release build: `u32` sums and products wrap and a shift amount is taken
    modulo 32. */
module Gpio {
  import opened Common
  import opened Bits
  import opened DriverTraits

  // ------------------------------------------------------------ generic layout

  const GPIO_DATA: u32 := 0x00
  const GPIO_DIR: u32 := 0x04
  const GPIO_PULL: u32 := 0x1C
  const GPIO_INT_EN: u32 := 0x20
  const GPIO_INT_STA: u32 := 0x24

  /** The two-bit pull encoding: none 0, up 1, down 2. */
  function PullCode(p: GpioPull): (c: u32)
    ensures c < 4 && (c == 0 <==> p == PullNone)
  {
    match p
    case PullNone => 0
    case PullUp => 1
    case PullDown => 2
  }

  /** The bit `pin_mask` selects, `1 << (pin + pin_offset)`. */
  function PinBit(pin: u32, pinOffset: u32): nat
  {
    ((pin + pinOffset) % U32_MOD) % 32
  }

  function PinMask(pin: u32, pinOffset: u32): u32
  {
    BitMask(PinBit(pin, pinOffset))
  }

  /** Two pull bits per pin, sixteen pins per register from `GPIO_PULL`. */
  function PullShift(pin: u32): nat
  {
    (pin * 2 % U32_MOD) % 32
  }

  function PullReg(pin: u32): nat
  {
    GPIO_PULL + (pin * 2 % U32_MOD) / 32 * 4
  }

  /** Four alternate-function bits per pin, eight pins per register from 0. */
  function AltShift(pin: u32): nat
  {
    (pin % 8) * 4
  }

  function AltReg(pin: u32): nat
  {
    (pin / 8) * 4
  }

  // ------------------------------------------------------------ bank effects

  /** The level the bank reports for `pin`: its bit of the data register. */
  predicate BankLevel(regs: RegFile, pinOffset: u32, pin: u32)
  {
    Bit(RegAt(regs, GPIO_DATA), PinBit(pin, pinOffset))
  }

  /** The registers after `GpioBank::write(pin, value)` on a valid pin. */
  function BankWriteRegs(regs: RegFile, pinOffset: u32, pin: u32, value: bool): RegFile
  {
    var mask := PinMask(pin, pinOffset);
    ModifyReg(regs, GPIO_DATA, mask, if value then mask else 0)
  }

  /** The direction (and, for an output, initial level) part of `configure`. */
  function BankDirectionRegs(regs: RegFile, pinOffset: u32, pin: u32, config: GpioConfig): RegFile
  {
    var mask := PinMask(pin, pinOffset);
    match config.direction
    case Input => ModifyReg(regs, GPIO_DIR, mask, 0)
    case Output =>
      var r := ModifyReg(regs, GPIO_DIR, mask, mask);
      ModifyReg(r, GPIO_DATA, mask, if config.initialValue then mask else 0)
  }

  /** The pull part of `configure`. */
  function BankPullRegs(regs: RegFile, pin: u32, pull: GpioPull): RegFile
  {
    var shift := PullShift(pin);
    ModifyReg(regs, PullReg(pin), ShiftLeft(3, shift), ShiftLeft(PullCode(pull), shift))
  }

  /** The registers after `GpioBank::configure(pin, config)` on a valid pin. */
  function BankConfigureRegs(regs: RegFile, pinOffset: u32, pin: u32, config: GpioConfig): RegFile
  {
    BankPullRegs(BankDirectionRegs(regs, pinOffset, pin, config), pin, config.pull)
  }

  /** The registers after `GpioBank::set_alt_function(pin, func)` on a valid pin. */
  function BankAltRegs(regs: RegFile, pin: u32, func: u32): RegFile
  {
    var shift := AltShift(pin);
    ModifyReg(regs, AltReg(pin), ShiftLeft(0xF, shift), ShiftLeft(Mask(func, 0xF), shift))
  }

  // ------------------------------------------------------------ GpioBank

  class GpioBank {
    /** The bank's registers, by byte offset from its base. */
    var regs: RegFile
    const pinCount: u32
    const pinOffset: u32
    const bitsPerPin: u32

    /** `GpioBank::new`. */
    constructor(regs: RegFile, pinCount: u32)
      ensures this.regs == regs && this.pinCount == pinCount
      ensures pinOffset == 0 && bitsPerPin == 1
    {
      this.regs := regs;
      this.pinCount := pinCount;
      pinOffset := 0;
      bitsPerPin := 1;
    }

    /** `GpioBank::new_with_config`. */
    constructor WithConfig(regs: RegFile, pinCount: u32, pinOffset: u32, bitsPerPin: u32)
      ensures this.regs == regs && this.pinCount == pinCount
      ensures this.pinOffset == pinOffset && this.bitsPerPin == bitsPerPin
    {
      this.regs := regs;
      this.pinCount := pinCount;
      this.pinOffset := pinOffset;
      this.bitsPerPin := bitsPerPin;
    }

    /** `validate_pin`: a pin at or above the bank's count is an invalid parameter. */
    function ValidatePin(pin: u32): (r: DriverResult<()>)
      ensures r.Ok? <==> pin < pinCount
      ensures r.Err? ==> r.error == InvalidParam
    {
      if pin >= pinCount then Err(InvalidParam) else Ok(())
    }

    method ModifyRegister(offset: nat, mask: u32, value: u32)
      modifies this
      ensures regs == ModifyReg(old(regs), offset, mask, value)
    {
      var current := RegAt(regs, offset);
      regs := regs[offset := SetMask(ClearMask(current, mask), Mask(value, mask))];
    }

    /** `configure`: direction, then the initial level of an output, then the
        pull field. */
    method Configure(pin: u32, config: GpioConfig) returns (r: DriverResult<()>)
      modifies this
      ensures pin >= pinCount ==> r == Err(InvalidParam) && regs == old(regs)
      ensures pin < pinCount ==> r == Ok(()) && regs == BankConfigureRegs(old(regs), pinOffset, pin, config)
    {
      var _ :- ValidatePin(pin);
      var mask := PinMask(pin, pinOffset);
      match config.direction {
        case Input =>
          ModifyRegister(GPIO_DIR, mask, 0);
        case Output =>
          ModifyRegister(GPIO_DIR, mask, mask);
          if config.initialValue {
            ModifyRegister(GPIO_DATA, mask, mask);
          } else {
            ModifyRegister(GPIO_DATA, mask, 0);
          }
      }
      var pullOffset := (pin * 2 % U32_MOD) % 32;
      var pullReg := GPIO_PULL + ((pin * 2 % U32_MOD) / 32) * 4;
      var pullMask := ShiftLeft(3, pullOffset);
      var pullVal := ShiftLeft(PullCode(config.pull), pullOffset);
      ModifyRegister(pullReg, pullMask, pullVal);
      return Ok(());
    }

    /** `read`: whether the pin's bit of the data register is set. */
    function Read(pin: u32): (r: DriverResult<bool>)
      reads this
      ensures pin >= pinCount ==> r == Err(InvalidParam)
      ensures pin < pinCount ==> r == Ok(BankLevel(regs, pinOffset, pin))
    {
      if pin >= pinCount then Err(InvalidParam)
      else
        TestBit(RegAt(regs, GPIO_DATA), PinBit(pin, pinOffset));
        Ok(Mask(RegAt(regs, GPIO_DATA), PinMask(pin, pinOffset)) != 0)
    }

    /** `write`. */
    method Write(pin: u32, value: bool) returns (r: DriverResult<()>)
      modifies this
      ensures pin >= pinCount ==> r == Err(InvalidParam) && regs == old(regs)
      ensures pin < pinCount ==> r == Ok(()) && regs == BankWriteRegs(old(regs), pinOffset, pin, value)
    {
      var _ :- ValidatePin(pin);
      var mask := PinMask(pin, pinOffset);
      if value {
        ModifyRegister(GPIO_DATA, mask, mask);
      } else {
        ModifyRegister(GPIO_DATA, mask, 0);
      }
      return Ok(());
    }

    /** The default `toggle`: read the pin, then write the opposite level. */
    method Toggle(pin: u32) returns (r: DriverResult<()>)
      modifies this
      ensures pin >= pinCount ==> r == Err(InvalidParam) && regs == old(regs)
      ensures pin < pinCount ==>
                r == Ok(()) &&
                regs == BankWriteRegs(old(regs), pinOffset, pin, !BankLevel(old(regs), pinOffset, pin))
    {
      var current :- Read(pin);
      r := Write(pin, !current);
    }

    /** `set_alt_function`: the pin's four-bit field of its configuration register. */
    method SetAltFunction(pin: u32, func: u32) returns (r: DriverResult<()>)
      modifies this
      ensures pin >= pinCount ==> r == Err(InvalidParam) && regs == old(regs)
      ensures pin < pinCount ==> r == Ok(()) && regs == BankAltRegs(old(regs), pin, func)
    {
      var _ :- ValidatePin(pin);
      var cfgReg := (pin / 8) * 4;
      var cfgOffset := (pin % 8) * 4;
      var cfgMask := ShiftLeft(0xF, cfgOffset);
      var cfgVal := ShiftLeft(Mask(func, 0xF), cfgOffset);
      ModifyRegister(cfgReg, cfgMask, cfgVal);
      return Ok(());
    }
  }

  // ------------------------------------------------------------ bank properties

  /** Writing a pin sets its level to the written value and changes no other
      bit of the data register and no other register. */
  lemma BankWriteEffect(regs: RegFile, pinOffset: u32, pin: u32, value: bool)
    ensures var r := BankWriteRegs(regs, pinOffset, pin, value);
      BankLevel(r, pinOffset, pin) == value &&
      (forall k: nat :: k != PinBit(pin, pinOffset) ==>
         Bit(RegAt(r, GPIO_DATA), k) == Bit(RegAt(regs, GPIO_DATA), k)) &&
      (forall a: nat :: a != GPIO_DATA ==> RegAt(r, a) == RegAt(regs, a))
  {
    NoBitsOfZero();
  }

  /** Toggling a pin inverts its level; toggling it twice restores the
      registers. */
  lemma BankToggleTwice(regs: RegFile, pinOffset: u32, pin: u32)
    ensures var once := BankWriteRegs(regs, pinOffset, pin, !BankLevel(regs, pinOffset, pin));
      BankLevel(once, pinOffset, pin) == !BankLevel(regs, pinOffset, pin) &&
      BankWriteRegs(once, pinOffset, pin, !BankLevel(once, pinOffset, pin)) == regs[GPIO_DATA := RegAt(regs, GPIO_DATA)]
  {
    var level := BankLevel(regs, pinOffset, pin);
    var once := BankWriteRegs(regs, pinOffset, pin, !level);
    BankWriteEffect(regs, pinOffset, pin, !level);
    BankWriteEffect(once, pinOffset, pin, level);
    var twice := BankWriteRegs(once, pinOffset, pin, level);
    BitsDetermine(RegAt(twice, GPIO_DATA), RegAt(regs, GPIO_DATA));
  }

  /** `configure` sets the direction bit exactly for an output and changes no
      other direction bit. */
  lemma ConfigureDirection(regs: RegFile, pinOffset: u32, pin: u32, config: GpioConfig)
    ensures var r := BankConfigureRegs(regs, pinOffset, pin, config);
      Bit(RegAt(r, GPIO_DIR), PinBit(pin, pinOffset)) == (config.direction == Output) &&
      forall k: nat :: k != PinBit(pin, pinOffset) ==>
        Bit(RegAt(r, GPIO_DIR), k) == Bit(RegAt(regs, GPIO_DIR), k)
  {
    NoBitsOfZero();
  }

  /** An output starts at its initial level; configuring an input leaves the
      data register alone; no other pin's data bit changes. */
  lemma ConfigureLevel(regs: RegFile, pinOffset: u32, pin: u32, config: GpioConfig)
    ensures var r := BankConfigureRegs(regs, pinOffset, pin, config);
      (config.direction == Output ==> BankLevel(r, pinOffset, pin) == config.initialValue) &&
      (config.direction == Input ==> RegAt(r, GPIO_DATA) == RegAt(regs, GPIO_DATA)) &&
      forall k: nat :: k != PinBit(pin, pinOffset) ==>
        Bit(RegAt(r, GPIO_DATA), k) == Bit(RegAt(regs, GPIO_DATA), k)
  {
    NoBitsOfZero();
  }

  /** `configure` writes the pull code into the pin's two-bit field and keeps
      every other bit of that register. */
  lemma ConfigurePull(regs: RegFile, pinOffset: u32, pin: u32, config: GpioConfig)
    ensures var r := BankConfigureRegs(regs, pinOffset, pin, config);
      var shift := PullShift(pin);
      var before := RegAt(BankDirectionRegs(regs, pinOffset, pin, config), PullReg(pin));
      Extract(RegAt(r, PullReg(pin)), ShiftLeft(3, shift), shift) == PullCode(config.pull) &&
      forall k: nat :: !(shift <= k < shift + 2) ==> Bit(RegAt(r, PullReg(pin)), k) == Bit(before, k)
  {
    var shift := PullShift(pin);
    var before := RegAt(BankDirectionRegs(regs, pinOffset, pin, config), PullReg(pin));
    PullShiftFits(pin);
    PullField(before, shift, PullCode(config.pull));
  }

  lemma PullShiftFits(pin: u32)
    ensures PullShift(pin) + 2 <= 32
  {
    var x := pin * 2 % U32_MOD;
    assert x % 2 == 0;
  }

  /** Writing a two-bit code into the field at `shift` reads back as that
      code and keeps every bit outside the field. */
  lemma PullField(before: u32, shift: nat, code: u32)
    requires shift + 2 <= 32 && code < 4
    ensures var m := Merge(before, ShiftLeft(3, shift), ShiftLeft(code, shift));
      Extract(m, ShiftLeft(3, shift), shift) == code &&
      forall k: nat :: !(shift <= k < shift + 2) ==> Bit(m, k) == Bit(before, k)
  {
    SmallMasks();
    assert Pow2(2) == 4;
    FieldUpdate(before, 3, 2, shift, code);
    FieldRoundTrip(before, 3, 2, shift, code);
  }

  /** The pull register is never the data or direction register, so the
      pull write keeps what the direction step did; `configure` touches no
      register besides those three. */
  lemma ConfigureFrame(regs: RegFile, pinOffset: u32, pin: u32, config: GpioConfig)
    ensures PullReg(pin) != GPIO_DATA && PullReg(pin) != GPIO_DIR
    ensures var r := BankConfigureRegs(regs, pinOffset, pin, config);
      forall a: nat :: a != GPIO_DATA && a != GPIO_DIR && a != PullReg(pin) ==> RegAt(r, a) == RegAt(regs, a)
  {
  }

  /** The pull fields of pins 16 to 31 live at offset 0x20, which the same
      register layout names as the interrupt-enable register. */
  lemma HighPinPullIsInterruptEnable(pin: u32)
    requires 16 <= pin < 32
    ensures PullReg(pin) == GPIO_INT_EN
  {
  }

  /** `set_alt_function` writes the low four bits of `function` into the
      pin's field and keeps every other bit and register. */
  lemma AltFunctionEffect(regs: RegFile, pin: u32, func: u32)
    ensures var r := BankAltRegs(regs, pin, func);
      var shift := AltShift(pin);
      Extract(RegAt(r, AltReg(pin)), ShiftLeft(0xF, shift), shift) == Mask(func, 0xF) &&
      (forall k: nat :: !(shift <= k < shift + 4) ==> Bit(RegAt(r, AltReg(pin)), k) == Bit(RegAt(regs, AltReg(pin)), k)) &&
      (forall a: nat :: a != AltReg(pin) ==> RegAt(r, a) == RegAt(regs, a))
  {
    var shift := AltShift(pin);
    var before := RegAt(regs, AltReg(pin));
    SmallMasks();
    assert Pow2(4) == 16;
    assert Mask(func, 0xF) < Pow2(4) by {
      BelowPow2(Mask(func, 0xF), 4);
    }
    FieldUpdate(before, 0xF, 4, shift, Mask(func, 0xF));
    FieldRoundTrip(before, 0xF, 4, shift, Mask(func, 0xF));
  }

  /** The configuration registers of pins 0-7 and 8-15 are the data and
      direction registers of the same layout: in a bank with no pin offset,
      selecting function `func` for a pin `p` below 8 sets the levels of pins
      `4p` to `4p + 3` to the low bits of `func`. */
  lemma AltFunctionSharesData(regs: RegFile, p: u32, func: u32, j: nat)
    requires p < 8 && j < 4
    ensures AltReg(p) == GPIO_DATA && AltReg(p + 8) == GPIO_DIR
    ensures BankLevel(BankAltRegs(regs, p, func), 0, 4 * p + j) == Bit(func, j)
  {
    AltLayout(p, j);
    NibbleField(RegAt(regs, GPIO_DATA), func, 4 * p, j);
  }

  lemma AltLayout(p: u32, j: nat)
    requires p < 8 && j < 4
    ensures AltShift(p) == 4 * p && AltReg(p) == GPIO_DATA && AltReg(p + 8) == GPIO_DIR
    ensures PinBit(4 * p + j, 0) == 4 * p + j
  {
  }

  /** Bit `j` of the four-bit field at `shift` after it is set to the low
      nibble of `func` is bit `j` of `func`. */
  lemma NibbleField(w: u32, func: u32, shift: nat, j: nat)
    requires shift + 4 <= 32 && j < 4
    ensures Bit(Merge(w, ShiftLeft(0xF, shift), ShiftLeft(Mask(func, 0xF), shift)), shift + j) == Bit(func, j)
  {
    SmallMasks();
    FieldUpdate(w, 0xF, 4, shift, Mask(func, 0xF));
  }

  // ------------------------------------------------------------ GpioController

  /** The number of pins of all `banks` together. */
  function TotalPins(banks: seq<GpioBank>): nat
  {
    if banks == [] then 0 else banks[0].pinCount + TotalPins(banks[1..])
  }

  class GpioController {
    var banks: seq<GpioBank>
    const pinsPerBank: u32

    /** Every bank is its own object. */
    ghost predicate Valid()
      reads this
    {
      forall i, j :: 0 <= i < j < |banks| ==> banks[i] != banks[j]
    }

    /** `GpioController::new`. */
    constructor(pinsPerBank: u32)
      ensures this.pinsPerBank == pinsPerBank && banks == [] && Valid()
    {
      this.pinsPerBank := pinsPerBank;
      banks := [];
    }

    /** `add_bank`: a new bank with no pin offset, after the existing ones. */
    method AddBank(regs: RegFile, pinCount: u32)
      requires Valid()
      modifies this
      ensures Valid() && |banks| == |old(banks)| + 1 && banks[..|old(banks)|] == old(banks)
      ensures fresh(banks[|old(banks)|])
      ensures banks[|old(banks)|].regs == regs && banks[|old(banks)|].pinCount == pinCount
      ensures banks[|old(banks)|].pinOffset == 0
    {
      var bank := new GpioBank(regs, pinCount);
      banks := banks + [bank];
    }

    /** `pin_count`: the banks' pin counts summed in `u32`. */
    function PinCount(): (n: u32)
      reads this
      ensures n == TotalPins(banks) % U32_MOD
    {
      TotalPins(banks) % U32_MOD
    }

    /** `get_bank_and_pin`: bank `pin / pins_per_bank`, pin `pin % pins_per_bank`
        inside it; a bank that does not exist is an invalid parameter. A
        controller with zero pins per bank divides by zero, which panics. */
    function Route(pin: u32): (r: DriverResult<(GpioBank, u32)>)
      requires pinsPerBank != 0
      reads this
      ensures r.Ok? <==> pin / pinsPerBank < |banks|
      ensures r.Err? ==> r.error == InvalidParam
      ensures r.Ok? ==> r.value.0 == banks[pin / pinsPerBank] && r.value.1 == pin % pinsPerBank
    {
      var bankIdx := pin / pinsPerBank;
      var pinInBank := pin % pinsPerBank;
      if bankIdx < |banks| then Ok((banks[bankIdx], pinInBank)) else Err(InvalidParam)
    }

    /** `read`, through the routed bank. */
    function Read(pin: u32): (r: DriverResult<bool>)
      requires pinsPerBank != 0
      reads this, banks
      ensures Route(pin).Err? ==> r == Err(InvalidParam)
      ensures Route(pin).Ok? ==> r == Route(pin).value.0.Read(Route(pin).value.1)
    {
      var routed :- Route(pin);
      var (bank, pinInBank) := routed;
      bank.Read(pinInBank)
    }

    /** `write`, through the routed bank; every other bank is untouched. */
    method Write(pin: u32, value: bool) returns (r: DriverResult<()>)
      requires Valid() && pinsPerBank != 0
      modifies banks
      ensures Route(pin).Err? ==> r == Err(InvalidParam) && forall b :: b in banks ==> b.regs == old(b.regs)
      ensures Route(pin).Ok? ==>
                var (bank, p) := Route(pin).value;
                (p >= bank.pinCount ==> r == Err(InvalidParam) && bank.regs == old(bank.regs)) &&
                (p < bank.pinCount ==> r == Ok(()) && bank.regs == BankWriteRegs(old(bank.regs), bank.pinOffset, p, value)) &&
                forall b :: b in banks && b != bank ==> b.regs == old(b.regs)
    {
      var routed :- Route(pin);
      var (bank, pinInBank) := routed;
      r := bank.Write(pinInBank, value);
    }

    /** `configure`, through the routed bank. */
    method Configure(pin: u32, config: GpioConfig) returns (r: DriverResult<()>)
      requires Valid() && pinsPerBank != 0
      modifies banks
      ensures Route(pin).Err? ==> r == Err(InvalidParam) && forall b :: b in banks ==> b.regs == old(b.regs)
      ensures Route(pin).Ok? ==>
                var (bank, p) := Route(pin).value;
                (p >= bank.pinCount ==> r == Err(InvalidParam) && bank.regs == old(bank.regs)) &&
                (p < bank.pinCount ==> r == Ok(()) && bank.regs == BankConfigureRegs(old(bank.regs), bank.pinOffset, p, config)) &&
                forall b :: b in banks && b != bank ==> b.regs == old(b.regs)
    {
      var routed :- Route(pin);
      var (bank, pinInBank) := routed;
      r := bank.Configure(pinInBank, config);
    }

    /** `set_alt_function`, through the routed bank. */
    method SetAltFunction(pin: u32, func: u32) returns (r: DriverResult<()>)
      requires Valid() && pinsPerBank != 0
      modifies banks
      ensures Route(pin).Err? ==> r == Err(InvalidParam) && forall b :: b in banks ==> b.regs == old(b.regs)
      ensures Route(pin).Ok? ==>
                var (bank, p) := Route(pin).value;
                (p >= bank.pinCount ==> r == Err(InvalidParam) && bank.regs == old(bank.regs)) &&
                (p < bank.pinCount ==> r == Ok(()) && bank.regs == BankAltRegs(old(bank.regs), p, func)) &&
                forall b :: b in banks && b != bank ==> b.regs == old(b.regs)
    {
      var routed :- Route(pin);
      var (bank, pinInBank) := routed;
      r := bank.SetAltFunction(pinInBank, func);
    }
  }

  /** Banks that all hold `n` pins hold `|banks| * n` pins together. */
  lemma {:induction false} TotalPinsUniform(banks: seq<GpioBank>, n: nat)
    requires forall i :: 0 <= i < |banks| ==> banks[i].pinCount == n
    ensures TotalPins(banks) == |banks| * n
  {
    if banks != [] {
      TotalPinsUniform(banks[1..], n);
    }
  }

  /** When every bank holds exactly `pins_per_bank` pins and the total fits
      in `u32`, the controller accepts exactly the pins below its pin count. */
  lemma ControllerCoversPinCount(c: GpioController, pin: u32)
    requires c.pinsPerBank != 0
    requires forall i :: 0 <= i < |c.banks| ==> c.banks[i].pinCount == c.pinsPerBank
    requires TotalPins(c.banks) < U32_MOD
    ensures c.Route(pin).Ok? <==> pin < c.PinCount()
  {
    TotalPinsUniform(c.banks, c.pinsPerBank);
    DivBelow(pin, c.pinsPerBank, |c.banks|);
  }

  /** When every bank holds exactly `pins_per_bank` pins, a pin the
      controller routes is a valid pin of its bank, so reading it succeeds. */
  lemma RoutedPinIsValid(c: GpioController, pin: u32)
    requires c.pinsPerBank != 0
    requires forall i :: 0 <= i < |c.banks| ==> c.banks[i].pinCount == c.pinsPerBank
    requires c.Route(pin).Ok?
    ensures c.Route(pin).value.1 < c.Route(pin).value.0.pinCount
    ensures c.Read(pin).Ok?
  {
    var i := pin / c.pinsPerBank;
    var p := pin % c.pinsPerBank;
    ModBelow(pin, c.pinsPerBank);
    assert c.Route(pin).value == (c.banks[i], p);
    assert c.banks[i].pinCount == c.pinsPerBank;
  }

  lemma ModBelow(x: nat, n: nat)
    requires n > 0
    ensures x % n < n
  {
  }

  lemma DivBelow(x: nat, n: nat, m: nat)
    requires n > 0
    ensures x / n < m <==> x < m * n
  {
    var q := x / n;
    assert x == q * n + x % n;
    if q < m {
      assert (q + 1) * n <= m * n;
    } else {
      assert q * n >= m * n;
    }
  }

  // ------------------------------------------------------------ Allwinner PIO

  const PINS_PER_BANK: u32 := 32
  const BANK_SIZE: u32 := 0x24

  const CFG0: u32 := 0x00
  const CFG1: u32 := 0x04
  const CFG2: u32 := 0x08
  const CFG3: u32 := 0x0C
  const DATA: u32 := 0x10
  const PULL0: u32 := 0x1C
  const PULL1: u32 := 0x20

  /** The byte offset of register `offset` of `bank` from the PIO base: the
      bank's block starts `bank * BANK_SIZE` bytes in, a `u32` product. */
  function AwReg(bank: u32, offset: u32): nat
  {
    bank * BANK_SIZE % U32_MOD + offset
  }

  /** The configuration register of pin `p` of a bank: eight pins per register. */
  function CfgReg(p: nat): u32
    requires p < 32
  {
    match p / 8
    case 0 => CFG0
    case 1 => CFG1
    case 2 => CFG2
    case _ => CFG3
  }

  function CfgShift(p: nat): nat
  {
    (p % 8) * 4
  }

  /** The pull register and field of pin `p`: sixteen pins per register. */
  function AwPullReg(p: nat): u32
  {
    if p < 16 then PULL0 else PULL1
  }

  function AwPullShift(p: nat): nat
  {
    (p % 16) * 2
  }

  function DirectionCode(d: GpioDirection): u32
  {
    match d
    case Input => 0
    case Output => 1
  }

  /** `(current & !mask) | value`: how the Allwinner driver updates a field. */
  function OrField(regs: RegFile, a: nat, mask: u32, value: u32): RegFile
  {
    regs[a := SetMask(ClearMask(RegAt(regs, a), mask), value)]
  }

  /** Set or clear one bit of a register. */
  function SetBitTo(regs: RegFile, a: nat, k: nat, value: bool): RegFile
    requires k < 32
  {
    var w := RegAt(regs, a);
    regs[a := if value then SetMask(w, BitMask(k)) else ClearMask(w, BitMask(k))]
  }

  /** The level of pin `p` of `bank`. */
  predicate AwLevel(regs: RegFile, bank: u32, p: nat)
  {
    Bit(RegAt(regs, AwReg(bank, DATA)), p)
  }

  /** The registers after `AllwinnerGpio::configure` of pin `p` of `bank`. */
  function AwConfigureRegs(regs: RegFile, bank: u32, p: nat, config: GpioConfig): RegFile
    requires p < 32
  {
    var cfgShift := CfgShift(p);
    var r1 := OrField(regs, AwReg(bank, CfgReg(p)), ShiftLeft(0xF, cfgShift),
                      ShiftLeft(DirectionCode(config.direction), cfgShift));
    var r2 := if config.direction == Output then SetBitTo(r1, AwReg(bank, DATA), p, config.initialValue) else r1;
    var pullShift := AwPullShift(p);
    OrField(r2, AwReg(bank, AwPullReg(p)), ShiftLeft(3, pullShift), ShiftLeft(PullCode(config.pull), pullShift))
  }

  /** The registers after `AllwinnerGpio::set_alt_function`. */
  function AwAltRegs(regs: RegFile, bank: u32, p: nat, func: u32): RegFile
    requires p < 32
  {
    var shift := CfgShift(p);
    OrField(regs, AwReg(bank, CfgReg(p)), ShiftLeft(0xF, shift), ShiftLeft(Mask(func, 0xF), shift))
  }

  class AllwinnerGpio {
    /** The whole PIO block, by byte offset from its base. */
    var regs: RegFile
    const bankCount: u32

    constructor(regs: RegFile, bankCount: u32)
      ensures this.regs == regs && this.bankCount == bankCount
    {
      this.regs := regs;
      this.bankCount := bankCount;
    }

    /** `pin_count`: `bank_count * 32` in `u32`: a whole number of banks,
        exact while it fits. */
    function PinCount(): (n: u32)
      ensures n % PINS_PER_BANK == 0
      ensures bankCount < 0x800_0000 ==> n == bankCount * PINS_PER_BANK
    {
      bankCount * PINS_PER_BANK % U32_MOD
    }

    /** `validate`: the pin's bank must exist. */
    function Validate(pin: u32): (r: DriverResult<(u32, nat)>)
      ensures r.Ok? <==> pin / PINS_PER_BANK < bankCount
      ensures r.Err? ==> r.error == InvalidParam
      ensures r.Ok? ==> r.value == (pin / PINS_PER_BANK, pin % PINS_PER_BANK)
    {
      var bank := pin / PINS_PER_BANK;
      var pinInBank := pin % PINS_PER_BANK;
      if bank >= bankCount || pinInBank >= PINS_PER_BANK then Err(InvalidParam)
      else Ok((bank, pinInBank))
    }

    /** `configure`: the function field (0 input, 1 output), then the
        initial level of an output, then the pull field. */
    method Configure(pin: u32, config: GpioConfig) returns (r: DriverResult<()>)
      modifies this
      ensures Validate(pin).Err? ==> r == Err(InvalidParam) && regs == old(regs)
      ensures Validate(pin).Ok? ==>
                r == Ok(()) &&
                regs == AwConfigureRegs(old(regs), pin / PINS_PER_BANK, pin % PINS_PER_BANK, config)
    {
      var routed :- Validate(pin);
      var (bank, pinInBank) := routed;
      var cfgReg := CfgReg(pinInBank);
      var cfgOffset := (pinInBank % 8) * 4;
      var cfgMask := ShiftLeft(0xF, cfgOffset);
      var cfgVal := ShiftLeft(DirectionCode(config.direction), cfgOffset);
      var current := RegAt(regs, AwReg(bank, cfgReg));
      regs := regs[AwReg(bank, cfgReg) := SetMask(ClearMask(current, cfgMask), cfgVal)];
      if config.direction == Output {
        var data := RegAt(regs, AwReg(bank, DATA));
        var mask := BitMask(pinInBank);
        if config.initialValue {
          regs := regs[AwReg(bank, DATA) := SetMask(data, mask)];
        } else {
          regs := regs[AwReg(bank, DATA) := ClearMask(data, mask)];
        }
      }
      var pullReg := if pinInBank < 16 then PULL0 else PULL1;
      var pullOffset := (pinInBank % 16) * 2;
      var pullMask := ShiftLeft(3, pullOffset);
      var pullVal := ShiftLeft(PullCode(config.pull), pullOffset);
      current := RegAt(regs, AwReg(bank, pullReg));
      regs := regs[AwReg(bank, pullReg) := SetMask(ClearMask(current, pullMask), pullVal)];
      return Ok(());
    }

    /** `read`. */
    function Read(pin: u32): (r: DriverResult<bool>)
      reads this
      ensures Validate(pin).Err? ==> r == Err(InvalidParam)
      ensures Validate(pin).Ok? ==> r == Ok(AwLevel(regs, pin / PINS_PER_BANK, pin % PINS_PER_BANK))
    {
      var routed :- Validate(pin);
      var (bank, pinInBank) := routed;
      var data := RegAt(regs, AwReg(bank, DATA));
      TestBit(data, pinInBank);
      Ok(Mask(data, BitMask(pinInBank)) != 0)
    }

    /** `write`. */
    method Write(pin: u32, value: bool) returns (r: DriverResult<()>)
      modifies this
      ensures Validate(pin).Err? ==> r == Err(InvalidParam) && regs == old(regs)
      ensures Validate(pin).Ok? ==>
                r == Ok(()) &&
                regs == SetBitTo(old(regs), AwReg(pin / PINS_PER_BANK, DATA), pin % PINS_PER_BANK, value)
    {
      var routed :- Validate(pin);
      var (bank, pinInBank) := routed;
      var data := RegAt(regs, AwReg(bank, DATA));
      var mask := BitMask(pinInBank);
      if value {
        regs := regs[AwReg(bank, DATA) := SetMask(data, mask)];
      } else {
        regs := regs[AwReg(bank, DATA) := ClearMask(data, mask)];
      }
      return Ok(());
    }

    /** `set_alt_function`. */
    method SetAltFunction(pin: u32, func: u32) returns (r: DriverResult<()>)
      modifies this
      ensures Validate(pin).Err? ==> r == Err(InvalidParam) && regs == old(regs)
      ensures Validate(pin).Ok? ==>
                r == Ok(()) &&
                regs == AwAltRegs(old(regs), pin / PINS_PER_BANK, pin % PINS_PER_BANK, func)
    {
      var routed :- Validate(pin);
      var (bank, pinInBank) := routed;
      var cfgReg := CfgReg(pinInBank);
      var cfgOffset := (pinInBank % 8) * 4;
      var cfgMask := ShiftLeft(0xF, cfgOffset);
      var cfgVal := ShiftLeft(Mask(func, 0xF), cfgOffset);
      var current := RegAt(regs, AwReg(bank, cfgReg));
      regs := regs[AwReg(bank, cfgReg) := SetMask(ClearMask(current, cfgMask), cfgVal)];
      return Ok(());
    }
  }

  // ------------------------------------------------------------ Allwinner properties

  /** With fewer than 2^27 banks the pin count does not wrap, and a pin is
      valid exactly when it is below it. */
  lemma AwValidExactlyBelowPinCount(g: AllwinnerGpio, pin: u32)
    requires g.bankCount * PINS_PER_BANK < U32_MOD
    ensures g.Validate(pin).Ok? <==> pin < g.PinCount()
  {
  }

  /** While the banks' blocks do not wrap, registers of different banks or
      different offsets below `BANK_SIZE` are different registers. */
  lemma AwRegistersDistinct(b1: u32, o1: u32, b2: u32, o2: u32)
    requires b1 * BANK_SIZE < U32_MOD && b2 * BANK_SIZE < U32_MOD
    requires o1 < BANK_SIZE && o2 < BANK_SIZE
    requires b1 != b2 || o1 != o2
    ensures AwReg(b1, o1) != AwReg(b2, o2)
  {
    assert AwReg(b1, o1) == b1 * 0x24 + o1;
    assert AwReg(b2, o2) == b2 * 0x24 + o2;
    if b1 < b2 {
      assert b1 * 0x24 + 0x24 <= b2 * 0x24;
    } else if b2 < b1 {
      assert b2 * 0x24 + 0x24 <= b1 * 0x24;
    }
  }

  /** Writing a pin sets its level, keeps every other bit of its bank's data
      register, and touches no other register. */
  lemma AwWriteEffect(regs: RegFile, bank: u32, p: nat, value: bool)
    requires p < 32
    ensures var r := SetBitTo(regs, AwReg(bank, DATA), p, value);
      AwLevel(r, bank, p) == value &&
      (forall k: nat :: k != p ==> Bit(RegAt(r, AwReg(bank, DATA)), k) == Bit(RegAt(regs, AwReg(bank, DATA)), k)) &&
      (forall a: nat :: a != AwReg(bank, DATA) ==> RegAt(r, a) == RegAt(regs, a))
  {
  }

  /** The field update the Allwinner driver writes is a masked merge when the
      value fits the field. */
  lemma OrFieldIsMerge(regs: RegFile, a: nat, ones: u32, width: nat, shift: nat, v: u32)
    requires 0 < width && shift + width <= 32
    requires forall k: nat :: Bit(ones, k) == (k < width)
    requires v < Pow2(width)
    ensures OrField(regs, a, ShiftLeft(ones, shift), ShiftLeft(v, shift)) ==
            regs[a := Merge(RegAt(regs, a), ShiftLeft(ones, shift), ShiftLeft(v, shift))]
  {
    OrIntoClearedField(RegAt(regs, a), ones, width, shift, v);
  }

  /** `configure` leaves the direction code in the pin's four-bit
      configuration field and the pull code in its two-bit pull field, and an
      output starts at its initial level. */
  lemma AwConfigureEffect(regs: RegFile, bank: u32, p: nat, config: GpioConfig)
    requires p < 32
    requires bank * BANK_SIZE < U32_MOD
    ensures var r := AwConfigureRegs(regs, bank, p, config);
      Extract(RegAt(r, AwReg(bank, CfgReg(p))), ShiftLeft(0xF, CfgShift(p)), CfgShift(p)) == DirectionCode(config.direction) &&
      Extract(RegAt(r, AwReg(bank, AwPullReg(p))), ShiftLeft(3, AwPullShift(p)), AwPullShift(p)) == PullCode(config.pull) &&
      (config.direction == Output ==> AwLevel(r, bank, p) == config.initialValue)
  {
    SmallMasks();
    assert Pow2(2) == 4 && Pow2(4) == 16;
    var cfgShift := CfgShift(p);
    var pullShift := AwPullShift(p);
    var cfgA := AwReg(bank, CfgReg(p));
    var dataA := AwReg(bank, DATA);
    var pullA := AwReg(bank, AwPullReg(p));
    assert cfgA != dataA && cfgA != pullA && dataA != pullA;
    var r1 := OrField(regs, cfgA, ShiftLeft(0xF, cfgShift), ShiftLeft(DirectionCode(config.direction), cfgShift));
    OrFieldIsMerge(regs, cfgA, 0xF, 4, cfgShift, DirectionCode(config.direction));
    FieldRoundTrip(RegAt(regs, cfgA), 0xF, 4, cfgShift, DirectionCode(config.direction));
    var r2 := if config.direction == Output then SetBitTo(r1, dataA, p, config.initialValue) else r1;
    OrFieldIsMerge(r2, pullA, 3, 2, pullShift, PullCode(config.pull));
    FieldRoundTrip(RegAt(r2, pullA), 3, 2, pullShift, PullCode(config.pull));
  }

  /** `set_alt_function` leaves the low four bits of `function` in the pin's
      configuration field and keeps every other bit and register. */
  lemma AwAltFunctionEffect(regs: RegFile, bank: u32, p: nat, func: u32)
    requires p < 32
    ensures var r := AwAltRegs(regs, bank, p, func);
      var a := AwReg(bank, CfgReg(p));
      Extract(RegAt(r, a), ShiftLeft(0xF, CfgShift(p)), CfgShift(p)) == Mask(func, 0xF) &&
      (forall k: nat :: !(CfgShift(p) <= k < CfgShift(p) + 4) ==> Bit(RegAt(r, a), k) == Bit(RegAt(regs, a), k)) &&
      (forall b: nat :: b != a ==> RegAt(r, b) == RegAt(regs, b))
  {
    var a := AwReg(bank, CfgReg(p));
    var v := Mask(func, 0xF);
    SmallMasks();
    assert Pow2(4) == 16;
    assert v < Pow2(4) by {
      BelowPow2(v, 4);
    }
    OrFieldIsMerge(regs, a, 0xF, 4, CfgShift(p), v);
    FieldUpdate(RegAt(regs, a), 0xF, 4, CfgShift(p), v);
    FieldRoundTrip(RegAt(regs, a), 0xF, 4, CfgShift(p), v);
  }
}
