/** `GenericUart`, the 16550-compatible serial driver, and `EarlyConsole`, the
    polled debug writer. The UART's registers are device registers: a load
    returns whatever the device answers at that moment, so the driver is
    modelled by the list of accesses it makes (`trace`) and the device by the
    value it answers to a load made as the `k`-th access (`answer(k)`). */
module Uart {
  import opened Common
  import opened Bits
  import opened DriverTraits

  // ---------------------------------------------------------------- registers

  /** Register offsets of the 16550 layout. The divisor latches share their
      offsets with the data and interrupt-enable registers. */
  const RBR_THR: u32 := 0x00
  const IER: u32 := 0x04
  const IIR_FCR: u32 := 0x08
  const LCR: u32 := 0x0C
  const MCR: u32 := 0x10
  const LSR: u32 := 0x14
  const DLL: u32 := 0x00
  const DLH: u32 := 0x04

  /** Line status bits, by position: the status masks are `1 << DATA_READY`
      and so on. */
  const DATA_READY: nat := 0
  const TX_HOLDING_EMPTY: nat := 5
  const TX_EMPTY: nat := 6

  /** Line control bits; the word length is the two-bit field `WORD_LENGTH`,
      holding the number of data bits minus 5. */
  const WORD_LENGTH: u32 := 0x03
  const STOP_BITS_1: u32 := 0
  const STOP_BITS_2: u32 := BitMask(2)
  const PARITY_ENABLE: u32 := BitMask(3)
  const PARITY_EVEN: u32 := BitMask(4)
  const DLAB: u32 := BitMask(7)

  /** `FIFO_ENABLE | RX_FIFO_RESET | TX_FIFO_RESET | RX_TRIGGER_8`. */
  const FCR_SETUP: u32 := 0x87

  /** Modem control bits. */
  const DTR: u32 := BitMask(0)
  const RTS: u32 := BitMask(1)
  const AUTOFLOW: u32 := BitMask(5)

  /** The polls `write` allows per byte and `flush` allows in all. */
  const WRITE_POLLS: nat := 100_000
  const FLUSH_POLLS: nat := 1_000_000

  /** One access to the register window: the word index of the register and,
      for a store, the value written. */
  datatype Access = Load(index: nat) | Store(index: nat, value: u32)

  /** `read_reg` / `write_reg`: offset `offset` of the layout is word
      `(offset << reg_shift) / 4` of the window; the shift count wraps as a
      release build's `<<` does. */
  function Index(shift: u32, offset: u32): nat
  {
    ShiftLeft(offset, shift % 32) / 4
  }

  lemma Pow2Grows(a: nat, b: nat)
    requires a <= b
    ensures Pow2(a) <= Pow2(b)
    decreases b - a
  {
    if a < b {
      Pow2Grows(a + 1, b);
    }
  }

  /** While the shifted offset fits in 32 bits, a word-aligned offset lands
      on word `offset / 4 * 2^shift`. */
  lemma RegisterIndex(shift: u32, offset: u32)
    requires shift < 32 && offset % 4 == 0 && offset * Pow2(shift) < U32_MOD
    ensures Index(shift, offset) == offset / 4 * Pow2(shift)
  {
    IndexIsQuotient(shift, offset);
    QuarterOfProduct(offset / 4, Pow2(shift), offset);
  }

  lemma IndexIsQuotient(shift: u32, offset: u32)
    requires shift < 32 && offset * Pow2(shift) < U32_MOD
    ensures Index(shift, offset) == offset * Pow2(shift) / 4
  {
    ShiftLeftIsMul(offset, shift);
    ProductIsNat(offset, Pow2(shift));
    SmallMod(offset * Pow2(shift), U32_MOD);
    SameShift(offset, shift % 32, shift);
  }

  lemma SameShift(v: u32, s1: nat, s2: nat)
    requires s1 == s2 < 32
    ensures ShiftLeft(v, s1) == ShiftLeft(v, s2)
  {
  }

  lemma SmallMod(x: nat, m: nat)
    requires x < m
    ensures x % m == x
  {
  }

  lemma QuarterOfProduct(q: nat, p: nat, o: nat)
    requires o == 4 * q
    ensures o * p / 4 == q * p
  {
    FourTimes(q, p);
    DivUnique(o * p, 4, q * p, 0);
  }

  lemma FourTimes(q: nat, p: nat)
    ensures (4 * q) * p == 4 * (q * p)
  {
  }

  /** For every register shift up to 27 the six registers sit on six distinct
      words, spaced `2^shift` apart: with shift 0 they are words 0 to 5, with
      shift 2 words 0, 4, 8, 12, 16 and 20. */
  lemma RegistersDistinct(shift: u32)
    requires shift <= 27
    ensures Index(shift, RBR_THR) == 0
    ensures Index(shift, IER) == Pow2(shift)
    ensures Index(shift, IIR_FCR) == 2 * Pow2(shift)
    ensures Index(shift, LCR) == 3 * Pow2(shift)
    ensures Index(shift, MCR) == 4 * Pow2(shift)
    ensures Index(shift, LSR) == 5 * Pow2(shift)
  {
    Pow2Grows(shift, 27);
    Pow2Word();
    assert Pow2(32) == 32 * Pow2(27) by {
      assert Pow2(32) == 2 * Pow2(31) && Pow2(31) == 2 * Pow2(30);
      assert Pow2(30) == 2 * Pow2(29) && Pow2(29) == 2 * Pow2(28) && Pow2(28) == 2 * Pow2(27);
    }
    MulMonotone(LSR, Pow2(shift), Pow2(27));
    RegisterIndex(shift, RBR_THR);
    RegisterIndex(shift, IER);
    RegisterIndex(shift, IIR_FCR);
    RegisterIndex(shift, LCR);
    RegisterIndex(shift, MCR);
    RegisterIndex(shift, LSR);
  }

  /** Where each register sits in the window: the word index of every
      offset of the layout, for one register shift. */
  datatype Window = Window(thr: nat, ier: nat, fcr: nat, lcr: nat, mcr: nat, lsr: nat, dll: nat, dlh: nat)

  function WindowFor(shift: u32): Window
  {
    Window(Index(shift, RBR_THR), Index(shift, IER), Index(shift, IIR_FCR), Index(shift, LCR),
           Index(shift, MCR), Index(shift, LSR), Index(shift, DLL), Index(shift, DLH))
  }

  /** `(reg & bit) != 0`, for a single-bit mask `bit`. */
  predicate Raised(reg: u32, bit: u32)
  {
    Mask(reg, bit) != 0
  }

  /** `(lsr & (1 << k)) != 0`: the line status reports condition `k`. */
  predicate Reports(lsr: u32, k: nat)
  {
    Bit(lsr, k)
  }

  /** Testing a status bit by position is testing it with its mask. */
  lemma ReportsIsRaised(lsr: u32, k: nat)
    requires k < 32
    ensures Reports(lsr, k) <==> Raised(lsr, BitMask(k))
  {
    TestBit(lsr, k);
  }

  // ---------------------------------------------------------------- baud rate

  /** `16 * baud` wraps like the rest of the `u32` arithmetic; a zero divisor
      panics, so `calc_divisor` is only defined where it is not zero. */
  predicate DivisorDefined(baud: u32)
  {
    16 * baud % U32_MOD != 0
  }

  /** `calc_divisor`: `(clock + 8 * baud) / (16 * baud)`, capped at 0xFFFF. */
  function CalcDivisor(clockHz: u32, baud: u32): (d: u16)
    requires DivisorDefined(baud)
    ensures clockHz + 8 * baud < 16 * baud < U32_MOD ==> d == 0
  {
    var sum: u32 := (clockHz + 8 * baud % U32_MOD) % U32_MOD;
    var unit: u32 := 16 * baud % U32_MOD;
    SlowClockSums(clockHz, baud, sum, unit);
    var divisor := RoundedQuotient(sum, unit);
    if divisor < 0xFFFF then divisor else 0xFFFF
  }

  /** Without wrap-around, a clock below 8 times the baud rate leaves the
      rounded dividend below the unit. */
  lemma SlowClockSums(clockHz: u32, baud: u32, sum: nat, unit: nat)
    requires sum == (clockHz + 8 * baud % U32_MOD) % U32_MOD && unit == 16 * baud % U32_MOD
    ensures clockHz + 8 * baud < 16 * baud < U32_MOD ==> sum < unit
  {
    if clockHz + 8 * baud < 16 * baud < U32_MOD {
      assert 8 * baud % U32_MOD == 8 * baud;
      assert sum == clockHz + 8 * baud;
      assert unit == 16 * baud;
    }
  }

  /** The `u32` division of `calc_divisor`: never above the dividend, and 0
      when the dividend is below the unit. */
  function RoundedQuotient(sum: u32, unit: u32): (q: u32)
    requires unit > 0
    ensures q <= sum
    ensures sum < unit ==> q == 0
  {
    DivAtMost(sum, unit);
    if sum < unit then DivUnique(sum, unit, 0, sum); sum / unit
    else sum / unit
  }

  /** Without wrap-around the divisor is `clock / (16 * baud)` rounded to the
      nearest integer, unless that is above 0xFFFF, where it is capped. */
  lemma DivisorRounds(clockHz: u32, baud: u32)
    requires 0 < baud && clockHz + 8 * baud < U32_MOD && 16 * baud < U32_MOD
    ensures DivisorDefined(baud)
    ensures var d := CalcDivisor(clockHz, baud);
      (d < 0xFFFF ==> 16 * baud * d - 8 * baud <= clockHz < 16 * baud * d + 8 * baud) &&
      (d == 0xFFFF ==> 16 * baud * 0xFFFF - 8 * baud <= clockHz)
  {
    var unit := 16 * baud;
    var sum := clockHz + 8 * baud;
    assert 8 * baud % U32_MOD == 8 * baud;
    assert sum % U32_MOD == sum;
    assert unit % U32_MOD == unit;
    var q := sum / unit;
    assert unit * q <= sum < unit * q + unit;
    if q >= 0xFFFF {
      MulMonotone(unit, 0xFFFF, q);
    }
  }

  /** With a 24 MHz clock, 115200 baud gives 13 and 9600 baud gives 156. */
  lemma DivisorExamples()
    ensures CalcDivisor(24_000_000, 115200) == 13
    ensures CalcDivisor(24_000_000, 9600) == 156
  {
    assert (24_000_000 + 8 * 115200 % U32_MOD) % U32_MOD == 24_921_600;
    assert 16 * 115200 % U32_MOD == 1_843_200;
    assert 24_921_600 / 1_843_200 == 13;
    assert (24_000_000 + 8 * 9600 % U32_MOD) % U32_MOD == 24_076_800;
    assert 16 * 9600 % U32_MOD == 153_600;
    assert 24_076_800 / 153_600 == 156;
  }

  /** The two divisor-latch bytes `set_divisor` writes: the low byte to DLL
      and the high byte to DLH. */
  function DivisorLow(d: u16): (r: u32)
    ensures r == d % 0x100
  {
    LowByte(d);
    Mask(d, 0xFF)
  }

  function DivisorHigh(d: u16): (r: u32)
    ensures r == d / 0x100
  {
    HighByte(d);
    LowByte(d / 0x100);
    Mask(ShiftRight(d, 8), 0xFF)
  }

  /** The two latch bytes are bytes and put the divisor back together. */
  lemma DivisorLatches(d: u16)
    ensures DivisorLow(d) < 0x100 && DivisorHigh(d) < 0x100
    ensures DivisorLow(d) + 0x100 * DivisorHigh(d) == d
  {
  }

  /** The low byte of a word is the word modulo 256. */
  lemma LowByte(w: u32)
    ensures Mask(w, 0xFF) == w % 0x100
  {
    Pow2Byte();
    MaskLowOnes(w, 8);
  }

  /** A word shifted right by 8 is the word divided by 256. */
  lemma HighByte(w: u32)
    ensures ShiftRight(w, 8) == w / 0x100
  {
    Pow2Byte();
    ShiftRightIsDiv(w, 8);
  }

  lemma Pow2Byte()
    ensures Pow2(8) == 0x100
  {
    assert Pow2(4) == 16;
  }

  /** `set_divisor`, given the line-control value `lcr` it reads first: open
      the latch (DLAB), write both bytes, restore the line-control value. */
  function DivisorAccesses(w: Window, lcr: u32, d: u16): seq<Access>
  {
    [Load(w.lcr),
     Store(w.lcr, SetMask(lcr, DLAB)),
     Store(w.dll, DivisorLow(d)),
     Store(w.dlh, DivisorHigh(d)),
     Store(w.lcr, lcr)]
  }

  // ---------------------------------------------------------------- line setup

  /** The line-control word `configure` builds: bits 0-1 the data bits minus
      5, bit 2 for two stop bits, bit 3 for any parity and bit 4 for even
      parity. `None` when the data bits are not 5 to 8 or the stop bits are
      not 1 or 2. */
  function LineControl(c: UartConfig): (r: Option<u32>)
    ensures r.None? <==> !(5 <= c.dataBits <= 8) || !(c.stopBits == 1 || c.stopBits == 2)
    ensures r.Some? ==> forall k: nat ::
      Bit(r.value, k) == ((k < 2 && Bit(c.dataBits - 5, k)) || (k == 2 && c.stopBits == 2) ||
                          (k == 3 && c.parity != ParityNone) || (k == 4 && c.parity == ParityEven))
  {
    if !(5 <= c.dataBits <= 8) || !(c.stopBits == 1 || c.stopBits == 2) then None
    else
      var word: u32 := c.dataBits - 5;
      assert Pow2(2) == 4;
      BelowPow2(word, 2);
      NoBitsOfZero();
      var stop := if c.stopBits == 2 then STOP_BITS_2 else STOP_BITS_1;
      var parity := match c.parity
        case ParityNone => 0
        case ParityEven => SetMask(PARITY_ENABLE, PARITY_EVEN)
        case ParityOdd => PARITY_ENABLE;
      Some(SetMask(SetMask(SetMask(0, word), stop), parity))
  }

  /** Reads a line-control word back as data bits, stop bits and parity:
      the word-length field, then bit 2 (two stop bits), bit 3 (parity
      enabled) and bit 4 (even parity). */
  function DecodeLineControl(lcr: u32): (nat, nat, UartParity)
  {
    (Mask(lcr, WORD_LENGTH) + 5,
     if Bit(lcr, 2) then 2 else 1,
     if !Bit(lcr, 3) then ParityNone
     else if Bit(lcr, 4) then ParityEven
     else ParityOdd)
  }

  /** An accepted configuration's line-control word reads back as the data
      bits, stop bits and parity asked for, and leaves the divisor latch
      closed. */
  lemma LineControlRoundTrip(c: UartConfig)
    requires LineControl(c).Some?
    ensures DecodeLineControl(LineControl(c).value) == (c.dataBits as nat, c.stopBits as nat, c.parity)
    ensures !Raised(LineControl(c).value, DLAB)
  {
    LineWordReadsBack(LineControl(c).value, c);
  }

  /** A word with the bits `line_control` sets for `c`, and no others,
      reads back as `c`'s line settings. */
  lemma LineWordReadsBack(lcr: u32, c: UartConfig)
    requires 5 <= c.dataBits <= 8 && (c.stopBits == 1 || c.stopBits == 2)
    requires forall k: nat ::
      Bit(lcr, k) == ((k < 2 && Bit(c.dataBits - 5, k)) || (k == 2 && c.stopBits == 2) ||
                      (k == 3 && c.parity != ParityNone) || (k == 4 && c.parity == ParityEven))
    ensures DecodeLineControl(lcr) == (c.dataBits as nat, c.stopBits as nat, c.parity)
    ensures !Raised(lcr, DLAB)
  {
    WordLengthField(lcr, c.dataBits - 5);
    assert !Bit(lcr, 7);
    TestBit(lcr, 7);
  }

  /** The word-length field of a line-control word is the number its two low
      bits spell. */
  lemma WordLengthField(lcr: u32, d: nat)
    requires d < 4 && Bit(lcr, 0) == Bit(d, 0) && Bit(lcr, 1) == Bit(d, 1)
    ensures Mask(lcr, WORD_LENGTH) == d
  {
    SmallMasks();
    assert Pow2(2) == 4;
    forall k: nat
      ensures Bit(Mask(lcr, WORD_LENGTH), k) == Bit(d, k)
    {
      if k >= 2 {
        NoBitsAbove(d, 2, k);
      }
    }
    BitsDetermine(Mask(lcr, WORD_LENGTH), d);
  }

  /** The modem-control word: DTR and RTS always, auto flow control when
      asked for, nothing else. */
  function ModemControl(flowControl: bool): (m: u32)
    ensures forall k: nat :: Bit(m, k) == (k == 0 || k == 1 || (k == 5 && flowControl))
  {
    if flowControl then SetMask(SetMask(DTR, RTS), AUTOFLOW) else SetMask(DTR, RTS)
  }

  /** The modem-control word raises DTR and RTS, and asks for auto flow
      control exactly when flow control is on. */
  lemma ModemControlRaises(flowControl: bool)
    ensures Raised(ModemControl(flowControl), DTR) && Raised(ModemControl(flowControl), RTS)
    ensures Raised(ModemControl(flowControl), AUTOFLOW) <==> flowControl
  {
    var m := ModemControl(flowControl);
    TestBit(m, 0);
    TestBit(m, 1);
    TestBit(m, 5);
  }

  /** What one driver operation did: the accesses it made, in order, and its
      result. */
  datatype Outcome<T> = Outcome(accesses: seq<Access>, result: DriverResult<T>)

  /** `configure`, started as access number `start`: disable interrupts,
      program the divisor, then check the data and stop bits, and only if they
      are valid write the line-control, FIFO-control and modem-control
      registers. */
  function Configured(answer: nat -> u32, w: Window, clockHz: u32, start: nat, c: UartConfig): Outcome<()>
    requires DivisorDefined(c.baudRate)
  {
    var prefix := [Store(w.ier, 0)] + DivisorAccesses(w, answer(start + 1), CalcDivisor(clockHz, c.baudRate));
    match LineControl(c)
    case None => Outcome(prefix, Err(InvalidParam))
    case Some(lcr) =>
      Outcome(prefix + [Store(w.lcr, lcr), Store(w.fcr, FCR_SETUP), Store(w.mcr, ModemControl(c.flowControl))], Ok(()))
  }

  /** `configure` first disables interrupts, then opens the divisor latch,
      loads it with the two bytes of the divisor for the requested baud rate
      and closes it again by restoring the line-control value it read. */
  lemma ConfigureLatchesDivisor(answer: nat -> u32, w: Window, clockHz: u32, start: nat, c: UartConfig)
    requires DivisorDefined(c.baudRate)
    ensures var o := Configured(answer, w, clockHz, start, c);
      |o.accesses| >= 6 &&
      o.accesses[0] == Store(w.ier, 0) && o.accesses[1] == Load(w.lcr) &&
      o.accesses[2].Store? && o.accesses[2].index == w.lcr && Raised(o.accesses[2].value, DLAB) &&
      o.accesses[3].Store? && o.accesses[3].index == w.dll && o.accesses[3].value < 0x100 &&
      o.accesses[4].Store? && o.accesses[4].index == w.dlh && o.accesses[4].value < 0x100 &&
      o.accesses[3].value + 0x100 * o.accesses[4].value == CalcDivisor(clockHz, c.baudRate) &&
      o.accesses[5] == Store(w.lcr, answer(start + 1))
  {
    var d := CalcDivisor(clockHz, c.baudRate);
    var o := Configured(answer, w, clockHz, start, c);
    DivisorLatches(d);
    TestBit(SetMask(answer(start + 1), DLAB), 7);
    assert o.accesses[..6] == [Store(w.ier, 0)] + DivisorAccesses(w, answer(start + 1), d);
  }

  /** `configure` fails with `InvalidParam` exactly for data bits outside 5
      to 8 or stop bits other than 1 and 2, and then stops after the divisor
      is programmed. */
  lemma ConfigureRejects(answer: nat -> u32, w: Window, clockHz: u32, start: nat, c: UartConfig)
    requires DivisorDefined(c.baudRate)
    ensures var o := Configured(answer, w, clockHz, start, c);
      (o.result == Err(InvalidParam) <==> !(5 <= c.dataBits <= 8) || !(c.stopBits == 1 || c.stopBits == 2)) &&
      (o.result.Err? ==> |o.accesses| == 6)
  {
  }

  /** An accepted configuration ends with a line-control word that reads back
      as the requested framing with the latch closed, the FIFO setup, and a
      modem-control word that raises DTR and RTS and asks for auto flow
      control exactly when the configuration does. */
  lemma ConfigureProgramsLine(answer: nat -> u32, w: Window, clockHz: u32, start: nat, c: UartConfig)
    requires DivisorDefined(c.baudRate)
    ensures var o := Configured(answer, w, clockHz, start, c);
      o.result.Ok? ==>
        |o.accesses| == 9 &&
        o.accesses[6].Store? && o.accesses[6].index == w.lcr &&
        DecodeLineControl(o.accesses[6].value) == (c.dataBits as nat, c.stopBits as nat, c.parity) &&
        !Raised(o.accesses[6].value, DLAB) &&
        o.accesses[7] == Store(w.fcr, FCR_SETUP) &&
        o.accesses[8].Store? && o.accesses[8].index == w.mcr &&
        Raised(o.accesses[8].value, DTR) && Raised(o.accesses[8].value, RTS) &&
        (Raised(o.accesses[8].value, AUTOFLOW) <==> c.flowControl)
  {
    if LineControl(c).Some? {
      var prefix := [Store(w.ier, 0)] + DivisorAccesses(w, answer(start + 1), CalcDivisor(clockHz, c.baudRate));
      LineControlRoundTrip(c);
      ModemControlRaises(c.flowControl);
      ThreeStores(prefix, Store(w.lcr, LineControl(c).value), Store(w.fcr, FCR_SETUP), Store(w.mcr, ModemControl(c.flowControl)));
    }
  }

  lemma AppendThree(t: seq<Access>, p: seq<Access>, a: Access, b: Access, d: Access)
    ensures t + p + [a] + [b] + [d] == t + (p + [a, b, d])
  {
  }

  lemma ThreeStores(prefix: seq<Access>, a: Access, b: Access, d: Access)
    requires |prefix| == 6
    ensures var s := prefix + [a, b, d]; |s| == 9 && s[6] == a && s[7] == b && s[8] == d
  {
  }

  /** `init_default` programs 8N1 without flow control: line control 0x03,
      modem control 0x03 (DTR and RTS). */
  lemma DefaultLine()
    ensures DivisorDefined(DefaultUartConfig().baudRate)
    ensures LineControl(DefaultUartConfig()) == Some(3)
    ensures ModemControl(false) == 3
  {
    SmallMasks();
    BitsDetermine(LineControl(DefaultUartConfig()).value, 3);
    BitsDetermine(ModemControl(false), 3);
  }

  // ---------------------------------------------------------------- polling

  datatype Polled = Polled(accesses: seq<Access>, left: nat)

  /** The poll loop `while (load(LSR) & bit) == 0 && timeout > 0
      { timeout -= 1 }` started as access number `start` with `budget` as
      the timeout: it loads LSR (word `lsr`) before every test, stops at the
      first poll that sees `bit` or at the poll that finds the budget spent,
      and reports the budget left. */
  function Poll(answer: nat -> u32, lsr: nat, bit: nat, start: nat, budget: nat): (p: Polled)
    ensures p.left <= budget
    ensures |p.accesses| == 1 + (budget - p.left)
    decreases budget
  {
    if !Reports(answer(start), bit) && budget > 0 then
      var rest := Poll(answer, lsr, bit, start + 1, budget - 1);
      Polled([Load(lsr)] + rest.accesses, rest.left)
    else Polled([Load(lsr)], budget)
  }

  /** `p` is a run of the poll loop started as access number `start`: loads of
      LSR only, none but possibly the last seeing `bit`, and the last seeing
      it unless the budget ran out. */
  predicate PollRun(answer: nat -> u32, lsr: nat, bit: nat, start: nat, p: Polled)
  {
    0 < |p.accesses| &&
    (forall j :: 0 <= j < |p.accesses| ==> p.accesses[j] == Load(lsr)) &&
    (forall k :: start <= k < start + |p.accesses| - 1 ==> !Reports(answer(k), bit)) &&
    (Reports(answer(start + |p.accesses| - 1), bit) || p.left == 0)
  }

  /** The poll loop stops at the first poll that sees the bit, or when the
      budget is spent, and does nothing but poll. */
  lemma {:induction false} PollStops(answer: nat -> u32, lsr: nat, bit: nat, start: nat, budget: nat)
    ensures PollRun(answer, lsr, bit, start, Poll(answer, lsr, bit, start, budget))
    decreases budget
  {
    var p := Poll(answer, lsr, bit, start, budget);
    if !Reports(answer(start), bit) && budget > 0 {
      var rest := Poll(answer, lsr, bit, start + 1, budget - 1);
      PollStops(answer, lsr, bit, start + 1, budget - 1);
      assert p.accesses == [Load(lsr)] + rest.accesses;
      forall j | 0 <= j < |p.accesses|
        ensures p.accesses[j] == Load(lsr)
      {
        if j > 0 {
          assert p.accesses[j] == rest.accesses[j - 1];
        }
      }
      assert start + |p.accesses| - 1 == start + 1 + |rest.accesses| - 1;
    }
  }

  /** The poll loop succeeds (budget left) exactly when one of the first
      `budget` polls sees the bit. */
  lemma PollSucceedsIff(answer: nat -> u32, lsr: nat, bit: nat, start: nat, budget: nat)
    ensures Poll(answer, lsr, bit, start, budget).left > 0 <==>
            exists k :: start <= k < start + budget && Reports(answer(k), bit)
  {
    var p := Poll(answer, lsr, bit, start, budget);
    PollStops(answer, lsr, bit, start, budget);
    if p.left > 0 {
      assert Reports(answer(start + |p.accesses| - 1), bit);
    }
  }

  /** The loop makes `budget + 1` polls but tests the budget before the last
      one can count: a device that raises the bit exactly on that last poll
      is still reported as timed out, after that poll was made. */
  lemma LastPollIgnored(answer: nat -> u32, lsr: nat, bit: nat, start: nat, budget: nat)
    requires forall k :: start <= k < start + budget ==> !Reports(answer(k), bit)
    requires Reports(answer(start + budget), bit)
    ensures Poll(answer, lsr, bit, start, budget).left == 0
    ensures |Poll(answer, lsr, bit, start, budget).accesses| == budget + 1
  {
    PollSucceedsIff(answer, lsr, bit, start, budget);
  }

  lemma PollSameStart(answer: nat -> u32, lsr: nat, bit: nat, s1: nat, s2: nat, budget: nat)
    requires s1 == s2
    ensures Poll(answer, lsr, bit, s1, budget) == Poll(answer, lsr, bit, s2, budget)
  {
  }

  /** One more turn of the poll loop after the accesses `before`, when the
      poll sees the bit clear with budget left. */
  lemma PollContinues(answer: nat -> u32, lsr: nat, bit: nat, before: seq<Access>, budget: nat)
    requires !Reports(answer(|before|), bit) && budget > 0
    ensures before + Poll(answer, lsr, bit, |before|, budget).accesses ==
            (before + [Load(lsr)]) + Poll(answer, lsr, bit, |before + [Load(lsr)]|, budget - 1).accesses
    ensures Poll(answer, lsr, bit, |before|, budget).left ==
            Poll(answer, lsr, bit, |before + [Load(lsr)]|, budget - 1).left
  {
    var rest := Poll(answer, lsr, bit, |before| + 1, budget - 1);
    PollSameStart(answer, lsr, bit, |before + [Load(lsr)]|, |before| + 1, budget - 1);
    AppendAssoc(before, [Load(lsr)], rest.accesses);
  }

  /** The poll loop ends at a poll that sees the bit or finds no budget. */
  lemma PollEnds(answer: nat -> u32, lsr: nat, bit: nat, start: nat, budget: nat)
    requires Reports(answer(start), bit) || budget == 0
    ensures Poll(answer, lsr, bit, start, budget) == Polled([Load(lsr)], budget)
  {
  }

  lemma AppendAssoc<T>(a: seq<T>, b: seq<T>, c: seq<T>)
    ensures a + (b + c) == (a + b) + c
  {
  }

  // ---------------------------------------------------------------- write

  /** The values of the stores among `accs`, in order. */
  function Stored(accs: seq<Access>): seq<u32>
    decreases |accs|
  {
    if |accs| == 0 then []
    else (if accs[0].Store? then [accs[0].value] else []) + Stored(accs[1..])
  }

  lemma StoredCons(a: Access, rest: seq<Access>)
    ensures Stored([a] + rest) == (if a.Store? then [a.value] else []) + Stored(rest)
  {
    assert ([a] + rest)[1..] == rest;
  }

  /** A poll followed by a store contributes the stored byte. */
  lemma StoredSend(lsr: nat, thr: nat, b: u8, rest: seq<Access>)
    ensures Stored([Load(lsr), Store(thr, b)] + rest) == [b as u32] + Stored(rest)
  {
    assert [Load(lsr), Store(thr, b)] + rest == [Load(lsr)] + ([Store(thr, b)] + rest);
    StoredCons(Store(thr, b), rest);
    StoredCons(Load(lsr), [Store(thr, b)] + rest);
  }

  lemma PrefixCons(data: seq<u8>, n: nat)
    requires n < |data|
    ensures [data[0] as u32] + data[1..][..n] == data[..n + 1]
  {
  }

  /** `write` from byte `data[0]` on, started as access number `start` with
      `left` units of the current byte's timeout still to spend. Each turn
      loads LSR; while the holding register is full and budget is left it
      spends a unit and polls again. Once the budget is spent it gives up
      with `Timeout`, even when that last poll saw the register empty;
      otherwise it stores the byte in THR and starts on the next byte with a
      fresh budget of 100000. */
  function Transmit(answer: nat -> u32, w: Window, start: nat, data: seq<u8>, left: nat): (o: Outcome<()>)
    ensures o.result == Ok(()) || o.result == Err(Timeout)
    decreases |data|, left
  {
    if |data| == 0 then Outcome([], Ok(()))
    else if !Reports(answer(start), TX_HOLDING_EMPTY) && left > 0 then
      var rest := Transmit(answer, w, start + 1, data, left - 1);
      Outcome([Load(w.lsr)] + rest.accesses, rest.result)
    else if left == 0 then Outcome([Load(w.lsr)], Err(Timeout))
    else
      var rest := Transmit(answer, w, start + 2, data[1..], WRITE_POLLS);
      Outcome([Load(w.lsr), Store(w.thr, data[0])] + rest.accesses, rest.result)
  }

  lemma TransmitSameStart(answer: nat -> u32, w: Window, s1: nat, s2: nat, data: seq<u8>, left: nat)
    requires s1 == s2
    ensures Transmit(answer, w, s1, data, left) == Transmit(answer, w, s2, data, left)
  {
  }

  /** A poll of `write` after the accesses `before` that sees the holding
      register full, with budget left, costs one unit and polls again. */
  lemma TransmitPolls(answer: nat -> u32, w: Window, before: seq<Access>, data: seq<u8>, left: nat)
    requires |data| > 0 && !Reports(answer(|before|), TX_HOLDING_EMPTY) && left > 0
    ensures before + Transmit(answer, w, |before|, data, left).accesses ==
            (before + [Load(w.lsr)]) + Transmit(answer, w, |before + [Load(w.lsr)]|, data, left - 1).accesses
    ensures Transmit(answer, w, |before|, data, left).result ==
            Transmit(answer, w, |before + [Load(w.lsr)]|, data, left - 1).result
  {
    var rest := Transmit(answer, w, |before| + 1, data, left - 1);
    TransmitSameStart(answer, w, |before + [Load(w.lsr)]|, |before| + 1, data, left - 1);
    AppendAssoc(before, [Load(w.lsr)], rest.accesses);
  }

  /** A poll of `write` after the accesses `before` that sees the holding
      register empty, with budget left, is followed by the store of byte `i`
      and the rest of the data with a fresh budget. */
  lemma TransmitSends(answer: nat -> u32, w: Window, before: seq<Access>, data: seq<u8>, i: nat, left: nat)
    requires i < |data| && Reports(answer(|before|), TX_HOLDING_EMPTY) && left > 0
    ensures var after := before + [Load(w.lsr)] + [Store(w.thr, data[i])];
      before + Transmit(answer, w, |before|, data[i..], left).accesses ==
        after + Transmit(answer, w, |after|, data[i + 1..], WRITE_POLLS).accesses &&
      Transmit(answer, w, |before|, data[i..], left).result ==
        Transmit(answer, w, |after|, data[i + 1..], WRITE_POLLS).result
  {
    var after := before + [Load(w.lsr)] + [Store(w.thr, data[i])];
    assert data[i..][1..] == data[i + 1..];
    var rest := Transmit(answer, w, |before| + 2, data[i + 1..], WRITE_POLLS);
    assert Transmit(answer, w, |before|, data[i..], left).accesses == [Load(w.lsr), Store(w.thr, data[i])] + rest.accesses;
    TransmitSameStart(answer, w, |after|, |before| + 2, data[i + 1..], WRITE_POLLS);
    AppendAssoc(before, [Load(w.lsr), Store(w.thr, data[i])], rest.accesses);
    assert before + [Load(w.lsr), Store(w.thr, data[i])] == after;
  }

  /** A poll of `write` that finds the budget spent ends it with `Timeout`. */
  lemma TransmitTimesOut(answer: nat -> u32, w: Window, start: nat, data: seq<u8>)
    requires |data| > 0
    ensures Transmit(answer, w, start, data, 0) == Outcome([Load(w.lsr)], Err(Timeout))
  {
  }

  /** `write` carried on from a point where it has made the accesses `tr`
      and is on byte `i` with `left` polls of budget: the whole trace and
      the result it ends with. */
  function Writing(answer: nat -> u32, w: Window, tr: seq<Access>, data: seq<u8>, i: nat, left: nat): Outcome<()>
    requires i <= |data|
    decreases |data| - i, left
  {
    if i == |data| then Outcome(tr, Ok(()))
    else if !Reports(answer(|tr|), TX_HOLDING_EMPTY) && left > 0 then
      Writing(answer, w, tr + [Load(w.lsr)], data, i, left - 1)
    else if left == 0 then Outcome(tr + [Load(w.lsr)], Err(Timeout))
    else Writing(answer, w, tr + [Load(w.lsr)] + [Store(w.thr, data[i])], data, i + 1, WRITE_POLLS)
  }

  /** Carrying `write` on from `tr` at byte `i` appends to `tr` what a
      `write` of the remaining bytes started afresh at that point would do. */
  lemma {:induction false} WritingIsTransmit(answer: nat -> u32, w: Window, tr: seq<Access>, data: seq<u8>, i: nat, left: nat)
    requires i <= |data|
    ensures var o := Transmit(answer, w, |tr|, data[i..], left);
      Writing(answer, w, tr, data, i, left) == Outcome(tr + o.accesses, o.result)
    decreases |data| - i, left
  {
    if i == |data| {
      assert data[i..] == [];
      assert tr + [] == tr;
    } else if !Reports(answer(|tr|), TX_HOLDING_EMPTY) && left > 0 {
      TransmitPolls(answer, w, tr, data[i..], left);
      WritingIsTransmit(answer, w, tr + [Load(w.lsr)], data, i, left - 1);
    } else if left == 0 {
      TransmitTimesOut(answer, w, |tr|, data[i..]);
    } else {
      TransmitSends(answer, w, tr, data, i, left);
      WritingIsTransmit(answer, w, tr + [Load(w.lsr)] + [Store(w.thr, data[i])], data, i + 1, WRITE_POLLS);
    }
  }

  /** The bytes stored by `write` are the data up to some point: all of it
      on success, less than all of it on timeout. */
  lemma {:induction false} TransmitStores(answer: nat -> u32, w: Window, start: nat, data: seq<u8>, left: nat)
    ensures var o := Transmit(answer, w, start, data, left);
      var sent := Stored(o.accesses);
      |sent| <= |data| && sent == data[..|sent|] && (o.result.Ok? <==> |sent| == |data|)
    decreases |data|, left
  {
    var o := Transmit(answer, w, start, data, left);
    if |data| == 0 {
      assert o.accesses == [];
    } else if !Reports(answer(start), TX_HOLDING_EMPTY) && left > 0 {
      var rest := Transmit(answer, w, start + 1, data, left - 1);
      TransmitStores(answer, w, start + 1, data, left - 1);
      StoredCons(Load(w.lsr), rest.accesses);
    } else if left == 0 {
      StoredCons(Load(w.lsr), []);
    } else {
      var rest := Transmit(answer, w, start + 2, data[1..], WRITE_POLLS);
      TransmitStores(answer, w, start + 2, data[1..], WRITE_POLLS);
      StoredSend(w.lsr, w.thr, data[0], rest.accesses);
      PrefixCons(data, |Stored(rest.accesses)|);
    }
  }

  /** Access `j` of `accs`, made as access number `start + j`, is either not
      a store or a store to THR right after a poll that saw the holding
      register empty. */
  predicate StoreAfterReadyPoll(answer: nat -> u32, w: Window, start: nat, accs: seq<Access>, j: nat)
    requires j < |accs|
  {
    accs[j].Store? ==>
      0 < j && accs[j].index == w.thr &&
      accs[j - 1] == Load(w.lsr) && Reports(answer(start + j - 1), TX_HOLDING_EMPTY)
  }

  /** Every store `write` makes goes to THR, right after a poll that saw the
      holding register empty. */
  lemma {:induction false} TransmitWaits(answer: nat -> u32, w: Window, start: nat, data: seq<u8>, left: nat)
    ensures forall j: nat :: j < |Transmit(answer, w, start, data, left).accesses| ==>
      StoreAfterReadyPoll(answer, w, start, Transmit(answer, w, start, data, left).accesses, j)
    decreases |data|, left
  {
    var o := Transmit(answer, w, start, data, left);
    if |data| == 0 {
    } else if !Reports(answer(start), TX_HOLDING_EMPTY) && left > 0 {
      var rest := Transmit(answer, w, start + 1, data, left - 1);
      TransmitWaits(answer, w, start + 1, data, left - 1);
      assert o.accesses == [Load(w.lsr)] + rest.accesses;
      forall j: nat | j < |o.accesses|
        ensures StoreAfterReadyPoll(answer, w, start, o.accesses, j)
      {
        if j > 0 {
          var i: nat := j - 1;
          assert StoreAfterReadyPoll(answer, w, start + 1, rest.accesses, i);
          assert o.accesses[j] == rest.accesses[i];
          if i > 0 {
            assert o.accesses[j - 1] == rest.accesses[i - 1];
          }
        }
      }
    } else if left == 0 {
    } else {
      var rest := Transmit(answer, w, start + 2, data[1..], WRITE_POLLS);
      TransmitWaits(answer, w, start + 2, data[1..], WRITE_POLLS);
      assert o.accesses == [Load(w.lsr), Store(w.thr, data[0])] + rest.accesses;
      forall j: nat | j < |o.accesses|
        ensures StoreAfterReadyPoll(answer, w, start, o.accesses, j)
      {
        if j > 1 {
          var i: nat := j - 2;
          assert StoreAfterReadyPoll(answer, w, start + 2, rest.accesses, i);
          assert o.accesses[j] == rest.accesses[i];
          if i > 0 {
            assert o.accesses[j - 1] == rest.accesses[i - 1];
          }
        }
      }
    }
  }

  /** A device whose holding register is always empty takes all the data:
      `write` succeeds with one poll and one store per byte. */
  lemma {:induction false} TransmitToReadyDevice(answer: nat -> u32, w: Window, start: nat, data: seq<u8>, left: nat)
    requires forall k :: Reports(answer(k), TX_HOLDING_EMPTY)
    requires left > 0
    ensures Transmit(answer, w, start, data, left).result == Ok(())
    ensures |Transmit(answer, w, start, data, left).accesses| == 2 * |data|
    decreases |data|
  {
    if |data| > 0 {
      assert Reports(answer(start), TX_HOLDING_EMPTY);
      TransmitToReadyDevice(answer, w, start + 2, data[1..], WRITE_POLLS);
    }
  }

  /** A holding register that stays full through the budget makes `write`
      give up after `left + 1` polls without storing anything, whatever the
      last poll sees. */
  lemma {:induction false} TransmitGivesUp(answer: nat -> u32, w: Window, start: nat, data: seq<u8>, left: nat)
    requires |data| > 0
    requires forall k :: start <= k < start + left ==> !Reports(answer(k), TX_HOLDING_EMPTY)
    ensures Transmit(answer, w, start, data, left).result == Err(Timeout)
    ensures |Transmit(answer, w, start, data, left).accesses| == left + 1
    ensures Stored(Transmit(answer, w, start, data, left).accesses) == []
    decreases left
  {
    if left == 0 {
      StoredCons(Load(w.lsr), []);
    } else {
      assert !Reports(answer(start), TX_HOLDING_EMPTY);
      var rest := Transmit(answer, w, start + 1, data, left - 1);
      TransmitGivesUp(answer, w, start + 1, data, left - 1);
      StoredCons(Load(w.lsr), rest.accesses);
    }
  }

  /** `write`'s result: the whole length, or the timeout. */
  function WriteResult(o: Outcome<()>, data: seq<u8>): DriverResult<nat>
  {
    if o.result.Ok? then Ok(|data|) else Err(o.result.error)
  }

  // ---------------------------------------------------------------- read

  datatype Received = Received(accesses: seq<Access>, bytes: seq<u8>)

  /** `read` into a buffer of `n` bytes, started as access number `start`:
      while the buffer has room, poll LSR; if data is ready load RBR and keep
      its low byte, otherwise stop. */
  function Receive(answer: nat -> u32, w: Window, start: nat, n: nat): (r: Received)
    ensures |r.bytes| <= n
    decreases n
  {
    if n == 0 then Received([], [])
    else if !Reports(answer(start), DATA_READY) then Received([Load(w.lsr)], [])
    else
      var rest := Receive(answer, w, start + 2, n - 1);
      Received([Load(w.lsr), Load(w.thr)] + rest.accesses, [answer(start + 1) % 0x100] + rest.bytes)
  }

  /** `read` makes one poll and one RBR load per byte it returns, and one
      more poll exactly when it stops short of a full buffer: that poll is
      the last access and saw no data. */
  lemma {:induction false} ReceiveShape(answer: nat -> u32, w: Window, start: nat, n: nat)
    ensures var r := Receive(answer, w, start, n);
      |r.accesses| == 2 * |r.bytes| + (if |r.bytes| < n then 1 else 0) &&
      (|r.bytes| < n ==>
        r.accesses[|r.accesses| - 1] == Load(w.lsr) && !Reports(answer(start + |r.accesses| - 1), DATA_READY))
    decreases n
  {
    if n > 0 && Reports(answer(start), DATA_READY) {
      ReceiveShape(answer, w, start + 2, n - 1);
    }
  }

  /** Byte `i` of `r` is the low byte of the RBR load made as access
      `2 * i + 1`, right after a poll that saw data ready. */
  predicate ReadAfterReadyPoll(answer: nat -> u32, w: Window, start: nat, r: Received, i: nat)
  {
    i < |r.bytes| && 2 * i + 1 < |r.accesses| &&
    r.accesses[2 * i] == Load(w.lsr) && Reports(answer(start + 2 * i), DATA_READY) &&
    r.accesses[2 * i + 1] == Load(w.thr) &&
    r.bytes[i] == answer(start + 2 * i + 1) % 0x100
  }

  /** One step of `read` after the accesses `before`, with `got` already in
      the buffer and room for `n = m + 1` more, when the poll sees data: the
      RBR load follows and its low byte joins the buffer, leaving room for
      `m`. */
  lemma ReceiveContinues(answer: nat -> u32, w: Window, before: seq<Access>, got: seq<u8>, n: nat, m: nat)
    requires n == m + 1 && Reports(answer(|before|), DATA_READY)
    ensures var after := before + [Load(w.lsr)] + [Load(w.thr)];
      before + Receive(answer, w, |before|, n).accesses == after + Receive(answer, w, |after|, m).accesses &&
      got + Receive(answer, w, |before|, n).bytes ==
        (got + [answer(|before + [Load(w.lsr)]|) % 0x100]) + Receive(answer, w, |after|, m).bytes
  {
    var after := before + [Load(w.lsr)] + [Load(w.thr)];
    var later := Receive(answer, w, |before| + 2, m);
    ReceiveSameStart(answer, w, |after|, |before| + 2, m);
    assert before + [Load(w.lsr), Load(w.thr)] == after;
    AppendAssoc(before, [Load(w.lsr), Load(w.thr)], later.accesses);
    AppendAssoc(got, [answer(|before| + 1) % 0x100], later.bytes);
  }

  lemma ReceiveSameStart(answer: nat -> u32, w: Window, s1: nat, s2: nat, n: nat)
    requires s1 == s2
    ensures Receive(answer, w, s1, n) == Receive(answer, w, s2, n)
  {
  }

  /** `read` carried on from a point where it has made the accesses `tr`
      and stored `got`, with room for `n` more bytes: the whole trace and
      all the bytes it ends with. */
  function Reading(answer: nat -> u32, w: Window, tr: seq<Access>, got: seq<u8>, n: nat): Received
    decreases n
  {
    if n == 0 then Received(tr, got)
    else if !Reports(answer(|tr|), DATA_READY) then Received(tr + [Load(w.lsr)], got)
    else Reading(answer, w, tr + [Load(w.lsr)] + [Load(w.thr)], got + [answer(|tr + [Load(w.lsr)]|) % 0x100], n - 1)
  }

  /** Carrying `read` on from `tr` and `got` appends to them what a `read`
      started afresh at that point would do. */
  lemma {:induction false} ReadingIsReceive(answer: nat -> u32, w: Window, tr: seq<Access>, got: seq<u8>, n: nat)
    ensures var r := Receive(answer, w, |tr|, n);
      Reading(answer, w, tr, got, n) == Received(tr + r.accesses, got + r.bytes)
    decreases n
  {
    if n == 0 {
      assert tr + [] == tr && got + [] == got;
    } else if !Reports(answer(|tr|), DATA_READY) {
      assert got + [] == got;
    } else {
      var after := tr + [Load(w.lsr)] + [Load(w.thr)];
      ReadingIsReceive(answer, w, after, got + [answer(|tr + [Load(w.lsr)]|) % 0x100], n - 1);
      ReceiveContinues(answer, w, tr, got, n, n - 1);
    }
  }

  /** A poll that sees no data ends `read`. */
  lemma ReceiveStops(answer: nat -> u32, w: Window, start: nat, n: nat)
    requires n > 0 && !Reports(answer(start), DATA_READY)
    ensures Receive(answer, w, start, n) == Received([Load(w.lsr)], [])
  {
  }

  /** Byte `i` of a `read` whose first poll saw data is byte `i - 1` of
      the `read` that follows the first RBR load. */
  lemma ReceiveReadShift(answer: nat -> u32, w: Window, start: nat, n: nat, i: nat)
    requires n > 0 && Reports(answer(start), DATA_READY)
    requires 0 < i < |Receive(answer, w, start, n).bytes|
    requires ReadAfterReadyPoll(answer, w, start + 2, Receive(answer, w, start + 2, n - 1), i - 1)
    ensures ReadAfterReadyPoll(answer, w, start, Receive(answer, w, start, n), i)
  {
    var r := Receive(answer, w, start, n);
    var rest := Receive(answer, w, start + 2, n - 1);
    var k: nat := i - 1;
    assert r.accesses == [Load(w.lsr), Load(w.thr)] + rest.accesses;
    assert r.bytes == [answer(start + 1) % 0x100] + rest.bytes;
    assert r.accesses[2 * i] == rest.accesses[2 * k];
    assert r.accesses[2 * i + 1] == rest.accesses[2 * k + 1];
    assert r.bytes[i] == rest.bytes[k];
  }

  /** Every byte `read` returns comes from an RBR load made right after a
      poll that saw data ready, the polls and loads alternating. */
  lemma {:induction false} ReceiveReadsReady(answer: nat -> u32, w: Window, start: nat, n: nat)
    ensures forall i: nat :: i < |Receive(answer, w, start, n).bytes| ==>
      ReadAfterReadyPoll(answer, w, start, Receive(answer, w, start, n), i)
    decreases n
  {
    var r := Receive(answer, w, start, n);
    if n > 0 && Reports(answer(start), DATA_READY) {
      ReceiveReadsReady(answer, w, start + 2, n - 1);
      var rest := Receive(answer, w, start + 2, n - 1);
      forall i: nat | i < |r.bytes|
        ensures ReadAfterReadyPoll(answer, w, start, r, i)
      {
        if i > 0 {
          ReceiveReadShift(answer, w, start, n, i);
        }
      }
    }
  }

  /** A device that always has data fills the buffer; one that never has
      data leaves it untouched after a single poll. */
  lemma {:induction false} ReceiveFills(answer: nat -> u32, w: Window, start: nat, n: nat)
    ensures (forall k :: Reports(answer(k), DATA_READY)) ==> |Receive(answer, w, start, n).bytes| == n
    ensures (forall k :: !Reports(answer(k), DATA_READY)) ==> Receive(answer, w, start, n).bytes == []
    decreases n
  {
    if n > 0 {
      ReceiveFills(answer, w, start + 2, n - 1);
    }
  }

  /** Storing byte `b` right after the bytes `got` already stored over
      `original`. */
  lemma FillNext(original: seq<u8>, got: seq<u8>, b: u8)
    requires |got| < |original|
    ensures (got + original[|got|..])[|got| := b] == (got + [b]) + original[|got| + 1..]
  {
  }

  // ---------------------------------------------------------------- flush

  /** `flush`, started as access number `start`: poll for an idle
      transmitter with a budget of one million; `Timeout` when the budget is
      spent. */
  function Flushed(answer: nat -> u32, w: Window, start: nat): Outcome<()>
  {
    var p := Poll(answer, w.lsr, TX_EMPTY, start, FLUSH_POLLS);
    Outcome(p.accesses, if p.left == 0 then Err(Timeout) else Ok(()))
  }

  /** `flush` succeeds exactly when one of its first million polls finds
      the transmitter idle. */
  lemma FlushSucceedsIff(answer: nat -> u32, w: Window, start: nat)
    ensures Flushed(answer, w, start).result.Ok? <==>
            exists k :: start <= k < start + FLUSH_POLLS && Reports(answer(k), TX_EMPTY)
  {
    PollSucceedsIff(answer, w.lsr, TX_EMPTY, start, FLUSH_POLLS);
  }

  // ---------------------------------------------------------------- the driver

  /** `GenericUart`: the input clock, the register shift, the device's
      answers and the accesses made so far. */
  class GenericUart {
    const clockHz: u32
    const regShift: u32
    /** What the device answers to a load made as the `k`-th access. */
    const answer: nat -> u32
    /** Every register access made so far, in order. */
    var trace: seq<Access>

    /** `new`: no access made yet. */
    constructor(clockHz: u32, regShift: u32, answer: nat -> u32)
      ensures this.clockHz == clockHz && this.regShift == regShift && this.answer == answer
      ensures trace == []
    {
      this.clockHz := clockHz;
      this.regShift := regShift;
      this.answer := answer;
      trace := [];
    }

    method ReadReg(offset: u32) returns (v: u32)
      modifies this
      ensures v == answer(|old(trace)|)
      ensures trace == old(trace) + [Load(Index(regShift, offset))]
    {
      v := answer(|trace|);
      trace := trace + [Load(Index(regShift, offset))];
    }

    method WriteReg(offset: u32, value: u32)
      modifies this
      ensures trace == old(trace) + [Store(Index(regShift, offset), value)]
    {
      trace := trace + [Store(Index(regShift, offset), value)];
    }

    /** `set_divisor`. */
    method SetDivisor(divisor: u16)
      modifies this
      ensures trace == old(trace) + DivisorAccesses(WindowFor(regShift), answer(|old(trace)|), divisor)
    {
      var lcr := ReadReg(LCR);
      WriteReg(LCR, SetMask(lcr, DLAB));
      WriteReg(DLL, DivisorLow(divisor));
      WriteReg(DLH, DivisorHigh(divisor));
      WriteReg(LCR, lcr);
    }

    /** `configure`; a baud rate whose `16 * baud` wraps to 0 panics. */
    method Configure(config: UartConfig) returns (r: DriverResult<()>)
      requires DivisorDefined(config.baudRate)
      modifies this
      ensures var o := Configured(answer, WindowFor(regShift), clockHz, |old(trace)|, config);
        trace == old(trace) + o.accesses && r == o.result
    {
      ghost var w := WindowFor(regShift);
      WriteReg(IER, 0);
      var divisor := CalcDivisor(clockHz, config.baudRate);
      SetDivisor(divisor);
      ghost var prefix := [Store(w.ier, 0)] + DivisorAccesses(w, answer(|old(trace)| + 1), divisor);
      AppendAssoc(old(trace), [Store(w.ier, 0)], DivisorAccesses(w, answer(|old(trace)| + 1), divisor));
      ghost var before := trace;
      assert before == old(trace) + prefix;
      var lcr := LineControl(config);
      if lcr.None? {
        return Err(InvalidParam);
      }
      WriteReg(LCR, lcr.value);
      WriteReg(IIR_FCR, FCR_SETUP);
      WriteReg(MCR, ModemControl(config.flowControl));
      AppendThree(old(trace), prefix, Store(w.lcr, lcr.value), Store(w.fcr, FCR_SETUP), Store(w.mcr, ModemControl(config.flowControl)));
      return Ok(());
    }

    /** `init_default`: `configure` with the default 115200 8N1, result
        dropped; that configuration always succeeds. */
    method InitDefault()
      modifies this
      ensures DivisorDefined(DefaultUartConfig().baudRate)
      ensures var o := Configured(answer, WindowFor(regShift), clockHz, |old(trace)|, DefaultUartConfig());
        trace == old(trace) + o.accesses && o.result == Ok(())
    {
      DefaultLine();
      var _ := Configure(DefaultUartConfig());
    }

    /** `tx_ready` and `rx_ready`: one load of LSR, one bit tested. */
    method TxReady() returns (ready: bool)
      modifies this
      ensures ready == Reports(answer(|old(trace)|), TX_HOLDING_EMPTY)
      ensures trace == old(trace) + [Load(Index(regShift, LSR))]
    {
      var lsr := ReadReg(LSR);
      ready := Reports(lsr, TX_HOLDING_EMPTY);
    }

    method RxReady() returns (ready: bool)
      modifies this
      ensures ready == Reports(answer(|old(trace)|), DATA_READY)
      ensures trace == old(trace) + [Load(Index(regShift, LSR))]
    {
      var lsr := ReadReg(LSR);
      ready := Reports(lsr, DATA_READY);
    }

    /** `try_read_byte` is a `read` into a one-byte buffer. */
    method TryReadByte() returns (r: Option<u8>)
      modifies this
      ensures var o := Receive(answer, WindowFor(regShift), |old(trace)|, 1);
        trace == old(trace) + o.accesses && (r.Some? <==> |o.bytes| == 1) && (r.Some? ==> o.bytes == [r.value])
    {
      var ready := RxReady();
      if ready {
        var v := ReadReg(RBR_THR);
        r := Some(v % 0x100);
      } else {
        r := None;
      }
    }

    /** `available`: 1 when a one-byte `read` would return a byte, else 0. */
    method Available() returns (n: nat)
      modifies this
      ensures n == (if Reports(answer(|old(trace)|), DATA_READY) then 1 else 0)
      ensures n == |Receive(answer, WindowFor(regShift), |old(trace)|, 1).bytes|
      ensures trace == old(trace) + [Load(Index(regShift, LSR))]
    {
      var ready := RxReady();
      n := if ready then 1 else 0;
    }

    /** `write`. */
    method Write(data: seq<u8>) returns (r: DriverResult<nat>)
      modifies this
      ensures var o := Transmit(answer, WindowFor(regShift), |old(trace)|, data, WRITE_POLLS);
        trace == old(trace) + o.accesses && r == WriteResult(o, data)
    {
      ghost var w := WindowFor(regShift);
      ghost var goal := Writing(answer, w, trace, data, 0, WRITE_POLLS);
      WritingIsTransmit(answer, w, trace, data, 0, WRITE_POLLS);
      assert data[0..] == data;
      var i := 0;
      while i < |data|
        invariant i <= |data|
        invariant Writing(answer, w, trace, data, i, WRITE_POLLS) == goal
      {
        var timeout := WaitTxReady(data, i);
        if timeout == 0 {
          return Err(Timeout);
        }
        WriteReg(RBR_THR, data[i]);
        i := i + 1;
      }
      return Ok(|data|);
    }

    /** The wait in `write`'s loop before byte `i`: poll LSR until the
        holding register is empty, spending a unit of the budget of 100000
        on each poll that sees it full; returns the budget left. With none
        left `write` gives up, whatever the last poll saw. */
    method WaitTxReady(data: seq<u8>, i: nat) returns (timeout: nat)
      requires i < |data|
      modifies this
      ensures timeout == 0 ==>
        Writing(answer, WindowFor(regShift), old(trace), data, i, WRITE_POLLS) == Outcome(trace, Err(Timeout))
      ensures timeout > 0 ==>
        Writing(answer, WindowFor(regShift), old(trace), data, i, WRITE_POLLS) ==
        Writing(answer, WindowFor(regShift), trace + [Store(WindowFor(regShift).thr, data[i])], data, i + 1, WRITE_POLLS)
    {
      ghost var w := WindowFor(regShift);
      ghost var here := trace;
      timeout := WRITE_POLLS;
      var ready := TxReady();
      while !ready && timeout > 0
        invariant trace == here + [Load(w.lsr)] && ready == Reports(answer(|here|), TX_HOLDING_EMPTY)
        invariant Writing(answer, w, here, data, i, timeout) == Writing(answer, w, old(trace), data, i, WRITE_POLLS)
        decreases timeout
      {
        timeout := timeout - 1;
        here := trace;
        ready := TxReady();
      }
    }

    /** One turn of `read`'s loop: poll LSR and, when data is ready, load
        RBR and store its low byte `b` at `count`, just after the bytes
        `got` already stored over the buffer's `original` contents. */
    method ReadOne(buffer: array<u8>, count: nat, ghost got: seq<u8>, ghost original: seq<u8>)
      returns (ready: bool, b: u8)
      requires count == |got| < buffer.Length == |original|
      requires buffer[..] == got + original[count..]
      modifies this, buffer
      ensures ready == Reports(answer(|old(trace)|), DATA_READY)
      ensures !ready ==> trace == old(trace) + [Load(WindowFor(regShift).lsr)] && buffer[..] == old(buffer[..])
      ensures !ready ==> Reading(answer, WindowFor(regShift), old(trace), got, buffer.Length - count) == Received(trace, got)
      ensures ready ==>
        trace == old(trace) + [Load(WindowFor(regShift).lsr)] + [Load(WindowFor(regShift).thr)] &&
        b == answer(|old(trace) + [Load(WindowFor(regShift).lsr)]|) % 0x100 &&
        buffer[..] == (got + [b]) + original[count + 1..]
      ensures ready ==>
        Reading(answer, WindowFor(regShift), old(trace), got, buffer.Length - count) ==
        Reading(answer, WindowFor(regShift), trace, got + [b], buffer.Length - (count + 1))
    {
      b := 0;
      ready := RxReady();
      if ready {
        var v := ReadReg(RBR_THR);
        b := v % 0x100;
        buffer[count] := b;
        FillNext(original, got, b);
      }
    }

    /** `read`: fills the front of `buffer`, leaves the rest as it was and
        returns how many bytes it stored. */
    method Read(buffer: array<u8>) returns (r: DriverResult<nat>)
      modifies this, buffer
      ensures var o := Receive(answer, WindowFor(regShift), |old(trace)|, buffer.Length);
        trace == old(trace) + o.accesses && r == Ok(|o.bytes|) &&
        buffer[..] == o.bytes + old(buffer[..])[|o.bytes|..]
    {
      ghost var w := WindowFor(regShift);
      ghost var got: seq<u8> := [];
      ghost var goal := Reading(answer, w, trace, got, buffer.Length);
      ReadingIsReceive(answer, w, trace, got, buffer.Length);
      assert [] + Receive(answer, w, |trace|, buffer.Length).bytes == Receive(answer, w, |trace|, buffer.Length).bytes;
      var count := 0;
      while count < buffer.Length
        invariant count == |got| <= buffer.Length
        invariant buffer[..] == got + old(buffer[..])[count..]
        invariant Reading(answer, w, trace, got, buffer.Length - count) == goal
      {
        var ready, b := ReadOne(buffer, count, got, old(buffer[..]));
        if !ready {
          return Ok(count);
        }
        got := got + [b];
        count := count + 1;
      }
      r := Ok(count);
    }

    /** `flush`. */
    method Flush() returns (r: DriverResult<()>)
      modifies this
      ensures var o := Flushed(answer, WindowFor(regShift), |old(trace)|);
        trace == old(trace) + o.accesses && r == o.result
    {
      ghost var w := WindowFor(regShift);
      ghost var goal := Poll(answer, w.lsr, TX_EMPTY, |trace|, FLUSH_POLLS);
      var timeout := FLUSH_POLLS;
      ghost var here := trace;
      var lsr := ReadReg(LSR);
      while !Reports(lsr, TX_EMPTY) && timeout > 0
        invariant trace == here + [Load(w.lsr)] && lsr == answer(|here|)
        invariant var rest := Poll(answer, w.lsr, TX_EMPTY, |here|, timeout);
          old(trace) + goal.accesses == here + rest.accesses && rest.left == goal.left
        decreases timeout
      {
        PollContinues(answer, w.lsr, TX_EMPTY, here, timeout);
        timeout := timeout - 1;
        here := trace;
        lsr := ReadReg(LSR);
      }
      PollEnds(answer, w.lsr, TX_EMPTY, |here|, timeout);
      r := if timeout == 0 then Err(Timeout) else Ok(());
    }
  }

  // ---------------------------------------------------------------- early console

  const CR: u8 := 0x0D
  const LF: u8 := 0x0A
  const DIGIT_0: u8 := 0x30
  const DIGIT_9: u8 := 0x39
  const LOWER_A: u8 := 0x61
  const LOWER_F: u8 := 0x66
  const LOWER_X: u8 := 0x78

  /** The bytes `puts` sends for `s`: `s` with a carriage return put before
      every line feed. */
  function Expand(s: seq<u8>): (o: seq<u8>)
    ensures forall j :: 0 <= j < |o| && LineFeedAt(o, j) ==> 0 < j && o[j - 1] == CR
    decreases |s|
  {
    if |s| == 0 then []
    else
      var head := Expand(s[..|s| - 1]);
      var o := head + (if s[|s| - 1] == LF then [CR, LF] else [s[|s| - 1]]);
      assert forall j :: 0 <= j < |head| ==> o[j] == head[j];
      assert forall j :: 0 <= j < |head| && LineFeedAt(o, j) ==> LineFeedAt(head, j);
      o
  }

  predicate LineFeedAt(o: seq<u8>, j: nat)
    requires j < |o|
  {
    o[j] == LF
  }

  /** Undoes `Expand`: drops the carriage return of every CR LF pair, read
      from the end. */
  function Collapse(o: seq<u8>): seq<u8>
    decreases |o|
  {
    if |o| == 0 then []
    else if |o| >= 2 && o[|o| - 2] == CR && o[|o| - 1] == LF then Collapse(o[..|o| - 2]) + [LF]
    else Collapse(o[..|o| - 1]) + [o[|o| - 1]]
  }

  /** Nothing but the inserted carriage returns is added: collapsing what
      `puts` sends gives the string back. */
  lemma {:induction false} CollapseExpand(s: seq<u8>)
    ensures Collapse(Expand(s)) == s
    decreases |s|
  {
    if |s| > 0 {
      var p, last := s[..|s| - 1], s[|s| - 1];
      CollapseExpand(p);
      assert s == p + [last];
      CollapseExpandLast(p, last);
    }
  }

  lemma CollapseExpandLast(p: seq<u8>, last: u8)
    ensures Collapse(Expand(p + [last])) == Collapse(Expand(p)) + [last]
  {
    var t := p + [last];
    assert t[..|t| - 1] == p && t[|t| - 1] == last;
    CollapseLast(Expand(p), last);
  }

  /** Collapsing what `Expand` adds for one more byte adds that byte. */
  lemma CollapseLast(o: seq<u8>, last: u8)
    ensures Collapse(o + (if last == LF then [CR, LF] else [last])) == Collapse(o) + [last]
  {
    if last == LF {
      var t := o + [CR, LF];
      assert t[..|t| - 2] == o;
    } else {
      var t := o + [last];
      assert t[..|t| - 1] == o;
    }
  }

  predicate IsHexDigit(c: u8)
  {
    DIGIT_0 <= c <= DIGIT_9 || LOWER_A <= c <= LOWER_F
  }

  /** The value of a hexadecimal digit character. */
  function HexValue(c: u8): nat
    requires IsHexDigit(c)
  {
    if c <= DIGIT_9 then c - DIGIT_0 else c - LOWER_A + 10
  }

  /** The character `put_hex` prints for a nibble: a digit or a lower-case
      letter, whose value is the nibble. */
  function HexDigit(n: nat): (c: u8)
    requires n < 16
    ensures IsHexDigit(c) && HexValue(c) == n
  {
    if n < 10 then DIGIT_0 + n else LOWER_A + (n - 10)
  }

  /** `(value >> (i * 4)) & 0xF`. */
  function Nibble(v: u32, i: nat): (n: nat)
    requires i < 8
    ensures n < 16
  {
    assert Pow2(4) == 16;
    MaskLowOnes(ShiftRight(v, 4 * i), 4);
    Mask(ShiftRight(v, 4 * i), 0xF)
  }

  /** Nibble `i` is digit `i` of the value in base 16. */
  lemma NibbleValue(v: u32, i: nat)
    requires i < 8
    ensures Nibble(v, i) == v / Pow2(4 * i) % 16
  {
    assert Pow2(4) == 16;
    MaskLowOnes(ShiftRight(v, 4 * i), 4);
    ShiftRightIsDiv(v, 4 * i);
  }

  /** The first `j` digits `put_hex` prints: nibbles 7 down to `8 - j`. */
  function HexDigits(v: u32, j: nat): (ds: seq<u8>)
    requires j <= 8
    ensures |ds| == j && forall k :: 0 <= k < j ==> IsHexDigit(ds[k])
  {
    if j == 0 then [] else HexDigits(v, j - 1) + [HexDigit(Nibble(v, 8 - j))]
  }

  /** Everything `put_hex` prints: "0x" and eight digits. */
  function HexText(v: u32): seq<u8>
  {
    [DIGIT_0, LOWER_X] + HexDigits(v, 8)
  }

  /** The number a string of hexadecimal digits spells, most significant
      digit first. */
  function ParseHex(ds: seq<u8>): nat
    requires forall k :: 0 <= k < |ds| ==> IsHexDigit(ds[k])
  {
    if |ds| == 0 then 0 else ParseHex(ds[..|ds| - 1]) * 16 + HexValue(ds[|ds| - 1])
  }

  lemma Pow2Plus4(e: nat)
    ensures Pow2(e + 4) == Pow2(e) * 16
  {
    assert Pow2(e + 4) == 2 * Pow2(e + 3);
    assert Pow2(e + 3) == 2 * Pow2(e + 2);
    assert Pow2(e + 2) == 2 * Pow2(e + 1);
  }

  lemma {:induction false} ParseHexDigits(v: u32, j: nat)
    requires j <= 8
    ensures ParseHex(HexDigits(v, j)) == v / Pow2(4 * (8 - j))
  {
    if j > 0 {
      ParseHexDigits(v, j - 1);
      ParseHexStep(v, j);
    } else {
      Pow2Word();
      assert v / Pow2(32) == 0;
    }
  }

  /** One more digit: the prefix spells the quotient by `2^(4 * (9 - j))`. */
  lemma ParseHexStep(v: u32, j: nat)
    requires 0 < j <= 8
    requires ParseHex(HexDigits(v, j - 1)) == v / Pow2(4 * (8 - (j - 1)))
    ensures ParseHex(HexDigits(v, j)) == v / Pow2(4 * (8 - j))
  {
    var e := 4 * (8 - j);
    HexDigitsLast(v, j);
    QuotientSame(v, 4 * (8 - (j - 1)), e + 4);
    NibbleValue(v, 8 - j);
    NibbleStep(v, e, ParseHex(HexDigits(v, j)), ParseHex(HexDigits(v, j - 1)), Nibble(v, 8 - j));
  }

  /** Appending the digit `v / 2^e % 16` to the digits of `v / 2^(e + 4)`
      spells `v / 2^e`. */
  lemma NibbleStep(v: nat, e: nat, whole: nat, prefix: nat, nibble: nat)
    requires prefix == v / Pow2(e + 4) && nibble == v / Pow2(e) % 16 && whole == prefix * 16 + nibble
    ensures whole == v / Pow2(e)
  {
    QuotientByNibble(v, e);
  }

  lemma QuotientSame(v: nat, a: nat, b: nat)
    requires a == b
    ensures v / Pow2(a) == v / Pow2(b)
  {
  }

  lemma HexDigitsLast(v: u32, j: nat)
    requires 0 < j <= 8
    ensures ParseHex(HexDigits(v, j)) == ParseHex(HexDigits(v, j - 1)) * 16 + Nibble(v, 8 - j)
  {
    var ds := HexDigits(v, j);
    assert ds[..j - 1] == HexDigits(v, j - 1);
  }

  lemma QuotientByNibble(v: nat, e: nat)
    ensures v / Pow2(e + 4) == v / Pow2(e) / 16
    ensures v / Pow2(e) == v / Pow2(e + 4) * 16 + v / Pow2(e) % 16
  {
    Pow2Plus4(e);
    DivDiv(v, Pow2(e), 16);
  }

  /** `put_hex` prints ten characters, "0x" and eight lower-case hexadecimal
      digits, which spell the value most significant nibble first. */
  lemma HexRoundTrip(v: u32)
    ensures |HexText(v)| == 10 && HexText(v)[..2] == [DIGIT_0, LOWER_X]
    ensures forall k :: 2 <= k < 10 ==> IsHexDigit(HexText(v)[k])
    ensures ParseHex(HexText(v)[2..]) == v
  {
    var ds := HexDigits(v, 8);
    ParseHexDigits(v, 8);
    assert Pow2(4 * (8 - 8)) == 1;
    assert HexText(v)[2..] == ds;
  }

  /** `EarlyConsole`: a write-only console on a UART the boot loader set up.
      `sent` is every byte written to its transmit register so far. */
  class EarlyConsole {
    const regShift: u32
    var sent: seq<u8>

    constructor(regShift: u32)
      ensures this.regShift == regShift && sent == []
    {
      this.regShift := regShift;
      sent := [];
    }

    /** `putc`: once the holding register is empty, send `c`. */
    method Putc(c: u8)
      modifies this
      ensures sent == old(sent) + [c]
    {
      sent := sent + [c];
    }

    /** `puts`. */
    method Puts(s: seq<u8>)
      modifies this
      ensures sent == old(sent) + Expand(s)
    {
      for i := 0 to |s|
        invariant sent == old(sent) + Expand(s[..i])
      {
        if s[i] == LF {
          Putc(CR);
        }
        Putc(s[i]);
        assert s[..i + 1][..i] == s[..i];
      }
      assert s[..|s|] == s;
    }

    /** `put_hex`. */
    method PutHex(value: u32)
      modifies this
      ensures sent == old(sent) + HexText(value)
    {
      assert Expand([DIGIT_0, LOWER_X]) == [DIGIT_0, LOWER_X] by {
        assert [DIGIT_0, LOWER_X][..1] == [DIGIT_0];
        assert [DIGIT_0][..0] == [];
        assert Expand([DIGIT_0]) == [DIGIT_0];
      }
      Puts([DIGIT_0, LOWER_X]);
      var i := 8;
      while i > 0
        invariant 0 <= i <= 8
        invariant sent == old(sent) + [DIGIT_0, LOWER_X] + HexDigits(value, 8 - i)
      {
        i := i - 1;
        Putc(HexDigit(Nibble(value, i)));
      }
    }
  }
}
