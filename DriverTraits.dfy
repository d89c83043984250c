/** The shared vocabulary of the generic driver crate: the error type, the
    result type every driver operation returns, the configuration records with
    their defaults, the clock-rate constructors, the MMC card description and
    the default `GpioDriver::toggle` and `ResetDriver::reset` sequences. */
module DriverTraits {
  import opened Common

  /** `DriverError`. */
  datatype DriverError =
    | NotFound
    | Busy
    | InvalidParam
    | Timeout
    | IoError
    | NotSupported
    | NoMemory
    | PermissionDenied
    | DeviceError(code: u32)
    | Custom(message: string)

  /** `DriverResult<T>`; failure-compatible so that `:-` plays the role of `?`. */
  datatype DriverResult<T> = Ok(value: T) | Err(error: DriverError) {
    predicate IsFailure() { Err? }
    function PropagateFailure<U>(): DriverResult<U> requires Err? { Err(error) }
    function Extract(): T requires Ok? { value }
  }

  // ---------------------------------------------------------------- GPIO

  datatype GpioDirection = Input | Output
  datatype GpioPull = PullNone | PullUp | PullDown
  datatype GpioConfig = GpioConfig(direction: GpioDirection, pull: GpioPull, initialValue: bool)

  /** `GpioConfig::default`: an input with no pull and a low initial value. */
  function DefaultGpioConfig(): (c: GpioConfig)
    ensures c.direction == Input && c.pull == PullNone && !c.initialValue
  {
    GpioConfig(Input, PullNone, false)
  }

  /** A call the default `GpioDriver::toggle` makes on its implementation. */
  datatype GpioCall = ReadPin(pin: u32) | WritePin(pin: u32, value: bool)

  datatype ToggleOutcome = ToggleOutcome(calls: seq<GpioCall>, result: DriverResult<()>)

  /** The default `GpioDriver::toggle`: read the pin, then write the opposite
      level. `read` and `written` are what the implementation answers. */
  function Toggle(pin: u32, read: DriverResult<bool>, written: DriverResult<()>): (o: ToggleOutcome)
    ensures |o.calls| >= 1 && o.calls[0] == ReadPin(pin)
    ensures read.Err? ==> o.calls == [ReadPin(pin)] && o.result == Err(read.error)
    ensures read.Ok? ==> o.calls == [ReadPin(pin), WritePin(pin, !read.value)] && o.result == written
  {
    match read
    case Err(e) => ToggleOutcome([ReadPin(pin)], Err(e))
    case Ok(current) => ToggleOutcome([ReadPin(pin), WritePin(pin, !current)], written)
  }

  // ---------------------------------------------------------------- clocks

  /** `ClockRate`, a frequency in Hz held in a `u64`. */
  datatype ClockRate = ClockRate(hz: u64)

  /** `ClockRate::mhz`; the `u64` product wraps as a release build does,
      so the rate is a whole number of megahertz only while it fits. */
  function Mhz(n: u64): (r: ClockRate)
    ensures n * 1_000_000 < U64_MOD ==> r.hz % 1_000_000 == 0
  {
    ClockRate((n * 1_000_000) % U64_MOD)
  }

  /** `ClockRate::khz`, wrapping the same way. */
  function Khz(n: u64): (r: ClockRate)
    ensures n * 1_000 < U64_MOD ==> r.hz % 1_000 == 0
  {
    ClockRate((n * 1_000) % U64_MOD)
  }

  /** `as_hz` gives back the requested number of megahertz or kilohertz, scaled,
      whenever the product fits in 64 bits. */
  lemma ClockRateScale(n: u64)
    ensures n * 1_000_000 < U64_MOD ==> Mhz(n).hz == n * 1_000_000 && Mhz(n).hz / 1_000_000 == n
    ensures n * 1_000 < U64_MOD ==> Khz(n).hz == n * 1_000 && Khz(n).hz / 1_000 == n
    ensures Mhz(24).hz == 24_000_000 && Khz(400).hz == 400_000
  {
  }

  // ---------------------------------------------------------------- reset

  /** A call a default trait method makes on its implementation. */
  datatype ResetCall = Assert(id: u32) | Deassert(id: u32)

  /** What a default method did: the calls it made, in order, and its result. */
  datatype ResetOutcome = ResetOutcome(calls: seq<ResetCall>, result: DriverResult<()>)

  /** The default `ResetDriver::reset`: assert the line, then deassert it.
      `asserted` and `deasserted` are what the implementation answers. */
  function Reset(id: u32, asserted: DriverResult<()>, deasserted: DriverResult<()>): (o: ResetOutcome)
    ensures |o.calls| >= 1 && o.calls[0] == Assert(id)
    ensures asserted.Err? ==> o.calls == [Assert(id)] && o.result == asserted
    ensures asserted.Ok? ==> o.calls == [Assert(id), Deassert(id)] && o.result == deasserted
  {
    if asserted.Err? then ResetOutcome([Assert(id)], asserted)
    else ResetOutcome([Assert(id), Deassert(id)], deasserted)
  }

  // ---------------------------------------------------------------- MMC

  datatype MmcCardType = Mmc | Sd | SdHc | SdXc | Emmc
  datatype MmcBusWidth = Width1 | Width4 | Width8

  /** `MmcCardInfo`. */
  datatype MmcCardInfo = MmcCardInfo(
    cardType: MmcCardType,
    capacityBytes: u64,
    blockSize: u32,
    busWidth: MmcBusWidth,
    maxFrequency: u32)

  // ---------------------------------------------------------------- SPI / UART

  datatype SpiMode = Mode0 | Mode1 | Mode2 | Mode3
  datatype SpiConfig = SpiConfig(mode: SpiMode, frequency: u32, bitsPerWord: u8, lsbFirst: bool)

  /** `SpiConfig::default`: mode 0 at 1 MHz, 8-bit words, MSB first. */
  function DefaultSpiConfig(): (c: SpiConfig)
    ensures c.mode == Mode0 && c.frequency == 1_000_000 && c.bitsPerWord == 8 && !c.lsbFirst
  {
    SpiConfig(Mode0, 1_000_000, 8, false)
  }

  datatype UartParity = ParityNone | ParityEven | ParityOdd
  datatype UartConfig = UartConfig(baudRate: u32, dataBits: u8, stopBits: u8, parity: UartParity, flowControl: bool)

  /** `UartConfig::default`: 115200 baud, 8N1, no flow control. */
  function DefaultUartConfig(): (c: UartConfig)
    ensures c.baudRate == 115200 && c.dataBits == 8 && c.stopBits == 1
    ensures c.parity == ParityNone && !c.flowControl
  {
    UartConfig(115200, 8, 1, ParityNone, false)
  }
}
