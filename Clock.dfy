/** The clock drivers of the generic driver crate: `GenericClockController`,
    which keeps a table of registered clocks with their state (enabled, rate,
    parent) and drives one gate bit and one divider register per clock, and
    `AllwinnerCcu`, which reads the A527 PLL registers, drives the bus gates
    and resets, and searches the MMC module-clock dividers. */
module Clock {
  import opened Common
  import opened Bits
  import opened DriverTraits

  // ================================================================ generic controller

  datatype ClockSource = Crystal | Pll | Derived | External

  /** `ClockDesc`. */
  datatype ClockDesc = ClockDesc(
    id: u32,
    name: string,
    source: ClockSource,
    parent: Option<u32>,
    minRate: ClockRate,
    maxRate: ClockRate,
    defaultRate: ClockRate)

  /** `ClockState`: what the controller remembers about one registered clock. */
  datatype ClockState = ClockState(enabled: bool, rate: ClockRate, parent: Option<u32>)

  const CLK_GATE: u32 := 0x00
  const CLK_DIV: u32 := 0x04
  const CLK_SEL: u32 := 0x08
  const PLL_CFG: u32 := 0x10
  const PLL_CTRL: u32 := 0x14

  /** The position of the first registered clock with identifier `id`. */
  function IndexOf(clocks: seq<ClockDesc>, id: u32): (r: Option<nat>)
    ensures r.Some? ==> r.value < |clocks| && clocks[r.value].id == id
    ensures r.Some? ==> forall j :: 0 <= j < r.value ==> clocks[j].id != id
    ensures r.None? ==> forall j :: 0 <= j < |clocks| ==> clocks[j].id != id
  {
    if |clocks| == 0 then None
    else if clocks[0].id == id then Some(0)
    else match IndexOf(clocks[1..], id)
      case None => None
      case Some(i) => Some(i + 1)
  }

  /** `find_clock_idx`: the index, or `NotFound`. */
  function Lookup(clocks: seq<ClockDesc>, id: u32): DriverResult<nat>
  {
    match IndexOf(clocks, id)
    case None => Err(NotFound)
    case Some(i) => Ok(i)
  }

  /** The gate register and bit of clock `id`: bit `id % 32` of the word at
      `CLK_GATE + (id / 32) * 4`. */
  function GateReg(id: u32): nat
  {
    CLK_GATE + (id / 32) * 4
  }

  function GateMask(id: u32): u32
  {
    BitMask(id % 32)
  }

  predicate GateOn(regs: RegFile, id: u32)
  {
    Bit(RegAt(regs, GateReg(id)), id % 32)
  }

  /** The divider register of clock `id`, `CLK_DIV + id * 4` in 32-bit arithmetic. */
  function DivReg(id: u32): nat
  {
    (CLK_DIV + id * 4) % U32_MOD
  }

  /** Every clock has a gate bit of its own: two identifiers never share one. */
  lemma GatesDistinct(a: u32, b: u32)
    requires a != b
    ensures GateReg(a) != GateReg(b) || a % 32 != b % 32
  {
  }

  /** The divider register of clock 0 is the gate register of clocks 32 to 63,
      and that of clock 1 is `CLK_SEL`: the layout packs both kinds of
      register into the same words. */
  lemma DividerRegistersOverlap()
    ensures DivReg(0) == GateReg(32) && DivReg(1) == CLK_SEL as nat
  {
  }

  /** Writing a gate bit with `modify_reg` sets or clears exactly that clock's
      bit and leaves every other clock's gate as it was. */
  lemma GateWrite(regs: RegFile, id: u32, on: bool, other: u32)
    ensures var r := ModifyReg(regs, GateReg(id), GateMask(id), if on then GateMask(id) else 0);
      GateOn(r, id) == on && (other != id ==> GateOn(r, other) == GateOn(regs, other))
  {
    NoBitsOfZero();
    if other != id {
      GatesDistinct(id, other);
    }
  }

  /** Bits of every register only go from clear to set. */
  ghost predicate BitsGrow(r1: RegFile, r2: RegFile)
  {
    forall a: nat, k: nat :: Bit(RegAt(r1, a), k) ==> Bit(RegAt(r2, a), k)
  }

  /** Clocks only go from disabled to enabled; parents and rates are kept. */
  ghost predicate EnabledGrow(s1: seq<ClockState>, s2: seq<ClockState>)
  {
    |s1| == |s2| &&
    forall j :: 0 <= j < |s1| ==>
      s2[j].parent == s1[j].parent && s2[j].rate == s1[j].rate && (s1[j].enabled ==> s2[j].enabled)
  }

  lemma SetGateGrows(regs: RegFile, id: u32)
    ensures BitsGrow(regs, ModifyReg(regs, GateReg(id), GateMask(id), GateMask(id)))
  {
  }

  /** Following parents from `id` reaches, within `depth` steps, a clock without
      a parent or an identifier nobody registered. `enable` recurses along
      this chain; on a cycle it never returns. */
  predicate ChainEnds(clocks: seq<ClockDesc>, states: seq<ClockState>, id: u32, depth: nat)
    requires |clocks| == |states|
    decreases depth
  {
    match IndexOf(clocks, id)
    case None => true
    case Some(i) =>
      states[i].parent.None? || (depth > 0 && ChainEnds(clocks, states, states[i].parent.value, depth - 1))
  }

  /** Every clock on the parent chain from `id` is registered. */
  predicate ChainRegistered(clocks: seq<ClockDesc>, states: seq<ClockState>, id: u32, depth: nat)
    requires |clocks| == |states|
    decreases depth
  {
    match IndexOf(clocks, id)
    case None => false
    case Some(i) =>
      states[i].parent.None? || (depth > 0 && ChainRegistered(clocks, states, states[i].parent.value, depth - 1))
  }

  /** Every clock on the parent chain from `id` is enabled and has its gate bit set. */
  ghost predicate ChainEnabled(clocks: seq<ClockDesc>, states: seq<ClockState>, regs: RegFile, id: u32, depth: nat)
    requires |clocks| == |states|
    decreases depth
  {
    match IndexOf(clocks, id)
    case None => false
    case Some(i) =>
      states[i].enabled && GateOn(regs, id) &&
      (states[i].parent.None? || (depth > 0 && ChainEnabled(clocks, states, regs, states[i].parent.value, depth - 1)))
  }

  /** The state and registers after an operation, and its result. */
  datatype Effect = Effect(states: seq<ClockState>, regs: RegFile, result: DriverResult<()>)

  /** `enable`: enable the parent chain first, then set this clock's gate bit
      and mark it enabled. An unregistered clock anywhere on the chain stops
      the recursion with `NotFound` before anything is written. */
  function EnableEffect(clocks: seq<ClockDesc>, states: seq<ClockState>, regs: RegFile, id: u32, depth: nat): (e: Effect)
    requires |clocks| == |states| && ChainEnds(clocks, states, id, depth)
    ensures EnabledGrow(states, e.states) && BitsGrow(regs, e.regs)
    ensures e.result.Err? ==> e == Effect(states, regs, Err(NotFound))
    decreases depth
  {
    match IndexOf(clocks, id)
    case None => Effect(states, regs, Err(NotFound))
    case Some(i) =>
      var before :=
        if states[i].parent.None? then Effect(states, regs, Ok(()))
        else EnableEffect(clocks, states, regs, states[i].parent.value, depth - 1);
      if before.result.Err? then before
      else
        SetGateGrows(before.regs, id);
        Effect(before.states[i := before.states[i].(enabled := true)],
               ModifyReg(before.regs, GateReg(id), GateMask(id), GateMask(id)), Ok(()))
  }

  /** Enabling and setting gate bits never disables anything on a chain. */
  lemma {:induction false} ChainEnabledGrows(clocks: seq<ClockDesc>, s1: seq<ClockState>, r1: RegFile,
                                             s2: seq<ClockState>, r2: RegFile, id: u32, depth: nat)
    requires |clocks| == |s1| && EnabledGrow(s1, s2) && BitsGrow(r1, r2)
    requires ChainEnabled(clocks, s1, r1, id, depth)
    ensures ChainEnabled(clocks, s2, r2, id, depth)
    decreases depth
  {
    var i := IndexOf(clocks, id).value;
    if s1[i].parent.Some? {
      ChainEnabledGrows(clocks, s1, r1, s2, r2, s1[i].parent.value, depth - 1);
    }
  }

  /** `enable` fails exactly when some clock on the parent chain is not registered. */
  lemma {:induction false} EnableFailsIffChainBroken(clocks: seq<ClockDesc>, states: seq<ClockState>, regs: RegFile, id: u32, depth: nat)
    requires |clocks| == |states| && ChainEnds(clocks, states, id, depth)
    ensures EnableEffect(clocks, states, regs, id, depth).result.Ok? == ChainRegistered(clocks, states, id, depth)
    decreases depth
  {
    match IndexOf(clocks, id)
    case None =>
    case Some(i) =>
      if states[i].parent.Some? {
        EnableFailsIffChainBroken(clocks, states, regs, states[i].parent.value, depth - 1);
      }
  }

  /** A successful `enable` leaves the clock and all its ancestors enabled,
      each with its gate bit set. */
  lemma {:induction false} EnableReachesRoot(clocks: seq<ClockDesc>, states: seq<ClockState>, regs: RegFile, id: u32, depth: nat)
    requires |clocks| == |states| && ChainEnds(clocks, states, id, depth)
    ensures var e := EnableEffect(clocks, states, regs, id, depth);
      e.result.Ok? ==> ChainEnabled(clocks, e.states, e.regs, id, depth)
    decreases depth
  {
    var e := EnableEffect(clocks, states, regs, id, depth);
    if e.result.Ok? {
      var i := IndexOf(clocks, id).value;
      var before :=
        if states[i].parent.None? then Effect(states, regs, Ok(()))
        else EnableEffect(clocks, states, regs, states[i].parent.value, depth - 1);
      GateWrite(before.regs, id, true, id);
      if states[i].parent.Some? {
        var p := states[i].parent.value;
        EnableReachesRoot(clocks, states, regs, p, depth - 1);
        SetGateGrows(before.regs, id);
        assert EnabledGrow(before.states, e.states);
        ChainEnabledGrows(clocks, before.states, before.regs, e.states, e.regs, p, depth - 1);
      }
    }
  }

  /** A clock made its own parent has a chain that never ends: `enable` on it
      would recurse without bound. */
  lemma {:induction false} SelfParentNeverEnds(clocks: seq<ClockDesc>, states: seq<ClockState>, id: u32, depth: nat)
    requires |clocks| == |states| && IndexOf(clocks, id).Some?
    requires states[IndexOf(clocks, id).value].parent == Some(id)
    ensures !ChainEnds(clocks, states, id, depth)
    decreases depth
  {
    if depth > 0 {
      SelfParentNeverEnds(clocks, states, id, depth - 1);
    }
  }

  /** Registering a clock appends it; an identifier already present keeps
      resolving to its first registration. */
  lemma RegisterLookup(clocks: seq<ClockDesc>, d: ClockDesc, id: u32)
    ensures IndexOf(clocks + [d], id) ==
      if IndexOf(clocks, id).Some? then IndexOf(clocks, id)
      else if d.id == id then Some(|clocks|)
      else None
  {
    var r := IndexOf(clocks + [d], id);
    if IndexOf(clocks, id).Some? {
      var k := IndexOf(clocks, id).value;
      assert (clocks + [d])[k] == clocks[k];
    } else if d.id == id {
      assert (clocks + [d])[|clocks|] == d;
    }
  }

  /** `rate.clamp(min, max)`; `clamp` panics when `min > max`. */
  function Clamp(x: u64, lo: u64, hi: u64): u64
    requires lo <= hi
  {
    if x < lo then lo else if x > hi then hi else x
  }

  /** The rate `set_rate` aims for: the request clamped to the clock's range. */
  function TargetRate(desc: ClockDesc, rate: ClockRate): (t: ClockRate)
    requires desc.minRate.hz <= desc.maxRate.hz
    ensures desc.minRate.hz <= t.hz <= desc.maxRate.hz
    ensures desc.minRate.hz <= rate.hz <= desc.maxRate.hz ==> t == rate
    ensures rate.hz < desc.minRate.hz ==> t == desc.minRate
    ensures rate.hz > desc.maxRate.hz ==> t == desc.maxRate
  {
    ClockRate(Clamp(rate.hz, desc.minRate.hz, desc.maxRate.hz))
  }

  /** `calc_divider`: 1 for a zero target, otherwise `max(parent / target, 1)`
      cast to `u32`, which keeps only the low 32 bits. */
  function CalcDivider(parentHz: u64, targetHz: u64): u32
  {
    if targetHz == 0 then 1
    else (if parentHz / targetHz > 1 then parentHz / targetHz else 1) % U32_MOD
  }

  /** If `t * d <= p` then `p / d >= t`. */
  lemma DivAtLeast(p: nat, d: nat, t: nat)
    requires d > 0 && t * d <= p
    ensures p / d >= t
  {
    var q, r := p / d, p % d;
    assert p == d * q + r;
    MulAtLeast(d, q - t);
    assert d * (q - t) == d * q - d * t;
  }

  /** When the source is at least the target and their ratio fits a `u32`, the
      divider is `parent / target`, and the rate it yields lies between the
      target and the source rate: `set_rate` rounds the rate up, never down. */
  lemma SetRateMeetsTarget(parentHz: u64, targetHz: u64)
    requires 0 < targetHz <= parentHz && parentHz / targetHz < U32_MOD
    ensures CalcDivider(parentHz, targetHz) == parentHz / targetHz >= 1
    ensures targetHz <= parentHz / CalcDivider(parentHz, targetHz) <= parentHz
  {
    var d := parentHz / targetHz;
    assert d >= 1 by {
      DivAtLeast(parentHz, targetHz, 1);
    }
    assert targetHz * d <= parentHz;
    DivAtLeast(parentHz, d, targetHz);
    DivAtMost(parentHz, d);
  }

  /** Because the divider rounds down, the rate set can exceed the clock's
      maximum: a 100 Hz source, a range of [1, 30] and a request of 30 give a
      divider of 3 and a rate of 33. */
  lemma SetRateCanExceedMax()
    ensures Clamp(30, 1, 30) == 30 && CalcDivider(100, 30) == 3 && 100 / 3 == 33
  {
  }

  /** The `u32` cast makes the divider 0 for a ratio of exactly `2^32`, and
      `parent_rate / 0` then panics. */
  lemma DividerTruncates()
    ensures CalcDivider(U32_MOD, 1) == 0
    ensures CalcDivider(U32_MOD + 5, 1) == 5
  {
  }

  /** `get_rate` on the table. */
  function RateOf(clocks: seq<ClockDesc>, states: seq<ClockState>, id: u32): (r: DriverResult<ClockRate>)
    requires |clocks| == |states|
    ensures r.Ok? <==> IndexOf(clocks, id).Some?
    ensures r.Ok? ==> r.value == states[IndexOf(clocks, id).value].rate
    ensures r.Err? ==> r.error == NotFound
  {
    match IndexOf(clocks, id)
    case None => Err(NotFound)
    case Some(i) => Ok(states[i].rate)
  }

  /** The rate `set_rate` divides: the parent's recorded rate, or the
      controller's input rate for a clock without a parent. */
  function SourceRate(clocks: seq<ClockDesc>, states: seq<ClockState>, parentRate: ClockRate, i: nat): DriverResult<ClockRate>
    requires |clocks| == |states| && i < |states|
  {
    match states[i].parent
    case None => Ok(parentRate)
    case Some(p) => RateOf(clocks, states, p)
  }

  /** A rate divided by a non-zero divider, as `u64` division: never
      faster than the rate divided. */
  function DivideRate(rate: ClockRate, divider: u32): (r: ClockRate)
    requires divider != 0
    ensures r.hz <= rate.hz
  {
    QuotientAtMost(rate.hz, divider);
    ClockRate(rate.hz / divider)
  }

  /** `set_rate` runs without panicking: the clock's range is well formed and
      the divider it computes is not 0. */
  predicate SetRateDefined(clocks: seq<ClockDesc>, states: seq<ClockState>, parentRate: ClockRate, id: u32, rate: ClockRate)
    requires |clocks| == |states|
  {
    match IndexOf(clocks, id)
    case None => true
    case Some(i) =>
      clocks[i].minRate.hz <= clocks[i].maxRate.hz &&
      var src := SourceRate(clocks, states, parentRate, i);
      src.Ok? ==> CalcDivider(src.value.hz, TargetRate(clocks[i], rate).hz) != 0
  }

  /** `GenericClockController`. */
  class GenericClockController {
    var regs: RegFile
    var clocks: seq<ClockDesc>
    var states: seq<ClockState>
    const parentRate: ClockRate

    ghost predicate Valid()
      reads this
    {
      |clocks| == |states|
    }

    /** `new`: no clocks registered; `regs` stands for the registers at `base`. */
    constructor(regs: RegFile, parentRate: ClockRate)
      ensures Valid() && clocks == [] && states == []
      ensures this.regs == regs && this.parentRate == parentRate
    {
      this.regs := regs;
      this.clocks := [];
      this.states := [];
      this.parentRate := parentRate;
    }

    /** `register_clock`: append the descriptor and a disabled state at the
        default rate with the descriptor's parent. */
    method RegisterClock(desc: ClockDesc)
      requires Valid()
      modifies this
      ensures Valid() && regs == old(regs)
      ensures clocks == old(clocks) + [desc]
      ensures states == old(states) + [ClockState(false, desc.defaultRate, desc.parent)]
    {
      clocks := clocks + [desc];
      states := states + [ClockState(false, desc.defaultRate, desc.parent)];
    }

    /** `find_clock_idx`: a linear scan for the first clock with this identifier. */
    method FindClockIdx(id: u32) returns (r: DriverResult<nat>)
      ensures r == Lookup(clocks, id)
      ensures r.Ok? ==> r.value < |clocks|
    {
      var i := 0;
      while i < |clocks|
        invariant 0 <= i <= |clocks|
        invariant forall j :: 0 <= j < i ==> clocks[j].id != id
      {
        if clocks[i].id == id {
          return Ok(i);
        }
        i := i + 1;
      }
      return Err(NotFound);
    }

    /** `enable`. `depth` bounds the parent chain, which the recursion needs
        to end. */
    method Enable(clock: u32, ghost depth: nat) returns (r: DriverResult<()>)
      requires Valid() && ChainEnds(clocks, states, clock, depth)
      modifies this
      ensures Valid() && clocks == old(clocks)
      ensures Effect(states, regs, r) == EnableEffect(old(clocks), old(states), old(regs), clock, depth)
      decreases depth
    {
      var idx :- FindClockIdx(clock);
      if states[idx].parent.Some? {
        var parentDone :- Enable(states[idx].parent.value, depth - 1);
      }
      var gateBit := BitMask(clock % 32);
      var gateReg := CLK_GATE + (clock / 32) * 4;
      regs := ModifyReg(regs, gateReg, gateBit, gateBit);
      states := states[idx := states[idx].(enabled := true)];
      return Ok(());
    }

    /** `disable`: clear this clock's gate bit and mark it disabled; parents
        are left running. */
    method Disable(clock: u32) returns (r: DriverResult<()>)
      requires Valid()
      modifies this
      ensures Valid() && clocks == old(clocks)
      ensures IndexOf(clocks, clock).None? ==>
        r == Err(NotFound) && states == old(states) && regs == old(regs)
      ensures IndexOf(clocks, clock).Some? ==>
        var i := IndexOf(clocks, clock).value;
        r == Ok(()) &&
        states == old(states)[i := old(states)[i].(enabled := false)] &&
        regs == ModifyReg(old(regs), GateReg(clock), GateMask(clock), 0)
    {
      var idx :- FindClockIdx(clock);
      var gateBit := BitMask(clock % 32);
      var gateReg := CLK_GATE + (clock / 32) * 4;
      regs := ModifyReg(regs, gateReg, gateBit, 0);
      states := states[idx := states[idx].(enabled := false)];
      return Ok(());
    }

    /** `is_enabled`. */
    function IsEnabled(clock: u32): (r: DriverResult<bool>)
      requires Valid()
      reads this
      ensures r.Ok? <==> IndexOf(clocks, clock).Some?
      ensures r.Ok? ==> r.value == states[IndexOf(clocks, clock).value].enabled
      ensures r.Err? ==> r.error == NotFound
    {
      match IndexOf(clocks, clock)
      case None => Err(NotFound)
      case Some(i) => Ok(states[i].enabled)
    }

    /** `get_rate`: the recorded rate of a registered clock, NotFound for
        any other id. */
    function GetRate(clock: u32): (r: DriverResult<ClockRate>)
      requires Valid()
      reads this
      ensures r.Ok? <==> IndexOf(clocks, clock).Some?
      ensures r.Ok? ==> r.value == states[IndexOf(clocks, clock).value].rate
      ensures r.Err? ==> r.error == NotFound
    {
      RateOf(clocks, states, clock)
    }

    /** `set_rate`: clamp the request to the clock's range, divide the source
        rate by `calc_divider`, write `divider - 1` to the divider register
        and record the rate obtained. */
    method SetRate(clock: u32, rate: ClockRate) returns (r: DriverResult<ClockRate>)
      requires Valid() && SetRateDefined(clocks, states, parentRate, clock, rate)
      modifies this
      ensures Valid() && clocks == old(clocks)
      ensures IndexOf(clocks, clock).None? ==>
        r == Err(NotFound) && states == old(states) && regs == old(regs)
      ensures IndexOf(clocks, clock).Some? ==>
        var i := IndexOf(clocks, clock).value;
        var src := SourceRate(clocks, old(states), parentRate, i);
        (src.Err? ==> r == Err(NotFound) && states == old(states) && regs == old(regs)) &&
        (src.Ok? ==>
          var divider := CalcDivider(src.value.hz, TargetRate(clocks[i], rate).hz);
          divider != 0 &&
          r == Ok(ClockRate(src.value.hz / divider)) &&
          states == old(states)[i := old(states)[i].(rate := ClockRate(src.value.hz / divider))] &&
          regs == old(regs)[DivReg(clock) := divider - 1])
    {
      var idx :- FindClockIdx(clock);
      var desc := clocks[idx];
      var target := ClockRate(Clamp(rate.hz, desc.minRate.hz, desc.maxRate.hz));
      var source: ClockRate;
      if states[idx].parent.Some? {
        source :- GetRate(states[idx].parent.value);
      } else {
        source := parentRate;
      }
      var divider := CalcDivider(source.hz, target.hz);
      var actual := DivideRate(source, divider);
      regs := regs[(CLK_DIV + clock * 4) % U32_MOD := divider - 1];
      states := states[idx := states[idx].(rate := actual)];
      return Ok(actual);
    }

    /** `get_parent`. */
    function GetParent(clock: u32): (r: DriverResult<Option<u32>>)
      requires Valid()
      reads this
      ensures r.Ok? <==> IndexOf(clocks, clock).Some?
      ensures r.Ok? ==> r.value == states[IndexOf(clocks, clock).value].parent
      ensures r.Err? ==> r.error == NotFound
    {
      match IndexOf(clocks, clock)
      case None => Err(NotFound)
      case Some(i) => Ok(states[i].parent)
    }

    /** `set_parent`: both clocks must be registered; only the recorded parent
        changes, no register is written. */
    method SetParent(clock: u32, parent: u32) returns (r: DriverResult<()>)
      requires Valid()
      modifies this
      ensures Valid() && clocks == old(clocks) && regs == old(regs)
      ensures (IndexOf(clocks, clock).None? || IndexOf(clocks, parent).None?) ==>
        r == Err(NotFound) && states == old(states)
      ensures IndexOf(clocks, clock).Some? && IndexOf(clocks, parent).Some? ==>
        var i := IndexOf(clocks, clock).value;
        r == Ok(()) && states == old(states)[i := old(states)[i].(parent := Some(parent))]
    {
      var idx :- FindClockIdx(clock);
      var parentIdx :- FindClockIdx(parent);
      states := states[idx := states[idx].(parent := Some(parent))];
      return Ok(());
    }
  }

  // ================================================================ Allwinner CCU

  const PLL_CPU: u32 := 0x000
  const PLL_PERIPH0: u32 := 0x020
  const BUS_CLK_GATE0: u32 := 0x800
  const BUS_CLK_GATE2: u32 := 0x808
  const MMC0_CLK: u32 := 0x830
  const MMC1_CLK: u32 := 0x834
  const MMC2_CLK: u32 := 0x838

  const HOSC_24MHZ: ClockRate := Mhz(24)
  const LOSC_32KHZ: ClockRate := ClockRate(32768)

  /** `calc_pll_rate`: `N = reg[15:8] + 1`, `M = reg[0] + 1`, `P = reg[17:16] + 1`
      and the rate `hosc * N / (M * P)`, with the `u64` product wrapping as a
      release build does. N is at most 256, so the rate never exceeds 256
      times the crystal. */
  function PllRate(hosc: u64, reg: u32): (r: ClockRate)
    ensures r.hz <= hosc * 256
  {
    var n := Mask(ShiftRight(reg, 8), 0xFF) + 1;
    var m := Mask(reg, 0x1) + 1;
    var p := Mask(ShiftRight(reg, 16), 0x3) + 1;
    PllFields(reg);
    var product := (hosc * n) % U64_MOD;
    PllBound(hosc, n, m, p, product);
    ClockRate(product / (m * p))
  }

  /** The wrapped product divided by `M * P` fits a `u64` and stays below
      256 times the crystal, since N is at most 256. */
  lemma PllBound(hosc: nat, n: nat, m: nat, p: nat, product: nat)
    requires 1 <= n <= 256 && 1 <= m && 1 <= p
    requires product == (hosc * n) % U64_MOD
    ensures m * p >= 1 && product / (m * p) <= product < U64_MOD && product / (m * p) <= hosc * 256
  {
    QuotientFits(product, m, p);
    MulMonotone(hosc, n, 256);
    if hosc * n < U64_MOD {
      ModSmall(hosc * n, U64_MOD);
    }
  }

  /** Doubling in `u64` gives an even rate, and the exact double while the
      crystal times 512 fits. */
  lemma DoubleWraps(x: nat, hosc: nat)
    requires x <= hosc * 256
    ensures (x * 2) % U64_MOD % 2 == 0
    ensures hosc * 512 < U64_MOD ==> (x * 2) % U64_MOD == x * 2
  {
    var q := (x * 2) / U64_MOD;
    var r := (x * 2) % U64_MOD;
    assert x * 2 == U64_MOD * q + r;
    assert r == 2 * (x - 0x8000_0000_0000_0000 * q);
    if hosc * 512 < U64_MOD {
      ModSmall(x * 2, U64_MOD);
    }
  }

  /** A quotient by a product of positive factors is no larger than the
      dividend. */
  lemma QuotientFits(x: nat, m: nat, p: nat)
    requires m >= 1 && p >= 1
    ensures m * p >= 1 && x / (m * p) <= x
  {
    MulMonotone(m, 1, p);
    QuotientAtMost(x, m * p);
  }

  lemma QuotientAtMost(x: nat, d: nat)
    requires d >= 1
    ensures x / d <= x
  {
    var q := x / d;
    MulMonotone(q, 1, d);
  }

  /** The PLL rate in terms of the register's fields read as numbers. */
  lemma PllRateFormula(hosc: u64, reg: u32)
    requires hosc * 256 < U64_MOD
    ensures PllRate(hosc, reg).hz ==
      hosc * (reg / 0x100 % 0x100 + 1) / ((reg % 2 + 1) * (reg / 0x1_0000 % 4 + 1))
  {
    var n := Mask(ShiftRight(reg, 8), 0xFF) + 1;
    var m := Mask(reg, 0x1) + 1;
    var p := Mask(ShiftRight(reg, 16), 0x3) + 1;
    PllFields(reg);
    NoWrap(hosc, n);
    SameQuotient(hosc, n, reg / 0x100 % 0x100 + 1, m, reg % 2 + 1, p, reg / 0x1_0000 % 4 + 1);
  }

  /** The three PLL fields are the register's bits 8-15, bit 0 and bits
      16-17 read as numbers. */
  lemma PllFields(reg: u32)
    ensures Mask(ShiftRight(reg, 8), 0xFF) == reg / 0x100 % 0x100
    ensures Mask(reg, 0x1) == reg % 2
    ensures Mask(ShiftRight(reg, 16), 0x3) == reg / 0x1_0000 % 4
  {
    assert Pow2(1) == 2 && Pow2(2) == 4;
    assert Pow2(8) == 0x100;
    assert Pow2(16) == 0x1_0000;
    ShiftRightIsDiv(reg, 8);
    ShiftRightIsDiv(reg, 16);
    MaskLowOnes(ShiftRight(reg, 8), 8);
    MaskLowOnes(reg, 1);
    MaskLowOnes(ShiftRight(reg, 16), 2);
  }

  lemma NoWrap(hosc: u64, n: nat)
    requires hosc * 256 < U64_MOD && n <= 256
    ensures (hosc * n) % U64_MOD == hosc * n
  {
    MulMonotone(hosc, n, 256);
  }

  lemma SameQuotient(h: nat, n1: nat, n2: nat, m1: nat, m2: nat, p1: nat, p2: nat)
    requires n1 == n2 && m1 == m2 && p1 == p2 && m1 * p1 > 0
    ensures h * n1 / (m1 * p1) == h * n2 / (m2 * p2)
  {
  }

  /** The gate register and bit of a clock the CCU knows: UARTs 0-5 at bits
      16-21 of gate 2, MMC 128-130 at bits 8-10 of gate 0, I2C 160-164 at
      bits 0-4 of gate 2. */
  function CcuGate(clock: u32): (g: Option<(u32, u32)>)
    ensures g.Some? ==> g.value.1 < 32
  {
    if clock <= 5 then Some((BUS_CLK_GATE2, clock + 16))
    else if 128 <= clock <= 130 then Some((BUS_CLK_GATE0, clock - 128 + 8))
    else if 160 <= clock <= 164 then Some((BUS_CLK_GATE2, clock - 160))
    else None
  }

  /** `val | (1 << bit)` or `val & !(1 << bit)` on one register. */
  function WriteBit(regs: RegFile, reg: u32, bit: u32, on: bool): RegFile
  {
    var mask := BitMask(bit % 32);
    regs[reg := if on then SetMask(RegAt(regs, reg), mask) else ClearMask(RegAt(regs, reg), mask)]
  }

  /** `(val & (1 << bit)) != 0` for the register at `reg`. */
  function BitOn(regs: RegFile, reg: u32, bit: u32): bool
    requires bit < 32
  {
    Mask(RegAt(regs, reg), BitMask(bit)) != 0
  }

  /** `is_enabled` of the CCU on a register file. */
  function CcuGateOn(regs: RegFile, clock: u32): (r: DriverResult<bool>)
    ensures r.Err? <==> CcuGate(clock).None?
    ensures r.Err? ==> r.error == NotSupported
  {
    match CcuGate(clock)
    case None => Err(NotSupported)
    case Some(g) => Ok(BitOn(regs, g.0, g.1))
  }

  /** Two supported clocks never share a gate bit. */
  lemma CcuGatesDistinct(a: u32, b: u32)
    requires a != b && CcuGate(a).Some? && CcuGate(b).Some?
    ensures CcuGate(a).value != CcuGate(b).value
  {
  }

  /** Writing one bit changes what a test of that bit reads and nothing else. */
  lemma WriteBitEffect(regs: RegFile, reg: u32, bit: u32, on: bool, reg2: u32, bit2: u32)
    requires bit < 32 && bit2 < 32
    ensures BitOn(WriteBit(regs, reg, bit, on), reg2, bit2) ==
      if reg2 == reg && bit2 == bit then on else BitOn(regs, reg2, bit2)
  {
    TestBit(RegAt(WriteBit(regs, reg, bit, on), reg2), bit2);
    TestBit(RegAt(regs, reg2), bit2);
  }

  /** Gating a supported clock on or off is read back by `is_enabled` and
      leaves every other clock's gate as it was. */
  lemma CcuGateRoundTrip(regs: RegFile, clock: u32, on: bool, other: u32)
    requires CcuGate(clock).Some?
    ensures var g := CcuGate(clock).value;
      var after := WriteBit(regs, g.0, g.1, on);
      CcuGateOn(after, clock) == Ok(on) &&
      (other != clock ==> CcuGateOn(after, other) == CcuGateOn(regs, other))
  {
    var g := CcuGate(clock).value;
    WriteBitEffect(regs, g.0, g.1, on, g.0, g.1);
    if other != clock {
      match CcuGate(other)
      case None =>
      case Some(h) =>
        CcuGatesDistinct(clock, other);
        WriteBitEffect(regs, g.0, g.1, on, h.0, h.1);
    }
  }

  /** The divider pair the MMC search settles on: `n` (the divider is `2^n`),
      `m - 1` as written to the register, and the rate they give. */
  datatype Choice = Choice(n: nat, mField: nat, rate: nat)

  /** The rate of the pair `(n, m)`: `src / ((1 << n) * m)`. */
  function Candidate(src: nat, n: nat, m: nat): nat
    requires m >= 1
  {
    src / (Pow2(n) * m)
  }

  /** The pairs the nested loops try: `n` in `0..4`, `m` in `1..16`. */
  predicate InPlan(n: nat, m: nat)
  {
    n < 4 && 1 <= m < 16
  }

  /** Pair `(n1, m1)` comes before `(n, m)` in the order the loops try them. */
  predicate Before(n1: nat, m1: nat, n: nat, m: nat)
  {
    n1 < n || (n1 == n && m1 < m)
  }

  /** Trying the pair `(n, m)`: it replaces `best` when its rate is at most
      the target and strictly above the best rate so far. */
  function Try(src: nat, target: nat, n: nat, m: nat, best: Choice): Choice
    requires m >= 1
  {
    var actual := Candidate(src, n, m);
    if actual <= target && actual > best.rate then Choice(n, m - 1, actual) else best
  }

  /** The choice the nested loops of `configure_mmc_clock` hold when they
      reach the pair `(n, m)`, having tried every pair before it. */
  function ScanTo(src: nat, target: nat, n: nat, m: nat): (r: Choice)
    requires n <= 4 && 1 <= m <= 16 && (n < 4 || m == 1)
    ensures r.n < 4 && r.mField < 15 && r.rate <= target
    decreases n, m
  {
    if m > 1 then Try(src, target, n, m - 1, ScanTo(src, target, n, m - 1))
    else if n > 0 then ScanTo(src, target, n - 1, 16)
    else Choice(0, 0, 0)
  }

  /** The choice once every pair has been tried. */
  function MmcDivider(src: nat, target: nat): (r: Choice)
    ensures r.n < 4 && r.mField < 15 && r.rate <= target
  {
    ScanTo(src, target, 4, 1)
  }

  /** `best` is the right choice for the pairs before `(n, m)`: the largest
      rate not above the target, first reached in loop order, or nothing. */
  ghost predicate BestSoFar(src: nat, target: nat, n: nat, m: nat, best: Choice)
  {
    (forall n1, m1 :: InPlan(n1, m1) && Before(n1, m1, n, m) && Candidate(src, n1, m1) <= target ==>
       Candidate(src, n1, m1) <= best.rate) &&
    (best.rate == 0 ==> best.n == 0 && best.mField == 0) &&
    (best.rate > 0 ==>
       InPlan(best.n, best.mField + 1) && Before(best.n, best.mField + 1, n, m) &&
       Candidate(src, best.n, best.mField + 1) == best.rate &&
       forall n1, m1 :: InPlan(n1, m1) && Before(n1, m1, best.n, best.mField + 1) && Candidate(src, n1, m1) <= target ==>
         Candidate(src, n1, m1) < best.rate)
  }

  lemma {:induction false} ScanToIsBest(src: nat, target: nat, n: nat, m: nat)
    requires n <= 4 && 1 <= m <= 16 && (n < 4 || m == 1)
    ensures BestSoFar(src, target, n, m, ScanTo(src, target, n, m))
    decreases n, m
  {
    if m > 1 {
      ScanToIsBest(src, target, n, m - 1);
      TryKeepsBest(src, target, n, m - 1, ScanTo(src, target, n, m - 1));
    } else if n > 0 {
      ScanToIsBest(src, target, n - 1, 16);
      NextRowKeepsBest(src, target, n, ScanTo(src, target, n - 1, 16));
    }
  }

  /** Trying the pair `(n, m)` extends a best choice over the pairs before
      it to one over the pairs up to and including it. */
  lemma TryKeepsBest(src: nat, target: nat, n: nat, m: nat, best: Choice)
    requires InPlan(n, m) && BestSoFar(src, target, n, m, best)
    ensures BestSoFar(src, target, n, m + 1, Try(src, target, n, m, best))
  {
    var actual := Candidate(src, n, m);
    if actual <= target && actual > best.rate {
      assert Try(src, target, n, m, best) == Choice(n, m - 1, actual);
    }
  }

  /** Past the last `m` of row `n - 1` come exactly the pairs before `(n, 1)`. */
  lemma NextRowKeepsBest(src: nat, target: nat, n: nat, best: Choice)
    requires n > 0 && BestSoFar(src, target, n - 1, 16, best)
    ensures BestSoFar(src, target, n, 1, best)
  {
  }

  /** The MMC divider search picks the largest rate not above the target that
      any pair gives, the first pair in loop order that gives it, and `(0, 0)`
      with rate 0 when every pair overshoots the target. */
  lemma MmcDividerIsBest(src: nat, target: nat)
    ensures var r := MmcDivider(src, target);
      r.rate <= target &&
      (forall n, m :: InPlan(n, m) && Candidate(src, n, m) <= target ==> Candidate(src, n, m) <= r.rate) &&
      (r.rate > 0 ==>
         InPlan(r.n, r.mField + 1) && Candidate(src, r.n, r.mField + 1) == r.rate &&
         forall n, m :: InPlan(n, m) && Before(n, m, r.n, r.mField + 1) && Candidate(src, n, m) <= target ==>
           Candidate(src, n, m) < r.rate) &&
      (r.rate == 0 ==> r.n == 0 && r.mField == 0)
  {
    ScanToIsBest(src, target, 4, 1);
  }

  /** When the target is below every rate the dividers can make, the search
      leaves `N = 0, M = 0`: the register then selects the undivided source
      while `configure_mmc_clock` reports a rate of 0. */
  lemma MmcTargetTooLow(src: nat, target: nat)
    requires forall n, m :: InPlan(n, m) ==> Candidate(src, n, m) > target
    ensures MmcDivider(src, target) == Choice(0, 0, 0)
    ensures MmcClockWord(0, 0) == 0x8100_0000
  {
    MmcDividerIsBest(src, target);
    MmcClockWordFields(0, 0);
  }

  /** `(1 << 31) | (1 << 24) | (n << 8) | m`: enabled, sourced from PERIPH0
      (2x), with the dividers in their fields. */
  function MmcClockWord(n: u32, mField: u32): u32
  {
    SetMask(SetMask(SetMask(BitMask(31), BitMask(24)), ShiftLeft(n, 8)), mField)
  }

  lemma ModSmall(x: int, m: int)
    requires 0 <= x < m
    ensures x % m == x
  {
  }

  /** `(1 << 31) | (1 << 24)` is `0x8100_0000`. */
  lemma EnableAndSourceBits()
    ensures SetMask(BitMask(31), BitMask(24)) == 0x8100_0000
  {
    Pow2Word();
    assert Pow2(31) == 0x8000_0000;
    assert Pow2(24) == 0x100_0000 by {
      assert Pow2(30) == 0x4000_0000;
      assert Pow2(28) == 0x1000_0000;
      assert Pow2(26) == 0x400_0000;
    }
    OrDisjoint(BitMask(31), BitMask(24));
  }

  /** `n << 8` for `n < 4` is `n * 256`, with its bits at 8 and 9 only. */
  lemma DividerNBits(n: u32)
    requires n < 4
    ensures ShiftLeft(n, 8) == n * 0x100
    ensures forall k: nat :: Bit(ShiftLeft(n, 8), k) ==> 8 <= k < 10
  {
    assert Pow2(8) == 0x100 && Pow2(2) == 4;
    ShiftLeftIsMul(n, 8);
    assert n * Pow2(8) == n * 0x100;
    ModSmall(n * 0x100, U32_MOD);
    forall k: nat | k >= 10
      ensures !Bit(ShiftLeft(n, 8), k)
    {
      NoBitsAbove(n, 2, k - 8);
    }
  }

  /** For dividers that fit their fields, the register word is the sum of the
      enable bit, the source bit, `N` at bit 8 and `M` at bit 0. */
  lemma MmcClockWordFields(n: u32, mField: u32)
    requires n < 4 && mField < 16
    ensures MmcClockWord(n, mField) == 0x8100_0000 + n * 0x100 + mField
  {
    var ab := SetMask(BitMask(31), BitMask(24));
    EnableAndSourceBits();
    var c := ShiftLeft(n, 8);
    DividerNBits(n);
    forall k: nat
      ensures !(Bit(ab, k) && Bit(c, k))
    {
    }
    OrDisjoint(ab, c);
    var abc := SetMask(ab, c);
    assert abc == 0x8100_0000 + n * 0x100;
    assert Pow2(4) == 16;
    forall k: nat
      ensures !(Bit(abc, k) && Bit(mField, k))
    {
      if k >= 4 {
        NoBitsAbove(mField, 4, k);
      }
    }
    OrDisjoint(abc, mField);
  }

  /** The divider search of `configure_mmc_clock`. */
  method BestDivider(src: u64, target: u64) returns (bestN: u32, bestM: u32, bestRate: u64)
    ensures Choice(bestN, bestM, bestRate) == MmcDivider(src, target)
  {
    bestN, bestM, bestRate := 0, 0, 0;
    for n: u32 := 0 to 4
      invariant Choice(bestN, bestM, bestRate) == ScanTo(src, target, n, 1)
    {
      for m: u32 := 1 to 16
        invariant Choice(bestN, bestM, bestRate) == ScanTo(src, target, n, m)
      {
        var actual := Candidate(src, n, m);
        if actual <= target && actual > bestRate {
          bestRate := actual;
          bestN := n;
          bestM := m - 1;
        }
      }
    }
  }

  /** The module-clock register of MMC controller `idx`. */
  function MmcClkReg(idx: u32): u32
    requires idx <= 2
  {
    if idx == 0 then MMC0_CLK else if idx == 1 then MMC1_CLK else MMC2_CLK
  }

  /** `AllwinnerCcu`. */
  class AllwinnerCcu {
    var regs: RegFile
    const hoscRate: ClockRate
    const loscRate: ClockRate

    /** `new`: the 24 MHz and 32.768 kHz crystals; `regs` stands for the CCU
        registers at `base`. */
    constructor(regs: RegFile)
      ensures this.regs == regs && hoscRate == HOSC_24MHZ && loscRate == LOSC_32KHZ
    {
      this.regs := regs;
      this.hoscRate := HOSC_24MHZ;
      this.loscRate := LOSC_32KHZ;
    }

    /** `get_cpu_pll_rate`: the PLL formula applied to the PLL_CPU register,
        so at most 256 times the crystal, and exactly
        hosc * (N + 1) / ((M + 1) * (P + 1)) while `hosc * 256` fits. */
    function CpuPllRate(): (r: ClockRate)
      reads this
      ensures r == PllRate(hoscRate.hz, RegAt(regs, PLL_CPU))
      ensures r.hz <= hoscRate.hz * 256
      ensures hoscRate.hz * 256 < U64_MOD ==>
        var reg := RegAt(regs, PLL_CPU);
        r.hz == hoscRate.hz * (reg / 0x100 % 0x100 + 1) / ((reg % 2 + 1) * (reg / 0x1_0000 % 4 + 1))
    {
      var reg := RegAt(regs, PLL_CPU);
      if hoscRate.hz * 256 < U64_MOD then
        PllRateFormula(hoscRate.hz, reg);
        PllRate(hoscRate.hz, reg)
      else
        PllRate(hoscRate.hz, reg)
    }

    /** `get_periph0_pll_rate`: twice the PLL rate, in `u64`, so always
        even, and exactly twice the rate while that fits. */
    function Periph0PllRate(): (r: ClockRate)
      reads this
      ensures r.hz % 2 == 0
      ensures hoscRate.hz * 512 < U64_MOD ==> r.hz == 2 * PllRate(hoscRate.hz, RegAt(regs, PLL_PERIPH0)).hz
    {
      var base := PllRate(hoscRate.hz, RegAt(regs, PLL_PERIPH0)).hz;
      DoubleWraps(base, hoscRate.hz);
      ClockRate(base * 2 % U64_MOD)
    }

    /** `enable_bus_gate`: set `bit` (taken modulo 32) of `gateReg`. */
    method EnableBusGate(gateReg: u32, bit: u32)
      modifies this
      ensures regs == WriteBit(old(regs), gateReg, bit, true)
    {
      var val := RegAt(regs, gateReg);
      regs := regs[gateReg := SetMask(val, BitMask(bit % 32))];
    }

    /** `disable_bus_gate`: clear `bit` of `gateReg`. */
    method DisableBusGate(gateReg: u32, bit: u32)
      modifies this
      ensures regs == WriteBit(old(regs), gateReg, bit, false)
    {
      var val := RegAt(regs, gateReg);
      regs := regs[gateReg := ClearMask(val, BitMask(bit % 32))];
    }

    /** `assert_reset`: reset lines are active low, so clear the bit. */
    method AssertReset(rstReg: u32, bit: u32)
      modifies this
      ensures regs == WriteBit(old(regs), rstReg, bit, false)
    {
      var val := RegAt(regs, rstReg);
      regs := regs[rstReg := ClearMask(val, BitMask(bit % 32))];
    }

    /** `deassert_reset`: set the bit. */
    method DeassertReset(rstReg: u32, bit: u32)
      modifies this
      ensures regs == WriteBit(old(regs), rstReg, bit, true)
    {
      var val := RegAt(regs, rstReg);
      regs := regs[rstReg := SetMask(val, BitMask(bit % 32))];
    }

    /** `configure_mmc_clock`: reject an index above 2, search the dividers for
        the PERIPH0 (2x) rate and write the module-clock register. */
    method ConfigureMmcClock(mmcIdx: u32, rate: ClockRate) returns (r: DriverResult<ClockRate>)
      modifies this
      ensures mmcIdx > 2 ==> r == Err(InvalidParam) && regs == old(regs)
      ensures mmcIdx <= 2 ==>
        var c := MmcDivider(old(Periph0PllRate()).hz, rate.hz);
        r == Ok(ClockRate(c.rate)) && regs == old(regs)[MmcClkReg(mmcIdx) := MmcClockWord(c.n, c.mField)]
    {
      if mmcIdx > 2 {
        return Err(InvalidParam);
      }
      var clkReg := MmcClkReg(mmcIdx);
      var src := Periph0PllRate();
      var bestN, bestM, bestRate := BestDivider(src.hz, rate.hz);
      regs := regs[clkReg := MmcClockWord(bestN, bestM)];
      return Ok(ClockRate(bestRate));
    }

    /** `enable`: set the clock's bus gate, or `NotSupported`. */
    method Enable(clock: u32) returns (r: DriverResult<()>)
      modifies this
      ensures CcuGate(clock).None? ==> r == Err(NotSupported) && regs == old(regs)
      ensures CcuGate(clock).Some? ==>
        r == Ok(()) && regs == WriteBit(old(regs), CcuGate(clock).value.0, CcuGate(clock).value.1, true)
    {
      var gate := CcuGate(clock);
      if gate.None? {
        return Err(NotSupported);
      }
      var (gateReg, bit) := gate.value;
      EnableBusGate(gateReg, bit);
      return Ok(());
    }

    /** `disable`: clear the clock's bus gate, or `NotSupported`. */
    method Disable(clock: u32) returns (r: DriverResult<()>)
      modifies this
      ensures CcuGate(clock).None? ==> r == Err(NotSupported) && regs == old(regs)
      ensures CcuGate(clock).Some? ==>
        r == Ok(()) && regs == WriteBit(old(regs), CcuGate(clock).value.0, CcuGate(clock).value.1, false)
    {
      var gate := CcuGate(clock);
      if gate.None? {
        return Err(NotSupported);
      }
      var (gateReg, bit) := gate.value;
      DisableBusGate(gateReg, bit);
      return Ok(());
    }

    /** `is_enabled`: read the clock's bus gate; NotSupported for a clock
        without one. */
    function IsEnabled(clock: u32): (r: DriverResult<bool>)
      reads this
      ensures r.Err? <==> CcuGate(clock).None?
      ensures r.Ok? ==> r.value == Bit(RegAt(regs, CcuGate(clock).value.0), CcuGate(clock).value.1)
    {
      var g := CcuGate(clock);
      if g.Some? then
        TestBit(RegAt(regs, g.value.0), g.value.1);
        CcuGateOn(regs, clock)
      else CcuGateOn(regs, clock)
    }

    /** `get_rate`: the CPU PLL for clock 0, PERIPH0 (2x) for clock 4, a
        quarter of it for APB1 (clock 35), and the 24 MHz crystal otherwise. */
    function GetRate(clock: u32): (r: DriverResult<ClockRate>)
      reads this
      ensures r.Ok?
    {
      if clock == 0 then Ok(CpuPllRate())
      else if clock == 4 then Ok(Periph0PllRate())
      else if clock == 35 then Ok(ClockRate(Periph0PllRate().hz / 4))
      else Ok(hoscRate)
    }

    /** `set_rate`: only the MMC clocks 128-130 can be set. */
    method SetRate(clock: u32, rate: ClockRate) returns (r: DriverResult<ClockRate>)
      modifies this
      ensures !(128 <= clock <= 130) ==> r == Err(NotSupported) && regs == old(regs)
      ensures 128 <= clock <= 130 ==>
        var c := MmcDivider(old(Periph0PllRate()).hz, rate.hz);
        r == Ok(ClockRate(c.rate)) && regs == old(regs)[MmcClkReg(clock - 128) := MmcClockWord(c.n, c.mField)]
    {
      if 128 <= clock <= 130 {
        r := ConfigureMmcClock(clock - 128, rate);
      } else {
        r := Err(NotSupported);
      }
    }

    /** `get_parent`: every clock, whatever its id, reports PERIPH0
        (clock 4), and the call never fails. */
    function GetParent(clock: u32): (r: DriverResult<Option<u32>>)
      ensures r == Ok(Some(4))
    {
      Ok(Some(4))
    }

    /** `set_parent`: clock muxes are not configurable, so every request
        is refused with NotSupported. */
    function SetParent(clock: u32, parent: u32): (r: DriverResult<()>)
      ensures r == Err(NotSupported)
    {
      Err(NotSupported)
    }
  }

  /** The CCU's crystal is 24 MHz, so the PLL formula applies to every
      register value. */
  lemma CcuPllRate(reg: u32)
    ensures HOSC_24MHZ.hz == 24_000_000
    ensures PllRate(HOSC_24MHZ.hz, reg).hz ==
      24_000_000 * (reg / 0x100 % 0x100 + 1) / ((reg % 2 + 1) * (reg / 0x1_0000 % 4 + 1))
  {
    ClockRateScale(24);
    PllRateFormula(HOSC_24MHZ.hz, reg);
  }
}
