/** `fuchsia_ui_input`: keyboard, touch and mouse input for a view. The
    listener and the sources keep queues of events that a client drains;
    the keyboard listener also tracks which modifier keys are held, and the
    touch source which interactions are active. Positions and view
    transforms are `f32` in the source; they are only carried along here,
    as reals, and never computed with. */
module UiInput {
  import opened Common
  import opened Bits

  // ---------------------------------------------------------------- keys

  /** `KeyEventType`. */
  datatype KeyEventType = Pressed | Released | Cancel | Sync

  /** `Key`: a USB HID usage code. */
  type Key = u32

  const KEY_A: Key := 0x0007_0004
  const KEY_LEFT_CTRL: Key := 0x0007_00e0
  const KEY_LEFT_SHIFT: Key := 0x0007_00e1
  const KEY_LEFT_ALT: Key := 0x0007_00e2
  const KEY_LEFT_META: Key := 0x0007_00e3
  const KEY_RIGHT_CTRL: Key := 0x0007_00e4
  const KEY_RIGHT_SHIFT: Key := 0x0007_00e5
  const KEY_RIGHT_ALT: Key := 0x0007_00e6
  const KEY_RIGHT_META: Key := 0x0007_00e7

  /** `NonPrintableKey`, the variants a key meaning can name. */
  datatype NonPrintableKey =
    | Unidentified | Alt | AltGraph | CapsLock | Control | Enter | Fn | FnLock | Meta | NumLock
    | ScrollLock | Shift | Symbol | SymbolLock | Hyper | Super | ArrowDown | ArrowLeft | ArrowRight
    | ArrowUp | End | Home | PageDown | PageUp | Backspace | Delete | Insert | KeyCancel | Escape
    | Execute | F1 | F2 | F3 | F4 | F5 | F6 | F7 | F8 | F9 | F10 | F11 | F12 | PrintScreen | Tab
    | ContextMenu

  /** `KeyMeaning`. */
  datatype KeyMeaning = NonPrintable(key: NonPrintableKey) | Codepoint(codepoint: u32)

  /** `Modifiers`. */
  datatype Modifiers = Modifiers(capsLock: bool, numLock: bool, scrollLock: bool, fnKey: bool,
                                 symbol: bool, shift: bool, alt: bool, altGraph: bool, meta: bool,
                                 ctrl: bool)

  /** `Modifiers::default()`: nothing held. */
  const NO_MODIFIERS := Modifiers(false, false, false, false, false, false, false, false, false, false)

  /** `Modifiers::is_none`: none of shift, alt, meta and ctrl is held; the
      lock keys, function, symbol and alt-graph do not count. */
  predicate IsNone(m: Modifiers)
    ensures m == NO_MODIFIERS ==> IsNone(m)
  {
    !m.shift && !m.alt && !m.meta && !m.ctrl
  }

  /** The bit `to_bits` gives each modifier: caps lock 0, num lock 1, scroll
      lock 2, shift 5, alt 6, meta 7, ctrl 8. Function, symbol and
      alt-graph have none. */
  predicate ModifierBit(m: Modifiers, k: nat)
  {
    || (k == 0 && m.capsLock) || (k == 1 && m.numLock) || (k == 2 && m.scrollLock)
    || (k == 5 && m.shift) || (k == 6 && m.alt) || (k == 7 && m.meta) || (k == 8 && m.ctrl)
  }

  /** `bits |= 1 << k`. */
  method SetBit(bits: u32, k: nat) returns (r: u32)
    requires k < 32
    ensures forall j: nat :: Bit(r, j) == (Bit(bits, j) || j == k)
  {
    r := SetMask(bits, BitMask(k));
  }

  /** `Modifiers::to_bits`: starting from 0, each held modifier ORs in its
      bit. */
  method ModifierBits(m: Modifiers) returns (bits: u32)
    ensures forall k: nat :: Bit(bits, k) == ModifierBit(m, k)
    ensures ModifiersOfBits(bits) == m.(fnKey := false, symbol := false, altGraph := false)
  {
    NoBitsOfZero();
    bits := 0;
    if m.capsLock { bits := SetBit(bits, 0); }
    if m.numLock { bits := SetBit(bits, 1); }
    if m.scrollLock { bits := SetBit(bits, 2); }
    if m.shift { bits := SetBit(bits, 5); }
    if m.alt { bits := SetBit(bits, 6); }
    if m.meta { bits := SetBit(bits, 7); }
    if m.ctrl { bits := SetBit(bits, 8); }
    ModifiersOfBitsKeeps(m, bits);
  }

  /** The modifiers a word of `to_bits` encodes. */
  function ModifiersOfBits(bits: u32): (m: Modifiers)
    ensures !m.fnKey && !m.symbol && !m.altGraph
  {
    Modifiers(Bit(bits, 0), Bit(bits, 1), Bit(bits, 2), false, false, Bit(bits, 5), Bit(bits, 6),
              false, Bit(bits, 7), Bit(bits, 8))
  }

  /** `to_bits` loses only function, symbol and alt-graph: decoding it gives
      back every other flag. */
  lemma ModifiersOfBitsKeeps(m: Modifiers, bits: u32)
    requires forall k: nat :: Bit(bits, k) == ModifierBit(m, k)
    ensures ModifiersOfBits(bits) == m.(fnKey := false, symbol := false, altGraph := false)
  {
    assert Bit(bits, 0) == m.capsLock && Bit(bits, 1) == m.numLock && Bit(bits, 2) == m.scrollLock;
    assert Bit(bits, 5) == m.shift && Bit(bits, 6) == m.alt;
    assert Bit(bits, 7) == m.meta && Bit(bits, 8) == m.ctrl;
  }

  /** `0x1E0`, bits 5 to 8: the ones `is_none` is about. */
  const HELD_MASK: u32 := 0x1E0

  lemma HeldMaskBits()
    ensures forall k: nat :: Bit(HELD_MASK, k) == (5 <= k <= 8)
  {
    forall k: nat
      ensures Bit(HELD_MASK, k) == (5 <= k <= 8)
    {
      if k >= 5 {
        assert Bit(HELD_MASK, k) == Bit(15, k - 5) by {
          assert Bit(0x1E0, k) == Bit(0xF0, k - 1) == Bit(0x78, k - 2) == Bit(0x3C, k - 3) == Bit(0x1E, k - 4) == Bit(0xF, k - 5);
        }
        SmallMasks();
      } else {
        assert !Bit(0x1E0, 0) && !Bit(0x1E0, 1) && !Bit(0x1E0, 2) && !Bit(0x1E0, 3) && !Bit(0x1E0, 4);
      }
    }
  }

  /** `is_none` holds exactly when `to_bits` has none of bits 5 to 8. */
  lemma IsNoneIffNoHeldBits(m: Modifiers, bits: u32)
    requires forall k: nat :: Bit(bits, k) == ModifierBit(m, k)
    ensures IsNone(m) <==> Mask(bits, HELD_MASK) == 0
  {
    HeldMaskBits();
    var masked := Mask(bits, HELD_MASK);
    if IsNone(m) {
      NoBitsOfZero();
      forall k: nat
        ensures Bit(masked, k) == Bit(0, k)
      {
      }
      BitsDetermine(masked, 0);
    } else {
      assert Bit(masked, 5) || Bit(masked, 6) || Bit(masked, 7) || Bit(masked, 8);
      ZeroHasNoBits(5);
      ZeroHasNoBits(6);
      ZeroHasNoBits(7);
      ZeroHasNoBits(8);
    }
  }

  /** The modifiers' own test: with ctrl and shift held, `is_none` is false
      and `to_bits` has bits 5 and 8 set. */
  method CtrlShiftScenario() returns (none: bool, bits: u32)
    ensures !none && Mask(bits, BitMask(5)) != 0 && Mask(bits, BitMask(8)) != 0
  {
    var mods := NO_MODIFIERS.(ctrl := true, shift := true);
    none := IsNone(mods);
    bits := ModifierBits(mods);
    TestBit(bits, 5);
    TestBit(bits, 8);
  }

  /** `KeyEvent`. */
  datatype KeyEvent = KeyEvent(timestamp: int, eventType: KeyEventType, key: Option<Key>,
                               keyMeaning: Option<KeyMeaning>, modifiers: Modifiers,
                               repeatSequence: u32, lockState: Modifiers)

  /** `KeyEvent::new`: timestamp 0, no meaning, no modifiers. */
  function NewKeyEvent(eventType: KeyEventType, key: Key): (e: KeyEvent)
    ensures e.eventType == eventType && e.key == Some(key) && e.keyMeaning == None
    ensures e.modifiers == NO_MODIFIERS && e.lockState == NO_MODIFIERS && e.repeatSequence == 0
  {
    KeyEvent(0, eventType, Some(key), None, NO_MODIFIERS, 0, NO_MODIFIERS)
  }

  /** `KeyEvent::is_pressed`: a pressed event is not a release, a cancel
      or a sync. */
  predicate IsPressed(e: KeyEvent)
    ensures IsPressed(e) ==> e.eventType != Released && e.eventType != Cancel && e.eventType != Sync
  {
    e.eventType == Pressed
  }

  predicate IsCtrl(k: Key) { k == KEY_LEFT_CTRL || k == KEY_RIGHT_CTRL }
  predicate IsShift(k: Key) { k == KEY_LEFT_SHIFT || k == KEY_RIGHT_SHIFT }
  predicate IsAlt(k: Key) { k == KEY_LEFT_ALT || k == KEY_RIGHT_ALT }
  predicate IsMeta(k: Key) { k == KEY_LEFT_META || k == KEY_RIGHT_META }

  /** `KeyEvent::is_modifier_key`: one of the eight left/right ctrl, shift,
      alt and meta keys. */
  function IsModifierKey(e: KeyEvent): (b: bool)
    ensures b <==> e.key.Some? && KEY_LEFT_CTRL <= e.key.value <= KEY_RIGHT_META
  {
    match e.key
    case None => false
    case Some(k) => IsCtrl(k) || IsShift(k) || IsAlt(k) || IsMeta(k)
  }

  /** `update_modifiers`: a ctrl, shift, alt or meta key sets its flag to
      whether the event is a press; any other event leaves the flags. */
  function UpdateModifiers(m: Modifiers, e: KeyEvent): (r: Modifiers)
    ensures !IsModifierKey(e) ==> r == m
    ensures IsModifierKey(e) ==>
      var k, p := e.key.value, IsPressed(e);
      r == m.(ctrl := if IsCtrl(k) then p else m.ctrl, shift := if IsShift(k) then p else m.shift,
              alt := if IsAlt(k) then p else m.alt, meta := if IsMeta(k) then p else m.meta)
  {
    if e.key.None? then m
    else
      var k, p := e.key.value, IsPressed(e);
      if IsCtrl(k) then m.(ctrl := p)
      else if IsShift(k) then m.(shift := p)
      else if IsAlt(k) then m.(alt := p)
      else if IsMeta(k) then m.(meta := p)
      else m
  }

  /** A key's modifier flag follows the last event of that key: a press
      then a release of either shift key leaves shift released, whatever
      the other flags are. */
  lemma PressThenRelease(m: Modifiers, down: Key, up: Key)
    requires IsShift(down) && IsShift(up)
    ensures UpdateModifiers(UpdateModifiers(m, NewKeyEvent(Pressed, down)), NewKeyEvent(Released, up)).shift == false
    ensures UpdateModifiers(m, NewKeyEvent(Pressed, down)).shift
    ensures UpdateModifiers(UpdateModifiers(m, NewKeyEvent(Pressed, down)), NewKeyEvent(Released, up)) == m.(shift := false)
  {
  }

  /** `KeyboardListener::new`'s `max_queue_size`. */
  const MAX_KEY_QUEUE: nat := 256

  /** `KeyboardListener`. */
  class KeyboardListener {
    var events: seq<KeyEvent>
    var modifiers: Modifiers
    const maxQueueSize: nat

    /** The queue never holds more than `max_queue_size` events. */
    ghost predicate Valid()
      reads this
    {
      maxQueueSize > 0 && |events| <= maxQueueSize
    }

    /** `KeyboardListener::new`: no events, no modifiers, room for 256. */
    constructor ()
      ensures Valid() && events == [] && modifiers == NO_MODIFIERS && maxQueueSize == MAX_KEY_QUEUE
    {
      events := [];
      modifiers := NO_MODIFIERS;
      maxQueueSize := MAX_KEY_QUEUE;
    }

    /** `push_event`: the modifiers are updated from the event, and the
        event is queued at the back, the oldest one dropped first when the
        queue is full. */
    method PushEvent(event: KeyEvent)
      requires Valid()
      modifies this
      ensures Valid() && modifiers == UpdateModifiers(old(modifiers), event)
      ensures old(|events|) >= maxQueueSize ==> events == old(events[1..]) + [event]
      ensures old(|events|) < maxQueueSize ==> events == old(events) + [event]
    {
      modifiers := UpdateModifiers(modifiers, event);
      if |events| >= maxQueueSize {
        events := events[1..];
      }
      events := events + [event];
    }

    /** `pop_event`: the oldest event, if any. */
    method PopEvent() returns (event: Option<KeyEvent>)
      requires Valid()
      modifies this
      ensures Valid() && modifiers == old(modifiers)
      ensures old(events) == [] ==> event == None && events == []
      ensures old(events) != [] ==> event == Some(old(events[0])) && events == old(events[1..])
    {
      if events == [] {
        return None;
      }
      event := Some(events[0]);
      events := events[1..];
    }

    /** `pending_count`. */
    function PendingCount(): (n: nat)
      requires Valid()
      reads this
      ensures n == |events| <= maxQueueSize
    {
      |events|
    }
  }

  /** The last `n` elements of `s`, or all of them. */
  function Newest<T>(s: seq<T>, n: nat): (r: seq<T>)
    ensures |r| <= n && |r| <= |s|
  {
    if |s| <= n then s else s[|s| - n..]
  }

  /** The listener keeps the newest events: pushing `es` into an empty
      listener leaves the last `max_queue_size` of them, in order. */
  method PushAll(listener: KeyboardListener, es: seq<KeyEvent>)
    requires listener.Valid() && listener.events == []
    modifies listener
    ensures listener.Valid() && listener.events == Newest(es, listener.maxQueueSize)
  {
    for i := 0 to |es|
      invariant listener.Valid()
      invariant listener.events == Newest(es[..i], listener.maxQueueSize)
    {
      listener.PushEvent(es[i]);
      assert es[..i + 1] == es[..i] + [es[i]];
    }
    assert es[..|es|] == es;
  }

  // --------------------------------------------------------------- touch

  /** `TouchPhase`. */
  datatype TouchPhase = Add | Change | Remove | TouchCancel

  /** `InteractionId`. */
  type InteractionId = u64

  /** `TouchInteractionStatus` and `TouchInteractionResult`. */
  datatype TouchInteractionStatus = Denied | Granted
  datatype TouchInteractionResult = TouchInteractionResult(interactionId: InteractionId, status: TouchInteractionStatus)

  /** `ViewParameters`: the view size and the row-major 3x3 transform. */
  datatype ViewParameters = ViewParameters(viewSize: (real, real), transform: seq<real>)

  /** `TouchPointerSample`. */
  datatype TouchPointerSample = TouchPointerSample(interactionId: InteractionId, phase: TouchPhase,
                                                   position: (real, real))

  /** `TouchEvent`. */
  datatype TouchEvent = TouchEvent(timestamp: int, traceFlowId: u64, pointerSample: Option<TouchPointerSample>,
                                   interactionResult: Option<TouchInteractionResult>,
                                   viewParameters: Option<ViewParameters>)

  /** The phase of the last of `samples` for interaction `id`. */
  function LastPhase(samples: seq<TouchPointerSample>, id: InteractionId): Option<TouchPhase>
  {
    if samples == [] then None
    else if samples[|samples| - 1].interactionId == id then Some(samples[|samples| - 1].phase)
    else LastPhase(samples[..|samples| - 1], id)
  }

  /** An interaction whose last sample is Add or Change is under way. */
  predicate Ongoing(phase: Option<TouchPhase>)
  {
    phase == Some(Add) || phase == Some(Change)
  }

  /** A map has no entries exactly when it has no keys. */
  lemma EmptyMap<K, V>(m: map<K, V>)
    ensures |m| == 0 <==> forall k :: k !in m
  {
    if |m| != 0 {
      var k :| k in m.Keys;
    } else {
      assert m.Keys == {};
    }
  }

  /** `TouchSource`. */
  class TouchSource {
    const viewRefKoid: u64
    var events: seq<TouchEvent>
    var activeInteractions: map<InteractionId, TouchPhase>
    var viewParameters: Option<ViewParameters>
    /** Every sample injected so far. */
    ghost var injected: seq<TouchPointerSample>

    /** The active interactions are exactly those whose last injected
        sample was Add or Change, mapped to that phase. */
    ghost predicate Valid()
      reads this
    {
      forall id: InteractionId ::
        (id in activeInteractions <==> Ongoing(LastPhase(injected, id)))
        && (id in activeInteractions ==> Some(activeInteractions[id]) == LastPhase(injected, id))
    }

    /** `TouchSource::new`. */
    constructor (viewRefKoid: u64)
      ensures Valid() && this.viewRefKoid == viewRefKoid && events == [] && activeInteractions == map[]
      ensures viewParameters == None && injected == []
    {
      this.viewRefKoid := viewRefKoid;
      events := [];
      activeInteractions := map[];
      viewParameters := None;
      injected := [];
    }

    /** `set_view_parameters`: later events carry these parameters. */
    method SetViewParameters(params: ViewParameters)
      modifies this
      ensures viewParameters == Some(params) && events == old(events)
      ensures activeInteractions == old(activeInteractions) && injected == old(injected)
    {
      viewParameters := Some(params);
    }

    /** `inject_event`: Add and Change record the interaction with its
        phase, Remove and Cancel forget it; an event with the sample and
        the current view parameters is queued. */
    method InjectEvent(sample: TouchPointerSample)
      requires Valid()
      modifies this
      ensures Valid() && injected == old(injected) + [sample] && viewParameters == old(viewParameters)
      ensures activeInteractions ==
        if sample.phase == Add || sample.phase == Change then old(activeInteractions)[sample.interactionId := sample.phase]
        else old(activeInteractions) - {sample.interactionId}
      ensures events == old(events) + [TouchEvent(0, 0, Some(sample), None, viewParameters)]
    {
      match sample.phase {
        case Add =>
          activeInteractions := activeInteractions[sample.interactionId := sample.phase];
        case Remove =>
          activeInteractions := activeInteractions - {sample.interactionId};
        case TouchCancel =>
          activeInteractions := activeInteractions - {sample.interactionId};
        case Change =>
          activeInteractions := activeInteractions[sample.interactionId := sample.phase];
      }
      injected := injected + [sample];
      events := events + [TouchEvent(0, 0, Some(sample), None, viewParameters)];
    }

    /** `watch`: every queued event, oldest first; the queue is left empty. */
    method Watch() returns (batch: seq<TouchEvent>)
      modifies this
      ensures batch == old(events) && events == []
      ensures activeInteractions == old(activeInteractions) && injected == old(injected)
      ensures viewParameters == old(viewParameters)
    {
      batch := events;
      events := [];
    }

    /** `active_touches`: the number of interactions under way. */
    function ActiveTouches(): (n: nat)
      requires Valid()
      reads this
      ensures n == |activeInteractions.Keys|
      ensures n == 0 ==> forall id: InteractionId :: !Ongoing(LastPhase(injected, id))
      ensures (forall id: InteractionId :: !Ongoing(LastPhase(injected, id))) ==> n == 0
    {
      NoneActive();
      |activeInteractions|
    }

    lemma NoneActive()
      requires Valid()
      ensures |activeInteractions| == 0 ==> forall id: InteractionId :: !Ongoing(LastPhase(injected, id))
      ensures (forall id: InteractionId :: !Ongoing(LastPhase(injected, id))) ==> |activeInteractions| == 0
    {
      EmptyMap(activeInteractions);
      if |activeInteractions| == 0 {
        forall id: InteractionId
          ensures !Ongoing(LastPhase(injected, id))
        {
          assert id !in activeInteractions;
        }
      }
      if forall id: InteractionId :: !Ongoing(LastPhase(injected, id)) {
        forall id: InteractionId
          ensures id !in activeInteractions
        {
          assert !Ongoing(LastPhase(injected, id));
        }
      }
    }
  }

  /** The touch source's own test: an Add makes one active touch and one
      queued event; after the watch, a Remove of the same interaction
      leaves none. */
  method TouchSourceScenario(id: InteractionId) returns (afterAdd: nat, watched: nat, afterRemove: nat)
    ensures afterAdd == 1 && watched == 1 && afterRemove == 0
  {
    var source := new TouchSource(100);
    source.InjectEvent(TouchPointerSample(id, Add, (100.0, 200.0)));
    afterAdd := source.ActiveTouches();
    assert source.activeInteractions.Keys == {id};
    var batch := source.Watch();
    watched := |batch|;
    source.InjectEvent(TouchPointerSample(id, Remove, (100.0, 200.0)));
    afterRemove := source.ActiveTouches();
    assert source.activeInteractions.Keys == {};
  }

  // --------------------------------------------------------------- mouse

  /** `MouseButtons`. */
  datatype MouseButtons = MouseButtons(primary: bool, secondary: bool, tertiary: bool)

  const NO_BUTTONS := MouseButtons(false, false, false)

  /** `MouseButtons::any_pressed`: false exactly for the empty set. */
  predicate AnyPressed(b: MouseButtons)
    ensures !AnyPressed(b) <==> b == NO_BUTTONS
  {
    b.primary || b.secondary || b.tertiary
  }

  /** `MouseButtons::to_bits`: primary ORs in 1, secondary 2, tertiary 4. */
  method ButtonBits(b: MouseButtons) returns (bits: u32)
    ensures forall k: nat :: Bit(bits, k) == ((k == 0 && b.primary) || (k == 1 && b.secondary) || (k == 2 && b.tertiary))
    ensures bits == (if b.primary then 1 else 0) + (if b.secondary then 2 else 0) + (if b.tertiary then 4 else 0)
    ensures AnyPressed(b) <==> bits != 0
  {
    NoBitsOfZero();
    bits := 0;
    if b.primary { bits := SetBit(bits, 0); }
    if b.secondary { bits := SetBit(bits, 1); }
    if b.tertiary { bits := SetBit(bits, 2); }
    ButtonValue(b, bits);
  }

  /** A word with the bits of the pressed buttons is their 1, 2 and 4
      added up. */
  lemma ButtonValue(b: MouseButtons, bits: u32)
    requires forall k: nat :: Bit(bits, k) == ((k == 0 && b.primary) || (k == 1 && b.secondary) || (k == 2 && b.tertiary))
    ensures bits == (if b.primary then 1 else 0) + (if b.secondary then 2 else 0) + (if b.tertiary then 4 else 0)
  {
    var v := (if b.primary then 1 else 0) + (if b.secondary then 2 else 0) + (if b.tertiary then 4 else 0);
    assert v < 8;
    forall k: nat
      ensures Bit(v, k) == Bit(bits, k)
    {
      if k >= 3 {
        NoBitsAbove(v, 3, k);
        assert Pow2(3) == 8;
      } else {
        assert Bit(v, 0) == b.primary;
        assert Bit(v, 1) == Bit(v / 2, 0) && v / 2 == (if b.secondary then 1 else 0) + (if b.tertiary then 2 else 0);
        assert Bit(v, 2) == Bit(v / 4, 0) by {
          assert Bit(v, 2) == Bit(v / 2, 1) == Bit(v / 2 / 2, 0);
        }
      }
    }
    BitsDetermine(v, bits);
  }

  /** `MousePointerSample`. */
  datatype MousePointerSample = MousePointerSample(
    deviceId: u32, position: (real, real), scrollV: int, scrollH: int,
    scrollVPhysicalPixel: Option<real>, scrollHPhysicalPixel: Option<real>,
    isPrecisionScroll: Option<bool>, pressedButtons: MouseButtons, relativeMotion: Option<(real, real)>)

  /** `MousePointerSample::new`: device 0, no scrolling, no buttons. */
  function NewMouseSample(x: real, y: real): (s: MousePointerSample)
    ensures s.position == (x, y) && s.pressedButtons == NO_BUTTONS && !AnyPressed(s.pressedButtons)
    ensures s.deviceId == 0 && s.scrollV == 0 && s.scrollH == 0 && s.relativeMotion == None
  {
    MousePointerSample(0, (x, y), 0, 0, None, None, None, NO_BUTTONS, None)
  }

  /** `MouseViewStatus`, `MouseDeviceInfo`, `MouseEventStreamInfo`. */
  datatype MouseViewStatus = Entered | Exited
  datatype MouseDeviceInfo = MouseDeviceInfo(id: u32, buttons: u32, hasScrollV: bool, hasScrollH: bool)
  datatype MouseEventStreamInfo = MouseEventStreamInfo(deviceId: u32, status: MouseViewStatus)

  /** `MouseEvent`. */
  datatype MouseEvent = MouseEvent(timestamp: int, traceFlowId: u64, pointerSample: Option<MousePointerSample>,
                                   viewParameters: Option<ViewParameters>, deviceInfo: Option<MouseDeviceInfo>,
                                   streamInfo: Option<MouseEventStreamInfo>)

  /** `MouseSource`. */
  class MouseSource {
    const viewRefKoid: u64
    var events: seq<MouseEvent>
    var viewParameters: Option<ViewParameters>
    var lastPosition: Option<(real, real)>
    var buttons: MouseButtons

    /** `MouseSource::new`. */
    constructor (viewRefKoid: u64)
      ensures this.viewRefKoid == viewRefKoid && events == [] && viewParameters == None
      ensures lastPosition == None && buttons == NO_BUTTONS
    {
      this.viewRefKoid := viewRefKoid;
      events := [];
      viewParameters := None;
      lastPosition := None;
      buttons := NO_BUTTONS;
    }

    /** `set_view_parameters`. */
    method SetViewParameters(params: ViewParameters)
      modifies this
      ensures viewParameters == Some(params) && events == old(events)
      ensures lastPosition == old(lastPosition) && buttons == old(buttons)
    {
      viewParameters := Some(params);
    }

    /** `inject_event`: the buttons and the position become the sample's,
        and an event with the sample and the view parameters is queued. */
    method InjectEvent(sample: MousePointerSample)
      modifies this
      ensures buttons == sample.pressedButtons && lastPosition == Some(sample.position)
      ensures viewParameters == old(viewParameters)
      ensures events == old(events) + [MouseEvent(0, 0, Some(sample), viewParameters, None, None)]
    {
      buttons := sample.pressedButtons;
      lastPosition := Some(sample.position);
      events := events + [MouseEvent(0, 0, Some(sample), viewParameters, None, None)];
    }

    /** `watch`: every queued event, oldest first; the queue is left empty. */
    method Watch() returns (batch: seq<MouseEvent>)
      modifies this
      ensures batch == old(events) && events == []
      ensures viewParameters == old(viewParameters) && lastPosition == old(lastPosition) && buttons == old(buttons)
    {
      batch := events;
      events := [];
    }
  }

  /** The mouse source reports the last sample's position and buttons, and
      a watch returns the samples in the order they were injected. */
  method MouseSourceScenario(s1: MousePointerSample, s2: MousePointerSample)
    returns (position: Option<(real, real)>, buttons: MouseButtons, batch: seq<MouseEvent>)
    ensures position == Some(s2.position) && buttons == s2.pressedButtons
    ensures |batch| == 2 && batch[0].pointerSample == Some(s1) && batch[1].pointerSample == Some(s2)
  {
    var source := new MouseSource(100);
    source.InjectEvent(s1);
    source.InjectEvent(s2);
    position, buttons := source.lastPosition, source.buttons;
    batch := source.Watch();
  }

  /** The keyboard listener's own test: shift is held after a press of
      left shift and released after its release. */
  method ShiftScenario() returns (afterPress: bool, afterRelease: bool)
    ensures afterPress && !afterRelease
  {
    var listener := new KeyboardListener();
    listener.PushEvent(NewKeyEvent(Pressed, KEY_LEFT_SHIFT));
    afterPress := listener.modifiers.shift;
    listener.PushEvent(NewKeyEvent(Released, KEY_LEFT_SHIFT));
    afterRelease := listener.modifiers.shift;
  }
}
