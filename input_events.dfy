/**
 * Encoding of DOM input events into the Open3D "MouseEvent" records that the client
 * forwards over its data channel: the modifier bitmask, the button name table, the
 * move/drag distinction and the normalised wheel step.
 */
module InputEvents {
  import opened Wrappers

  /** Which modifier keys `getModifierState` reports as held. */
  datatype ModifierState = ModifierState(shift: bool, control: bool, alt: bool, meta: bool)

  // The modifier bits of the Open3D mask.
  const ModNone: bv4 := 0
  const ModShift: bv4 := 1 << 0
  const ModCtrl: bv4 := 1 << 1
  const ModAlt: bv4 := 1 << 2
  const ModMeta: bv4 := 1 << 3

  /** The modifier mask: Shift, Control, Alt and Meta ORed in as bits 0 to 3. */
  function Modifiers(m: ModifierState): (mask: int)
    ensures 0 <= mask < 16
  {
    var mod0 := ModNone;
    var mod1 := if m.shift then mod0 | ModShift else mod0;
    var mod2 := if m.control then mod1 | ModCtrl else mod1;
    var mod3 := if m.alt then mod2 | ModAlt else mod2;
    var mod4 := if m.meta then mod3 | ModMeta else mod3;
    mod4 as int
  }

  /** Bit `k` of a mask. */
  predicate Bit(mask: int, k: nat)
    requires k < 4
  {
    (mask / [1, 2, 4, 8][k]) % 2 == 1
  }

  /** The `k`-th modifier in the order Shift, Control, Alt, Meta. */
  predicate HeldAt(m: ModifierState, k: nat)
    requires k < 4
  {
    [m.shift, m.control, m.alt, m.meta][k]
  }

  /** Reads a mask back as the modifier state it encodes. */
  function Held(mask: int): ModifierState {
    ModifierState(Bit(mask, 0), Bit(mask, 1), Bit(mask, 2), Bit(mask, 3))
  }

  /** Bit k of the mask is set exactly when the k-th modifier is held. */
  lemma ModifiersBits(m: ModifierState, k: nat)
    requires k < 4
    ensures Bit(Modifiers(m), k) <==> HeldAt(m, k)
  {
    ModifiersDecode(m);
  }

  /** Decoding the mask gives back the modifier state. */
  lemma ModifiersDecode(m: ModifierState)
    ensures Held(Modifiers(m)) == m
  {
    var s, c, a, t := m.shift, m.control, m.alt, m.meta;
    assert Modifiers(m) == (if s then 1 else 0) + (if c then 2 else 0) + (if a then 4 else 0) + (if t then 8 else 0) by {
      ModifiersSum(m);
    }
  }

  /** Every mask in 0..15 is the encoding of exactly one modifier state. */
  lemma ModifiersOnto(mask: int)
    requires 0 <= mask < 16
    ensures Modifiers(Held(mask)) == mask
  {
    var m := Held(mask);
    ModifiersSum(m);
  }

  /** The OR of distinct single bits is their sum. */
  lemma ModifiersSum(m: ModifierState)
    ensures Modifiers(m) ==
      (if m.shift then 1 else 0) + (if m.control then 2 else 0) + (if m.alt then 4 else 0) + (if m.meta then 8 else 0)
  {
  }

  /** Names of the mouse buttons 0, 1 and 2 in the Open3D record. */
  const MouseButtons: seq<string> := ["LEFT", "MIDDLE", "RIGHT"]

  /**
   * `o3dmouseButtons[event.button]`: a name for buttons 0 to 2; an index outside the
   * table, or an event without a `button` property, gives `undefined`, which the JSON
   * text then omits.
   */
  function ButtonLabel(button: Option<int>): (name: Option<string>)
    ensures name.Some? <==> button.Some? && 0 <= button.value < 3
    ensures button == Some(0) ==> name == Some("LEFT")
    ensures button == Some(1) ==> name == Some("MIDDLE")
    ensures button == Some(2) ==> name == Some("RIGHT")
  {
    if button.Some? && 0 <= button.value < |MouseButtons| then Some(MouseButtons[button.value]) else None
  }

  /** The sign of a real number. */
  function Sign(x: real): real {
    if x > 0.0 then 1.0 else if x < 0.0 then -1.0 else 0.0
  }

  function Abs(x: real): real {
    if x < 0.0 then -x else x
  }

  /** One wheel delta with its sign flipped and its magnitude set to 1 (0 stays 0). */
  function WheelStep(delta: real): (step: real)
    ensures step == -Sign(delta)
    ensures step in {-1.0, 0.0, 1.0}
  {
    if delta == 0.0 then delta
    else
      assert Abs(delta) * Sign(delta) == delta;
      (-delta / Abs(delta)) * 1.0
  }

  /**
   * The trackpad guess: with a non-zero `wheelDeltaY`, whether it is -3 times `deltaY`;
   * without one, whether the delta mode is pixels (0).
   */
  predicate IsTrackpad(deltaY: real, deltaMode: int, wheelDeltaY: Option<int>) {
    if wheelDeltaY.Some? && wheelDeltaY.value != 0 then wheelDeltaY.value as real == -3.0 * deltaY
    else deltaMode == 0
  }

  /** The `type` field of a record. */
  datatype EventType = ButtonDown | ButtonUp | Move | Drag | Wheel

  /** The event-specific part of a record: `button`, `move` or `wheel`. */
  datatype Detail =
    | ButtonDetail(button: Option<string>, count: int)
    | MoveDetail(buttons: int)
    | WheelDetail(dx: real, dy: real, isTrackpad: int)

  /** The JSON object a listener hands to `sendJsonData`. */
  datatype MouseEventRecord = MouseEventRecord(
    windowUid: string, className: string, eventType: EventType,
    x: int, y: int, modifiers: int, detail: Detail)

  /** A mouse event: offset within the element, `button`, `buttons` bitmask and modifiers. */
  datatype MouseInput = MouseInput(offsetX: int, offsetY: int, button: int, buttons: int, keys: ModifierState)

  /** The first of `targetTouches`, its page position already made relative to the element and rounded. */
  datatype TouchPoint = TouchPoint(x: int, y: int)

  /** A wheel event: offset, deltas, delta mode, the non-standard `wheelDeltaY` if any, and modifiers. */
  datatype WheelInput = WheelInput(offsetX: int, offsetY: int, deltaX: real, deltaY: real,
                                   deltaMode: int, wheelDeltaY: Option<int>, keys: ModifierState)

  /** The DOM events the client listens to on the video element. */
  datatype InputEvent =
    | MouseDown(mouse: MouseInput)
    | MouseUp(mouse: MouseInput)
    | MouseLeave(mouse: MouseInput)
    | MouseMove(mouse: MouseInput)
    | TouchStart(touch: Option<TouchPoint>)
    | TouchEnd(touch: Option<TouchPoint>)
    | TouchMove(touch: Option<TouchPoint>)
    | WheelTurn(wheel: WheelInput)
  {
    predicate IsMouse() { MouseDown? || MouseUp? || MouseLeave? || MouseMove? }
    predicate IsTouch() { TouchStart? || TouchEnd? || TouchMove? }
    /** The listener throws: a touch event whose target has no touch left to read. */
    predicate Throws() { IsTouch() && touch.None? }
  }

  /** A button record from a mouse event; `count` is always 1. */
  function ButtonRecord(windowUid: string, t: EventType, m: MouseInput): MouseEventRecord {
    MouseEventRecord(windowUid, "MouseEvent", t, m.offsetX, m.offsetY, Modifiers(m.keys),
                     ButtonDetail(ButtonLabel(Some(m.button)), 1))
  }

  /**
   * A button record from a touch event: modifiers 0, and the `button` lookup sees the
   * touch event's missing `button` property.
   */
  function TouchButtonRecord(windowUid: string, t: EventType, p: TouchPoint): MouseEventRecord {
    MouseEventRecord(windowUid, "MouseEvent", t, p.x, p.y, 0, ButtonDetail(ButtonLabel(None), 1))
  }

  /**
   * The record the listener for `ev` builds, or None when the listener throws before
   * building one.
   */
  function Encode(windowUid: string, ev: InputEvent): Option<MouseEventRecord>
  {
    match ev
    case MouseDown(m) => Some(ButtonRecord(windowUid, ButtonDown, m))
    case TouchStart(t) => if t.None? then None else Some(TouchButtonRecord(windowUid, ButtonDown, t.value))
    case MouseUp(m) => Some(ButtonRecord(windowUid, ButtonUp, m))
    case TouchEnd(t) => if t.None? then None else Some(TouchButtonRecord(windowUid, ButtonUp, t.value))
    case MouseMove(m) =>
      Some(MouseEventRecord(windowUid, "MouseEvent", if m.buttons == 0 then Move else Drag,
                            m.offsetX, m.offsetY, Modifiers(m.keys), MoveDetail(m.buttons)))
    case TouchMove(t) =>
      if t.None? then None
      else Some(MouseEventRecord(windowUid, "MouseEvent", Drag, t.value.x, t.value.y, 0, MoveDetail(1)))
    case MouseLeave(m) => Some(ButtonRecord(windowUid, ButtonUp, m))
    case WheelTurn(w) =>
      Some(MouseEventRecord(windowUid, "MouseEvent", Wheel, w.offsetX, w.offsetY, Modifiers(w.keys),
                            WheelDetail(WheelStep(w.deltaX), WheelStep(w.deltaY),
                                        if IsTrackpad(w.deltaY, w.deltaMode, w.wheelDeltaY) then 1 else 0)))
  }

  /**
   * The fixed fields: a record is built unless the listener throws, it names the window
   * and the class, and its modifier mask is in range, reads back as the keys held for a
   * mouse or wheel event, and is 0 for a touch event.
   */
  lemma EncodeFields(windowUid: string, ev: InputEvent)
    ensures Encode(windowUid, ev).None? <==> ev.Throws()
    ensures var r := Encode(windowUid, ev);
      r.Some? ==>
        && r.value.windowUid == windowUid && r.value.className == "MouseEvent"
        && 0 <= r.value.modifiers < 16
        && (ev.IsMouse() ==> Held(r.value.modifiers) == ev.mouse.keys)
        && (ev.WheelTurn? ==> Held(r.value.modifiers) == ev.wheel.keys)
        && (ev.IsTouch() ==> r.value.modifiers == 0)
        && (ev.IsMouse() ==> r.value.x == ev.mouse.offsetX && r.value.y == ev.mouse.offsetY)
        && (ev.WheelTurn? ==> r.value.x == ev.wheel.offsetX && r.value.y == ev.wheel.offsetY)
        && (ev.IsTouch() && ev.touch.Some? ==> r.value.x == ev.touch.value.x && r.value.y == ev.touch.value.y)
  {
    if ev.IsMouse() {
      ModifiersDecode(ev.mouse.keys);
    } else if ev.WheelTurn? {
      ModifiersDecode(ev.wheel.keys);
    }
  }

  /**
   * The event type: MOVE exactly for a mouse move with no button down, DRAG for a mouse
   * move with buttons down and for every touch move, BUTTON_DOWN for mouse down and touch
   * start, BUTTON_UP for mouse up, mouse leave and touch end, WHEEL for the wheel.
   */
  lemma EncodeType(windowUid: string, ev: InputEvent)
    ensures var r := Encode(windowUid, ev);
      r.Some? ==>
        && (r.value.eventType == Move <==> ev.MouseMove? && ev.mouse.buttons == 0)
        && (r.value.eventType == Drag <==> (ev.MouseMove? && ev.mouse.buttons != 0) || ev.TouchMove?)
        && (r.value.eventType == ButtonDown <==> ev.MouseDown? || ev.TouchStart?)
        && (r.value.eventType == ButtonUp <==> ev.MouseUp? || ev.MouseLeave? || ev.TouchEnd?)
        && (r.value.eventType == Wheel <==> ev.WheelTurn?)
  {
  }

  /**
   * The detail object: button records exactly for BUTTON_DOWN and BUTTON_UP, with count 1
   * and a button name exactly for mouse buttons 0 to 2; the `buttons` mask for a mouse
   * move, 1 for a touch move; for the wheel, each delta replaced by minus its sign.
   */
  lemma EncodeDetail(windowUid: string, ev: InputEvent)
    ensures var r := Encode(windowUid, ev);
      r.Some? ==>
        && (r.value.detail.ButtonDetail? <==> r.value.eventType == ButtonDown || r.value.eventType == ButtonUp)
        && (r.value.detail.ButtonDetail? ==>
              r.value.detail.count == 1 &&
              (r.value.detail.button.Some? <==> ev.IsMouse() && 0 <= ev.mouse.button < 3))
        && (r.value.detail.ButtonDetail? && ev.IsMouse() ==>
              && (ev.mouse.button == 0 ==> r.value.detail.button == Some("LEFT"))
              && (ev.mouse.button == 1 ==> r.value.detail.button == Some("MIDDLE"))
              && (ev.mouse.button == 2 ==> r.value.detail.button == Some("RIGHT")))
        && (ev.MouseMove? ==> r.value.detail == MoveDetail(ev.mouse.buttons))
        && (ev.TouchMove? ==> r.value.detail == MoveDetail(1))
        && (ev.WheelTurn? ==>
              && r.value.detail.WheelDetail?
              && r.value.detail.dx == -Sign(ev.wheel.deltaX)
              && r.value.detail.dy == -Sign(ev.wheel.deltaY)
              && (r.value.detail.isTrackpad == 1 <==>
                    IsTrackpad(ev.wheel.deltaY, ev.wheel.deltaMode, ev.wheel.wheelDeltaY))
              && (r.value.detail.isTrackpad == 0 || r.value.detail.isTrackpad == 1))
  {
  }
}
