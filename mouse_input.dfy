/** `MouseEventsToUltralight`: the mouse snapshot of one tick becomes the one
    Ultralight mouse event fired at the view. */
module MouseInput {

  /** MonoGame's `ButtonState`. */
  datatype ButtonState = Released | Pressed

  /** The fields of MonoGame's `MouseState` that a snapshot carries here. */
  datatype MouseState = MouseState(
    x: int, y: int,
    leftButton: ButtonState, middleButton: ButtonState, rightButton: ButtonState,
    scrollWheelValue: int)

  /** UltralightNet's `ULMouseEventType`; its zero value is `MouseMoved`. */
  datatype MouseEventType = MouseMoved | MouseDown | MouseUp

  /** UltralightNet's `ULMouseEventButton`; its zero value is `None`. */
  datatype MouseEventButton = NoButton | Left | Middle | Right

  datatype ULMouseEvent = ULMouseEvent(eventType: MouseEventType, x: int, y: int, button: MouseEventButton)

  /** `new ULMouseEvent()`: every field at its zero value. */
  const DefaultMouseEvent: ULMouseEvent := ULMouseEvent(MouseMoved, 0, 0, NoButton)

  /** The event built from a snapshot: the position copied unscaled, and type
      and button set to a left-button press only while the left button is
      down, otherwise left at their defaults. */
  function ToUltralightMouseEvent(mouse: MouseState): (e: ULMouseEvent)
    ensures e.x == mouse.x && e.y == mouse.y
    ensures e.eventType == MouseDown <==> mouse.leftButton == Pressed
    ensures e.button == Left <==> mouse.leftButton == Pressed
    ensures mouse.leftButton == Released ==>
      e == DefaultMouseEvent.(x := mouse.x, y := mouse.y)
    ensures e.eventType != MouseUp
  {
    var e := DefaultMouseEvent.(x := mouse.x, y := mouse.y);
    if mouse.leftButton == Pressed then e.(eventType := MouseDown, button := Left) else e
  }

  /** The event depends on the position and the left button only: the middle
      and right buttons and the scroll wheel are not forwarded. */
  lemma OnlyPositionAndLeftButtonMatter(m1: MouseState, m2: MouseState)
    requires m1.x == m2.x && m1.y == m2.y && m1.leftButton == m2.leftButton
    ensures ToUltralightMouseEvent(m1) == ToUltralightMouseEvent(m2)
  {
  }

  /** There is no edge detection: a held left button gives a `MouseDown` on
      every tick, and its release gives no `MouseUp`. */
  lemma HeldButtonRepeatsMouseDown(ticks: seq<MouseState>)
    requires forall i :: 0 <= i < |ticks| ==> ticks[i].leftButton == Pressed
    ensures forall i :: 0 <= i < |ticks| ==>
      ToUltralightMouseEvent(ticks[i]) == ULMouseEvent(MouseDown, ticks[i].x, ticks[i].y, Left)
  {
  }
}
