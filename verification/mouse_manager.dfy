/** MouseManager: three button flags and the pointer position, driven by the AWT mouse
    listener callbacks. */
module Mice {
  import opened Vectors

  datatype Mouse = Mouse(left: bool, middle: bool, right: bool, position: Vec2)

  /** MouseEvent.BUTTON1..BUTTON3: the left, middle and right buttons. */
  const Button1: int := 1
  const Button2: int := 2
  const Button3: int := 3

  /** A new manager: no button pressed, pointer at (0, 0). */
  const Initial: Mouse := Mouse(false, false, false, Origin)

  /** mousePressed: the flag of the event's button becomes true; any other button number
      changes nothing, and the position never changes. */
  function Pressed(m: Mouse, button: int): (r: Mouse)
    ensures r.left == (m.left || button == Button1)
    ensures r.middle == (m.middle || button == Button2)
    ensures r.right == (m.right || button == Button3)
    ensures r.position == m.position
  {
    if button == Button1 then m.(left := true)
    else if button == Button2 then m.(middle := true)
    else if button == Button3 then m.(right := true)
    else m
  }

  /** mouseReleased: the flag of the event's button becomes false, likewise. */
  function Released(m: Mouse, button: int): (r: Mouse)
    ensures r.left == (m.left && button != Button1)
    ensures r.middle == (m.middle && button != Button2)
    ensures r.right == (m.right && button != Button3)
    ensures r.position == m.position
  {
    if button == Button1 then m.(left := false)
    else if button == Button2 then m.(middle := false)
    else if button == Button3 then m.(right := false)
    else m
  }

  /** mouseMoved and mouseDragged: setX then setY with the event's integer coordinates. */
  function MovedTo(m: Mouse, x: int, y: int): (r: Mouse)
    ensures r.position == Vec2(x as real, y as real)
    ensures r.left == m.left && r.middle == m.middle && r.right == m.right
  {
    m.(position := WithY(WithX(m.position, x as real), y as real))
  }

  /** The listener callbacks, each with the event fields it reads. */
  datatype MouseEvent =
      PressedEvent(button: int)
    | ReleasedEvent(button: int)
    | ClickedEvent
    | EnteredEvent
    | ExitedEvent
    | MovedEvent(x: int, y: int)
    | DraggedEvent(x: int, y: int)

  /** Dispatching one event to its callback; clicked, entered and exited have empty bodies. */
  function Handle(m: Mouse, e: MouseEvent): Mouse
  {
    match e
      case PressedEvent(b) => Pressed(m, b)
      case ReleasedEvent(b) => Released(m, b)
      case ClickedEvent => m
      case EnteredEvent => m
      case ExitedEvent => m
      case MovedEvent(x, y) => MovedTo(m, x, y)
      case DraggedEvent(x, y) => MovedTo(m, x, y)
  }

  /** The new manager has no button pressed and the pointer at the origin. */
  lemma InitialState()
    ensures !Initial.left && !Initial.middle && !Initial.right
    ensures Initial.position.x == 0.0 && Initial.position.y == 0.0
  {
  }

  /** A button number other than 1, 2 or 3 changes nothing, pressed or released. */
  lemma OtherButtonsAreIgnored(m: Mouse, button: int)
    requires button != Button1 && button != Button2 && button != Button3
    ensures Pressed(m, button) == m && Released(m, button) == m
  {
  }

  /** A press or release changes only the flag of its own button. */
  lemma OnlyTheMatchingFlagChanges(m: Mouse)
    ensures Pressed(m, Button1) == m.(left := true) && Released(m, Button1) == m.(left := false)
    ensures Pressed(m, Button2) == m.(middle := true) && Released(m, Button2) == m.(middle := false)
    ensures Pressed(m, Button3) == m.(right := true) && Released(m, Button3) == m.(right := false)
  {
  }

  /** Releasing the button just pressed gives back the state with that button up; if the
      button was up before, that is the state before the press. */
  lemma PressThenRelease(m: Mouse, button: int)
    ensures var r := Released(Pressed(m, button), button);
            r == Released(m, button)
    ensures !m.left && !m.middle && !m.right ==> Released(Pressed(m, button), button) == m
  {
  }

  /** Clicked, entered and exited leave the state as it was; moved and dragged agree. */
  lemma NoOpHandlers(m: Mouse, x: int, y: int)
    ensures Handle(m, ClickedEvent) == m && Handle(m, EnteredEvent) == m && Handle(m, ExitedEvent) == m
    ensures Handle(m, MovedEvent(x, y)) == Handle(m, DraggedEvent(x, y))
  {
  }

  /** The state after a sequence of callbacks. */
  function Replay(m: Mouse, events: seq<MouseEvent>): Mouse
    decreases |events|
  {
    if |events| == 0 then m else Replay(Handle(m, events[0]), events[1..])
  }

  /** Reference for the pointer, read back from the latest event: the coordinates of the
      last move or drag, or the starting position if there was none. */
  function LastPosition(m: Mouse, events: seq<MouseEvent>): Vec2
    decreases |events|
  {
    if |events| == 0 then m.position
    else
      var e := events[|events| - 1];
      if e.MovedEvent? || e.DraggedEvent? then Vec2(e.x as real, e.y as real)
      else LastPosition(m, events[..|events| - 1])
  }

  /** The flag a button number drives, or false for numbers no flag listens to. */
  function Flag(m: Mouse, button: int): bool
  {
    if button == Button1 then m.left
    else if button == Button2 then m.middle
    else if button == Button3 then m.right
    else false
  }

  /** Reference for one button: it is down when the last press or release of it was a
      press. */
  predicate ButtonDownAfter(m: Mouse, events: seq<MouseEvent>, button: int)
    decreases |events|
  {
    if |events| == 0 then Flag(m, button)
    else
      var e := events[|events| - 1];
      if e.PressedEvent? && e.button == button then true
      else if e.ReleasedEvent? && e.button == button then false
      else ButtonDownAfter(m, events[..|events| - 1], button)
  }

  /** The last callback is handled last. */
  lemma {:induction false} ReplayLast(m: Mouse, events: seq<MouseEvent>)
    requires |events| > 0
    ensures Replay(m, events) == Handle(Replay(m, events[..|events| - 1]), events[|events| - 1])
    decreases |events|
  {
    if |events| > 1 {
      assert events[1..][..|events| - 2] == events[..|events| - 1][1..];
      ReplayLast(Handle(m, events[0]), events[1..]);
    }
  }

  /** After any sequence of callbacks the pointer is where the last move or drag put it. */
  lemma {:induction false} ReplayPosition(m: Mouse, events: seq<MouseEvent>)
    ensures Replay(m, events).position == LastPosition(m, events)
    decreases |events|
  {
    if |events| > 0 {
      ReplayLast(m, events);
      ReplayPosition(m, events[..|events| - 1]);
    }
  }

  /** After any sequence of callbacks each button is down exactly when its last press or
      release was a press, whatever the other buttons and the pointer did. */
  lemma {:induction false} ReplayButtons(m: Mouse, events: seq<MouseEvent>, button: int)
    requires button == Button1 || button == Button2 || button == Button3
    ensures Flag(Replay(m, events), button) <==> ButtonDownAfter(m, events, button)
    decreases |events|
  {
    if |events| > 0 {
      ReplayLast(m, events);
      ReplayButtons(m, events[..|events| - 1], button);
    }
  }
}
