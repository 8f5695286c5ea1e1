/** InputManager: the keyboard state the game reads each frame. Three sets of key constants:
    the keys held down, the keys that went down since the last update, and the keys that
    went up since the last update. The key listener feeds raw key codes in; update clears the
    two "since the last update" sets once a frame. */
module Inputs {
  import opened Wrappers
  import opened Keys

  datatype Input = Input(down: set<Key>, pressed: set<Key>, released: set<Key>)

  /** The state of a new manager: nothing held, nothing pressed or released. */
  const NoKeys: Input := Input({}, {}, {})

  /** What every reachable state keeps: a key reported as just pressed is still held, or has
      been reported as released since. */
  predicate Valid(s: Input)
  {
    s.pressed <= s.down + s.released
  }

  predicate IsKeyPressed(s: Input, k: Key) { k in s.pressed }

  predicate IsKeyReleased(s: Input, k: Key) { k in s.released }

  predicate IsKeyDown(s: Input, k: Key) { k in s.down }

  /** isKeyUp: the key is not held. */
  predicate IsKeyUp(s: Input, k: Key) { k !in s.down }

  /** keyPressed for a mapped key: the key is held afterwards, and it counts as just pressed
      exactly when it was not already held (or was already counted); no other key changes. */
  function Press(s: Input, k: Key): (r: Input)
    ensures k in r.down
    ensures k in r.pressed <==> k in s.pressed || k !in s.down
    ensures r.released == s.released
    ensures forall j :: j != k ==> (j in r.down <==> j in s.down) && (j in r.pressed <==> j in s.pressed)
  {
    Input(s.down + {k}, if k in s.down then s.pressed else s.pressed + {k}, s.released)
  }

  /** keyReleased for a mapped key: the key is no longer held and counts as just released;
      the just-pressed set and every other key are unchanged. */
  function Release(s: Input, k: Key): (r: Input)
    ensures k !in r.down && k in r.released
    ensures r.pressed == s.pressed
    ensures forall j :: j != k ==> (j in r.down <==> j in s.down) && (j in r.released <==> j in s.released)
  {
    Input(s.down - {k}, s.pressed, s.released + {k})
  }

  /** The listener's keyPressed: the code is looked up with fromKeyCode, and an unmapped code
      is ignored. Only the key the code maps to can change: it is held afterwards, and it is
      just pressed exactly when it already was or was not held before. */
  function KeyPressed(s: Input, code: int): (r: Input)
    ensures FromKeyCode(code).None? ==> r == s
    ensures forall k :: k in r.down <==> FromKeyCode(code) == Some(k) || k in s.down
    ensures forall k :: k in r.pressed <==>
              if FromKeyCode(code) == Some(k) then k in s.pressed || k !in s.down else k in s.pressed
    ensures r.released == s.released
  {
    match FromKeyCode(code)
      case None => s
      case Some(k) => Press(s, k)
  }

  /** The listener's keyReleased, with the same lookup: the key the code maps to is no longer
      held and is just released; nothing else changes. */
  function KeyReleased(s: Input, code: int): (r: Input)
    ensures FromKeyCode(code).None? ==> r == s
    ensures forall k :: k in r.down <==> FromKeyCode(code) != Some(k) && k in s.down
    ensures r.pressed == s.pressed
    ensures forall k :: k in r.released <==> FromKeyCode(code) == Some(k) || k in s.released
  {
    match FromKeyCode(code)
      case None => s
      case Some(k) => Release(s, k)
  }

  /** update: afterwards no key is just pressed or just released, and every key is held
      exactly when it was held before. */
  function Update(s: Input): (r: Input)
    ensures forall k :: !IsKeyPressed(r, k) && !IsKeyReleased(r, k)
    ensures forall k :: IsKeyDown(r, k) <==> IsKeyDown(s, k)
  {
    Input(s.down, {}, {})
  }

  /** isKeyUp is the negation of isKeyDown. */
  lemma UpIsNotDown(s: Input, k: Key)
    ensures IsKeyUp(s, k) <==> !IsKeyDown(s, k)
  {
  }

  /** Every handler and update keep Valid, starting from the new manager. */
  lemma ValidIsInvariant(s: Input, k: Key, code: int)
    requires Valid(s)
    ensures Valid(NoKeys)
    ensures Valid(Press(s, k)) && Valid(Release(s, k)) && Valid(Update(s))
    ensures Valid(KeyPressed(s, code)) && Valid(KeyReleased(s, code))
  {
  }

  /** An event carrying a constant's own key code acts on that constant. */
  lemma HandlersUseTheKeyCode(s: Input, k: Key)
    ensures KeyPressed(s, KeyCode(k)) == Press(s, k)
    ensures KeyReleased(s, KeyCode(k)) == Release(s, k)
  {
    FromKeyCodeRoundTrip(k);
  }

  /** An event whose code has no constant changes no set. */
  lemma UnmappedCodesAreIgnored(s: Input, code: int)
    requires forall k: Key :: KeyCode(k) != code
    ensures KeyPressed(s, code) == s && KeyReleased(s, code) == s
  {
  }

  /** VK_PAUSE is such a code. */
  lemma PauseIsIgnored(s: Input, code: int)
    requires code == 19
    ensures KeyPressed(s, code) == s && KeyReleased(s, code) == s
  {
    PauseIsUnmapped(code);
  }

  /** Holding a key does not re-trigger it: a press of a held key changes nothing, so after
      an update a repeated press leaves the key held but not just pressed. */
  lemma HoldingDoesNotRetrigger(s: Input, k: Key)
    ensures k in s.down ==> Press(s, k) == s
    ensures var held := Press(Update(Press(s, k)), k);
            IsKeyDown(held, k) && !IsKeyPressed(held, k)
  {
  }

  /** A press of a key that is up marks it held and just pressed, and not just released
      unless it already was. */
  lemma PressOfAnUpKey(s: Input, k: Key)
    requires IsKeyUp(s, k)
    ensures var r := Press(s, k);
            IsKeyDown(r, k) && IsKeyPressed(r, k) && (IsKeyReleased(r, k) <==> IsKeyReleased(s, k))
  {
  }

  /** Press then release: the key is up and just released. */
  lemma PressThenRelease(s: Input, k: Key)
    ensures var r := Release(Press(s, k), k);
            IsKeyUp(r, k) && IsKeyReleased(r, k)
  {
  }

  /** Keys are tracked independently: with W and D held, releasing W leaves D held. */
  lemma KeysAreIndependent()
    ensures var both := Press(Press(Update(NoKeys), W), D);
            IsKeyDown(both, W) && IsKeyDown(both, D) && !IsKeyDown(both, S)
    ensures var one := Release(Press(Press(Update(NoKeys), W), D), W);
            !IsKeyDown(one, W) && IsKeyDown(one, D)
  {
  }

  /** What reaches the manager: a key listener event with its raw code, or the game's
      once-a-frame update. */
  datatype Event = KeyDown(code: int) | KeyUp(code: int) | Frame

  function Step(s: Input, e: Event): Input
  {
    match e
      case KeyDown(c) => KeyPressed(s, c)
      case KeyUp(c) => KeyReleased(s, c)
      case Frame => Update(s)
  }

  /** The state after handling events in order. */
  function Replay(s: Input, events: seq<Event>): Input
    decreases |events|
  {
    if |events| == 0 then s else Replay(Step(s, events[0]), events[1..])
  }

  /** Whether an event is a key event for key k. */
  predicate PressOf(e: Event, k: Key) { e.KeyDown? && FromKeyCode(e.code) == Some(k) }

  predicate ReleaseOf(e: Event, k: Key) { e.KeyUp? && FromKeyCode(e.code) == Some(k) }

  /** A reference for one key read backwards from the latest event: it is held when the last
      event about it was a press. */
  predicate HeldAfter(k: Key, s: Input, events: seq<Event>)
    decreases |events|
  {
    if |events| == 0 then k in s.down
    else
      var e := events[|events| - 1];
      if PressOf(e, k) then true
      else if ReleaseOf(e, k) then false
      else HeldAfter(k, s, events[..|events| - 1])
  }

  /** It is just pressed when, since the last update, a press found it up (or it already
      counted as just pressed before the events). */
  predicate JustPressedAfter(k: Key, s: Input, events: seq<Event>)
    decreases |events|
  {
    if |events| == 0 then k in s.pressed
    else
      var e := events[|events| - 1];
      var before := events[..|events| - 1];
      if e.Frame? then false
      else if PressOf(e, k) then JustPressedAfter(k, s, before) || !HeldAfter(k, s, before)
      else JustPressedAfter(k, s, before)
  }

  /** It is just released when, since the last update, some release of it arrived. */
  predicate JustReleasedAfter(k: Key, s: Input, events: seq<Event>)
    decreases |events|
  {
    if |events| == 0 then k in s.released
    else
      var e := events[|events| - 1];
      if e.Frame? then false
      else if ReleaseOf(e, k) then true
      else JustReleasedAfter(k, s, events[..|events| - 1])
  }

  /** Handling one more event is one more step. */
  lemma {:induction false} ReplaySnoc(s: Input, events: seq<Event>, e: Event)
    ensures Replay(s, events + [e]) == Step(Replay(s, events), e)
    decreases |events|
  {
    if |events| == 0 {
      assert [e][1..] == [];
    } else {
      assert (events + [e])[1..] == events[1..] + [e];
      ReplaySnoc(Step(s, events[0]), events[1..], e);
    }
  }

  /** One step, seen from one key. */
  lemma StepIsPerKey(t: Input, e: Event, k: Key)
    ensures k in Step(t, e).down <==>
              if PressOf(e, k) then true else if ReleaseOf(e, k) then false else k in t.down
    ensures k in Step(t, e).pressed <==>
              if e.Frame? then false
              else if PressOf(e, k) then k in t.pressed || k !in t.down
              else k in t.pressed
    ensures k in Step(t, e).released <==>
              if e.Frame? then false else if ReleaseOf(e, k) then true else k in t.released
  {
    match e
      case KeyDown(c) =>
      case KeyUp(c) =>
      case Frame =>
  }

  /** The last event is handled last. */
  lemma ReplayLast(s: Input, events: seq<Event>)
    requires |events| > 0
    ensures Replay(s, events) == Step(Replay(s, events[..|events| - 1]), events[|events| - 1])
  {
    assert events == events[..|events| - 1] + [events[|events| - 1]];
    ReplaySnoc(s, events[..|events| - 1], events[|events| - 1]);
  }

  /** The sets after any event sequence are the per-key references: what happens to one key
      depends only on the events about that key and on the updates. */
  lemma ReplayIsPerKey(s: Input, events: seq<Event>, k: Key)
    ensures k in Replay(s, events).down <==> HeldAfter(k, s, events)
    ensures k in Replay(s, events).pressed <==> JustPressedAfter(k, s, events)
    ensures k in Replay(s, events).released <==> JustReleasedAfter(k, s, events)
  {
    ReplayHeld(s, events, k);
    ReplayJustPressed(s, events, k);
    ReplayJustReleased(s, events, k);
  }

  lemma {:induction false} ReplayHeld(s: Input, events: seq<Event>, k: Key)
    ensures k in Replay(s, events).down <==> HeldAfter(k, s, events)
    decreases |events|
  {
    if |events| > 0 {
      var before := events[..|events| - 1];
      ReplayLast(s, events);
      ReplayHeld(s, before, k);
      StepIsPerKey(Replay(s, before), events[|events| - 1], k);
    }
  }

  lemma {:induction false} ReplayJustPressed(s: Input, events: seq<Event>, k: Key)
    ensures k in Replay(s, events).pressed <==> JustPressedAfter(k, s, events)
    decreases |events|
  {
    if |events| > 0 {
      var before := events[..|events| - 1];
      ReplayLast(s, events);
      ReplayHeld(s, before, k);
      ReplayJustPressed(s, before, k);
      StepIsPerKey(Replay(s, before), events[|events| - 1], k);
    }
  }

  lemma {:induction false} ReplayJustReleased(s: Input, events: seq<Event>, k: Key)
    ensures k in Replay(s, events).released <==> JustReleasedAfter(k, s, events)
    decreases |events|
  {
    if |events| > 0 {
      var before := events[..|events| - 1];
      ReplayLast(s, events);
      ReplayJustReleased(s, before, k);
      StepIsPerKey(Replay(s, before), events[|events| - 1], k);
    }
  }
}
