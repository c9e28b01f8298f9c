/**
 * The input handler of engine/src/core/input/input_handler.cpp: per-key and
 * per-mouse-button states with timestamps, advanced once per frame by Update
 * and then rewritten by the polled window-system events.
 *
 * The window system is abstracted: the polled events are a parameter, as are
 * the tick count (SDL_GetTicks) and the mouse position reported after polling.
 * The events the handler emits are collected in `emitted`.
 */
module Input {

  /** The state of a key or a mouse button. Down and Up last for one frame. */
  datatype KeyState = Up | Down | Released | Pressed

  type MouseState = KeyState

  datatype Mouse = Left | Right | Middle

  /** The number of mouse buttons with a state slot. */
  const MouseCount: nat := 3

  /** The slot of a mouse button. */
  function GetMouseIndex(mouse: Mouse): (i: nat)
    ensures i < MouseCount
    ensures GetMouse(i) == mouse
  {
    match mouse
    case Left => 0
    case Right => 1
    case Middle => 2
  }

  /** The mouse button of a slot. */
  function GetMouse(i: nat): (mouse: Mouse)
    requires i < MouseCount
  {
    if i == 0 then Left else if i == 1 then Right else Middle
  }

  /** Slots and buttons are in one-to-one correspondence. */
  lemma MouseIndexBijective(i: nat)
    requires i < MouseCount
    ensures GetMouseIndex(GetMouse(i)) == i
  {
  }

  /** A key or button counts as pressed while Pressed or Down. */
  predicate IsPressed(s: KeyState) { s.Pressed? || s.Down? }

  /** A key or button counts as released while Released or Up. */
  predicate IsReleased(s: KeyState) { s.Released? || s.Up? }

  /** Every state is pressed or released, never both. */
  lemma PressedXorReleased(s: KeyState)
    ensures IsPressed(s) != IsReleased(s)
  {
  }

  /** The per-frame advance: Up becomes Released and Down becomes Pressed. */
  function Settled(s: KeyState): (r: KeyState)
    ensures !r.Up? && !r.Down?
    ensures IsPressed(r) == IsPressed(s)
    ensures s.Released? || s.Pressed? ==> r == s
  {
    match s
    case Up => Released
    case Down => Pressed
    case _ => s
  }

  /** A key-down event: a non-repeat press makes the key Down. */
  function KeyDownState(s: KeyState, repeat: bool): (r: KeyState)
    ensures !repeat ==> r.Down?
    ensures repeat ==> r == s
  {
    if !repeat then Down else s
  }

  /** A key-up or mouse-up event: Up unless the key is already Released. */
  function ReleaseState(s: KeyState): (r: KeyState)
    ensures s.Released? ==> r == s
    ensures !s.Released? ==> r.Up?
    ensures IsReleased(r)
  {
    if !s.Released? then Up else s
  }

  /** A mouse-down event: Down unless the button is already Pressed (then it is held). */
  function MouseDownState(s: KeyState): (r: KeyState)
    ensures s.Pressed? ==> r == s
    ensures !s.Pressed? ==> r.Down?
    ensures IsPressed(r)
  {
    if !s.Pressed? then Down else s
  }

  /** Milliseconds held: 0 with no timestamp or while released, else the time since the timestamp. */
  function HeldTime(timestamp: nat, state: KeyState, now: nat): (r: nat)
    requires timestamp != 0 && !IsReleased(state) ==> now >= timestamp
    ensures timestamp == 0 || IsReleased(state) ==> r == 0
    ensures r > 0 ==> IsPressed(state) && r == now - timestamp
  {
    if timestamp == 0 || state.Up? || state.Released? then 0 else now - timestamp
  }

  /** The events the window system delivers. */
  datatype SdlEvent =
    | MouseMotion(x: int, y: int, xrel: int, yrel: int)
    | MouseButtonDown(button: Mouse, timestamp: nat)
    | MouseButtonUp(button: Mouse, timestamp: nat)
    | KeyDownEvent(scancode: nat, repeat: bool, timestamp: nat)
    | KeyUpEvent(scancode: nat, timestamp: nat)
    | MouseWheel(mouseX: int, mouseY: int, wheelX: int, wheelY: int, timestamp: nat)
    | Quit
    | Other

  /** The events the handler emits to the application. */
  datatype InputEvent =
    | MouseMove(x: int, y: int, dx: int, dy: int)
    | MouseDownEmitted(mouse: Mouse, held: bool)
    | MouseUpEmitted(mouse: Mouse)
    | KeyDownEmitted(key: nat, held: bool)
    | KeyUpEmitted(key: nat)
    | MouseScroll(x: int, y: int)
    | WindowQuit

  /** The handler's state as a value. */
  datatype Snapshot = Snapshot(
    keys: seq<KeyState>, keyTimes: seq<nat>,
    mice: seq<KeyState>, mouseTimes: seq<nat>,
    mouseX: int, mouseY: int,
    scrollX: int, scrollY: int, scrollDeltaX: int, scrollDeltaY: int, scrollTime: nat,
    stopped: bool, emitted: seq<InputEvent>)
  {
    ghost predicate WellFormed()
    {
      |keys| == |keyTimes| && |mice| == MouseCount && |mouseTimes| == MouseCount
    }
  }

  /** Scancodes the key table has a slot for. */
  predicate EventFits(e: SdlEvent, keyCount: nat)
  {
    match e
    case KeyDownEvent(code, _, _) => code < keyCount
    case KeyUpEvent(code, _) => code < keyCount
    case _ => true
  }

  /** One polled event applied to the state. */
  function ProcessEvent(st: Snapshot, e: SdlEvent): (r: Snapshot)
    requires st.WellFormed() && EventFits(e, |st.keys|)
    ensures r.WellFormed() && |r.keys| == |st.keys|
    ensures e.KeyDownEvent? ==> r.keys == st.keys[e.scancode := KeyDownState(st.keys[e.scancode], e.repeat)]
    ensures e.KeyUpEvent? ==> r.keys == st.keys[e.scancode := ReleaseState(st.keys[e.scancode])]
    ensures e.MouseButtonDown? ==>
      r.mice == st.mice[GetMouseIndex(e.button) := MouseDownState(st.mice[GetMouseIndex(e.button)])]
    ensures e.MouseButtonUp? ==>
      r.mice == st.mice[GetMouseIndex(e.button) := ReleaseState(st.mice[GetMouseIndex(e.button)])]
    ensures !e.KeyDownEvent? && !e.KeyUpEvent? ==> r.keys == st.keys && r.keyTimes == st.keyTimes
    ensures !e.MouseButtonDown? && !e.MouseButtonUp? ==> r.mice == st.mice && r.mouseTimes == st.mouseTimes
    ensures st.emitted <= r.emitted && |r.emitted| <= |st.emitted| + 1
  {
    match e
    case MouseMotion(x, y, xrel, yrel) =>
      st.(mouseX := x, mouseY := y, emitted := st.emitted + [MouseMove(x, y, xrel, yrel)])
    case MouseButtonDown(button, ts) =>
      var i := GetMouseIndex(button);
      if !st.mice[i].Pressed? then
        st.(mice := st.mice[i := Down], mouseTimes := st.mouseTimes[i := ts],
            emitted := st.emitted + [MouseDownEmitted(button, false)])
      else
        st.(emitted := st.emitted + [MouseDownEmitted(button, true)])
    case MouseButtonUp(button, ts) =>
      var i := GetMouseIndex(button);
      if !st.mice[i].Released? then
        st.(mice := st.mice[i := Up], mouseTimes := st.mouseTimes[i := ts],
            emitted := st.emitted + [MouseUpEmitted(button)])
      else
        st
    case KeyDownEvent(code, repeat, ts) =>
      if !repeat then
        st.(keys := st.keys[code := Down], keyTimes := st.keyTimes[code := ts],
            emitted := st.emitted + [KeyDownEmitted(code, false)])
      else
        st.(emitted := st.emitted + [KeyDownEmitted(code, true)])
    case KeyUpEvent(code, ts) =>
      if !st.keys[code].Released? then
        st.(keys := st.keys[code := Up], keyTimes := st.keyTimes[code := ts],
            emitted := st.emitted + [KeyUpEmitted(code)])
      else
        st
    case MouseWheel(mx, my, wx, wy, ts) =>
      st.(mouseX := mx, mouseY := my, scrollTime := ts, scrollX := wx, scrollY := wy,
          scrollDeltaX := st.scrollDeltaX + wx, scrollDeltaY := st.scrollDeltaY + wy,
          emitted := st.emitted + [MouseScroll(wx, wy)])
    case Quit =>
      st.(stopped := true, emitted := st.emitted + [WindowQuit])
    case Other => st
  }

  /** The polled events applied in order. */
  function ProcessEvents(st: Snapshot, es: seq<SdlEvent>): (r: Snapshot)
    requires st.WellFormed() && forall e <- es :: EventFits(e, |st.keys|)
    ensures r.WellFormed() && |r.keys| == |st.keys|
    decreases |es|
  {
    if es == [] then st
    else ProcessEvent(ProcessEvents(st, es[..|es| - 1]), es[|es| - 1])
  }

  /** The held MouseDown events of the first n slots, one per slot that is Pressed, in slot order. */
  function HeldMouseEvents(mice: seq<KeyState>, n: nat): (r: seq<InputEvent>)
    requires |mice| == MouseCount && n <= MouseCount
    ensures |r| <= n
    ensures forall ev <- r :: ev.MouseDownEmitted? && ev.held && mice[GetMouseIndex(ev.mouse)].Pressed?
    ensures (forall i :: 0 <= i < n ==> !mice[i].Pressed?) ==> r == []
  {
    if n == 0 then []
    else HeldMouseEvents(mice, n - 1) + (if mice[n - 1].Pressed? then [MouseDownEmitted(GetMouse(n - 1), true)] else [])
  }

  /** One table settled: each state advanced, an Up stamped with now. */
  function SettleStates(states: seq<KeyState>): (r: seq<KeyState>)
    ensures |r| == |states| && forall i :: 0 <= i < |states| ==> r[i] == Settled(states[i])
  {
    seq(|states|, i requires 0 <= i < |states| => Settled(states[i]))
  }

  function SettleTimes(states: seq<KeyState>, times: seq<nat>, now: nat): (r: seq<nat>)
    requires |states| == |times|
    ensures |r| == |times|
    ensures forall i :: 0 <= i < |times| ==> r[i] == if states[i].Up? then now else times[i]
  {
    seq(|times|, i requires 0 <= i < |times| => if states[i].Up? then now else times[i])
  }

  /** The frame advance before polling, on the handler's state: every key
   *  and button settled, released ones stamped, the scroll cleared. */
  function SettleSnap(st: Snapshot, now: nat): (r: Snapshot)
    requires st.WellFormed()
    ensures r.WellFormed() && |r.keys| == |st.keys|
    ensures forall i :: 0 <= i < |r.keys| ==> !r.keys[i].Up? && !r.keys[i].Down?
    ensures forall i :: 0 <= i < |r.mice| ==> !r.mice[i].Up? && !r.mice[i].Down?
    ensures r.emitted == st.emitted && r.mouseX == st.mouseX && r.mouseY == st.mouseY && r.stopped == st.stopped
  {
    st.(keys := SettleStates(st.keys), keyTimes := SettleTimes(st.keys, st.keyTimes, now),
        mice := SettleStates(st.mice), mouseTimes := SettleTimes(st.mice, st.mouseTimes, now),
        scrollX := 0, scrollY := 0, scrollDeltaX := 0, scrollDeltaY := 0)
  }

  /** Everything polling does: the events, the held buttons, then a move to the reported mouse position. */
  function EmitAll(st: Snapshot, es: seq<SdlEvent>, mx: int, my: int): (r: Snapshot)
    requires st.WellFormed() && forall e <- es :: EventFits(e, |st.keys|)
  {
    var p := ProcessEvents(st, es);
    var held := p.(emitted := p.emitted + HeldMouseEvents(p.mice, MouseCount));
    if mx - held.mouseX != 0 || my - held.mouseY != 0 then
      held.(mouseX := mx, mouseY := my,
            emitted := held.emitted + [MouseMove(mx, my, mx - held.mouseX, my - held.mouseY)])
    else held
  }

  class InputHandler {
    var keyStates: array<KeyState>
    var keyTimestamps: array<nat>
    var mouseStates: array<KeyState>
    var mouseTimestamps: array<nat>
    var mouseX: int
    var mouseY: int
    var previousMouseX: int
    var previousMouseY: int
    var scrollX: int
    var scrollY: int
    var scrollDeltaX: int
    var scrollDeltaY: int
    var scrollTime: nat
    var stopped: bool
    var emitted: seq<InputEvent>

    ghost predicate Valid()
      reads this
    {
      keyStates.Length == keyTimestamps.Length &&
      mouseStates.Length == MouseCount && mouseTimestamps.Length == MouseCount &&
      keyStates != mouseStates && keyTimestamps != mouseTimestamps
    }

    function Snap(): (s: Snapshot)
      reads this, keyStates, keyTimestamps, mouseStates, mouseTimestamps
      requires Valid()
      ensures s.WellFormed()
    {
      Snapshot(keyStates[..], keyTimestamps[..], mouseStates[..], mouseTimestamps[..],
               mouseX, mouseY, scrollX, scrollY, scrollDeltaX, scrollDeltaY, scrollTime, stopped, emitted)
    }

    /** Every key and button starts released with no timestamp. */
    constructor (keyCount: nat)
      ensures Valid() && fresh(keyStates) && fresh(keyTimestamps) && fresh(mouseStates) && fresh(mouseTimestamps)
      ensures keyStates.Length == keyCount
      ensures forall i :: 0 <= i < keyCount ==> keyStates[i].Released? && keyTimestamps[i] == 0
      ensures forall i :: 0 <= i < MouseCount ==> mouseStates[i].Released? && mouseTimestamps[i] == 0
      ensures emitted == [] && !stopped
    {
      keyStates := new KeyState[keyCount](_ => Released);
      keyTimestamps := new nat[keyCount](_ => 0);
      mouseStates := new KeyState[MouseCount](_ => Released);
      mouseTimestamps := new nat[MouseCount](_ => 0);
      mouseX, mouseY, previousMouseX, previousMouseY := 0, 0, 0, 0;
      scrollX, scrollY, scrollDeltaX, scrollDeltaY, scrollTime := 0, 0, 0, 0, 0;
      stopped := false;
      emitted := [];
    }

    function KeyPressed(key: nat): (r: bool)
      reads this, keyStates
      requires key < keyStates.Length
      ensures r <==> keyStates[key].Pressed? || keyStates[key].Down?
    {
      IsPressed(keyStates[key])
    }

    function KeyReleased(key: nat): (r: bool)
      reads this, keyStates
      requires key < keyStates.Length
      ensures r <==> keyStates[key].Released? || keyStates[key].Up?
    {
      IsReleased(keyStates[key])
    }

    function KeyDown(key: nat): (r: bool)
      reads this, keyStates
      requires key < keyStates.Length
      ensures r <==> keyStates[key].Down?
      ensures r ==> KeyPressed(key) && Settled(keyStates[key]).Pressed?
    {
      keyStates[key].Down?
    }

    function KeyUp(key: nat): (r: bool)
      reads this, keyStates
      requires key < keyStates.Length
      ensures r <==> keyStates[key].Up?
      ensures r ==> KeyReleased(key) && Settled(keyStates[key]).Released?
    {
      keyStates[key].Up?
    }

    function MousePressed(mouse: Mouse): (r: bool)
      reads this, mouseStates
      requires Valid()
      ensures r <==> mouseStates[GetMouseIndex(mouse)].Pressed? || mouseStates[GetMouseIndex(mouse)].Down?
    {
      IsPressed(mouseStates[GetMouseIndex(mouse)])
    }

    function MouseReleased(mouse: Mouse): (r: bool)
      reads this, mouseStates
      requires Valid()
      ensures r <==> mouseStates[GetMouseIndex(mouse)].Released? || mouseStates[GetMouseIndex(mouse)].Up?
    {
      IsReleased(mouseStates[GetMouseIndex(mouse)])
    }

    function MouseDown(mouse: Mouse): (r: bool)
      reads this, mouseStates
      requires Valid()
      ensures r <==> mouseStates[GetMouseIndex(mouse)].Down?
      ensures r ==> MousePressed(mouse) && Settled(mouseStates[GetMouseIndex(mouse)]).Pressed?
    {
      mouseStates[GetMouseIndex(mouse)].Down?
    }

    function MouseUp(mouse: Mouse): (r: bool)
      reads this, mouseStates
      requires Valid()
      ensures r <==> mouseStates[GetMouseIndex(mouse)].Up?
      ensures r ==> MouseReleased(mouse) && Settled(mouseStates[GetMouseIndex(mouse)]).Released?
    {
      mouseStates[GetMouseIndex(mouse)].Up?
    }

    function GetKeyHeldTime(key: nat, now: nat): (r: nat)
      reads this, keyStates, keyTimestamps
      requires Valid() && key < keyStates.Length
      requires keyTimestamps[key] != 0 && !IsReleased(keyStates[key]) ==> now >= keyTimestamps[key]
      ensures keyTimestamps[key] == 0 || KeyReleased(key) ==> r == 0
      ensures keyTimestamps[key] != 0 && KeyPressed(key) ==> r == now - keyTimestamps[key]
    {
      HeldTime(keyTimestamps[key], keyStates[key], now)
    }

    function GetMouseHeldTime(mouse: Mouse, now: nat): (r: nat)
      reads this, mouseStates, mouseTimestamps
      requires Valid()
      requires var i := GetMouseIndex(mouse);
        mouseTimestamps[i] != 0 && !IsReleased(mouseStates[i]) ==> now >= mouseTimestamps[i]
      ensures var i := GetMouseIndex(mouse); mouseTimestamps[i] == 0 || MouseReleased(mouse) ==> r == 0
      ensures var i := GetMouseIndex(mouse); mouseTimestamps[i] != 0 && MousePressed(mouse) ==> r == now - mouseTimestamps[i]
    {
      HeldTime(mouseTimestamps[GetMouseIndex(mouse)], mouseStates[GetMouseIndex(mouse)], now)
    }

    /** KeyHeld: the key has been held for at least `time`; a released key never is, unless `time` is 0. */
    function KeyHeld(key: nat, time: nat, now: nat): (r: bool)
      reads this, keyStates, keyTimestamps
      requires Valid() && key < keyStates.Length
      requires keyTimestamps[key] != 0 && !IsReleased(keyStates[key]) ==> now >= keyTimestamps[key]
      ensures KeyReleased(key) ==> (r <==> time == 0)
      ensures keyTimestamps[key] != 0 && KeyPressed(key) ==> (r <==> now >= keyTimestamps[key] + time)
    {
      GetKeyHeldTime(key, now) >= time
    }

    /** MouseHeld: the button has been held for at least `time`. */
    function MouseHeld(mouse: Mouse, time: nat, now: nat): (r: bool)
      reads this, mouseStates, mouseTimestamps
      requires Valid()
      requires var i := GetMouseIndex(mouse);
        mouseTimestamps[i] != 0 && !IsReleased(mouseStates[i]) ==> now >= mouseTimestamps[i]
      ensures MouseReleased(mouse) ==> (r <==> time == 0)
      ensures var i := GetMouseIndex(mouse);
        mouseTimestamps[i] != 0 && MousePressed(mouse) ==> (r <==> now >= mouseTimestamps[i] + time)
    {
      GetMouseHeldTime(mouse, now) >= time
    }

    /** Update before polling: Up becomes Released (stamped now), Down becomes Pressed; scroll is cleared. */
    method Settle(now: nat)
      requires Valid()
      modifies keyStates, keyTimestamps, mouseStates, mouseTimestamps,
               this`previousMouseX, this`previousMouseY, this`scrollX, this`scrollY, this`scrollDeltaX, this`scrollDeltaY
      ensures Valid()
      ensures forall i :: 0 <= i < keyStates.Length ==> keyStates[i] == Settled(old(keyStates[i]))
      ensures forall i :: 0 <= i < keyStates.Length ==>
        keyTimestamps[i] == if old(keyStates[i]).Up? then now else old(keyTimestamps[i])
      ensures forall i :: 0 <= i < MouseCount ==> mouseStates[i] == Settled(old(mouseStates[i]))
      ensures forall i :: 0 <= i < MouseCount ==>
        mouseTimestamps[i] == if old(mouseStates[i]).Up? then now else old(mouseTimestamps[i])
      ensures previousMouseX == mouseX && previousMouseY == mouseY
      ensures scrollX == 0 && scrollY == 0 && scrollDeltaX == 0 && scrollDeltaY == 0
      ensures Snap() == SettleSnap(old(Snap()), now)
    {
      ghost var st := Snap();
      SettleTable(keyStates, keyTimestamps, now);
      SettleTable(mouseStates, mouseTimestamps, now);
      previousMouseX, previousMouseY := mouseX, mouseY;
      scrollX, scrollY, scrollDeltaX, scrollDeltaY := 0, 0, 0, 0;
      assert keyStates[..] == SettleStates(st.keys) && mouseStates[..] == SettleStates(st.mice);
      assert keyTimestamps[..] == SettleTimes(st.keys, st.keyTimes, now);
      assert mouseTimestamps[..] == SettleTimes(st.mice, st.mouseTimes, now);
      assert Snap() == SettleSnap(st, now);
    }

    /** Writes one key slot. */
    method WriteKey(code: nat, state: KeyState, ts: nat, ev: InputEvent)
      requires Valid() && code < keyStates.Length
      modifies keyStates, keyTimestamps, this`emitted
      ensures Valid()
      ensures Snap() == old(Snap()).(keys := old(keyStates[..])[code := state],
                                     keyTimes := old(keyTimestamps[..])[code := ts],
                                     emitted := old(emitted) + [ev])
    {
      keyTimestamps[code] := ts;
      keyStates[code] := state;
      emitted := emitted + [ev];
    }

    /** Writes one mouse slot. */
    method WriteMouse(i: nat, state: KeyState, ts: nat, ev: InputEvent)
      requires Valid() && i < MouseCount
      modifies mouseStates, mouseTimestamps, this`emitted
      ensures Valid()
      ensures Snap() == old(Snap()).(mice := old(mouseStates[..])[i := state],
                                     mouseTimes := old(mouseTimestamps[..])[i := ts],
                                     emitted := old(emitted) + [ev])
    {
      mouseTimestamps[i] := ts;
      mouseStates[i] := state;
      emitted := emitted + [ev];
    }

    /** One polled event, written into the arrays in place. */
    method HandleEvent(e: SdlEvent)
      requires Valid() && EventFits(e, keyStates.Length)
      modifies keyStates, keyTimestamps, mouseStates, mouseTimestamps,
               this`mouseX, this`mouseY, this`scrollX, this`scrollY, this`scrollDeltaX, this`scrollDeltaY,
               this`scrollTime, this`stopped, this`emitted
      ensures Valid()
      ensures Snap() == ProcessEvent(old(Snap()), e)
    {
      match e
      case MouseMotion(x, y, xrel, yrel) => HandleMouseMotion(x, y, xrel, yrel);
      case MouseButtonDown(button, ts) => HandleMouseDown(button, ts);
      case MouseButtonUp(button, ts) => HandleMouseUp(button, ts);
      case KeyDownEvent(code, repeat, ts) => HandleKeyDown(code, repeat, ts);
      case KeyUpEvent(code, ts) => HandleKeyUp(code, ts);
      case MouseWheel(mx, my, wx, wy, ts) => HandleMouseWheel(mx, my, wx, wy, ts);
      case Quit => HandleQuit();
      case Other =>
    }

    method HandleMouseMotion(x: int, y: int, xrel: int, yrel: int)
      requires Valid()
      modifies this`mouseX, this`mouseY, this`emitted
      ensures Valid()
      ensures Snap() == ProcessEvent(old(Snap()), MouseMotion(x, y, xrel, yrel))
    {
      mouseX, mouseY := x, y;
      emitted := emitted + [MouseMove(x, y, xrel, yrel)];
    }

    method HandleMouseWheel(mx: int, my: int, wx: int, wy: int, ts: nat)
      requires Valid()
      modifies this`mouseX, this`mouseY, this`scrollX, this`scrollY, this`scrollDeltaX, this`scrollDeltaY,
               this`scrollTime, this`emitted
      ensures Valid()
      ensures Snap() == ProcessEvent(old(Snap()), MouseWheel(mx, my, wx, wy, ts))
    {
      ghost var st := Snap();
      mouseX, mouseY := mx, my;
      scrollTime := ts;
      scrollX, scrollY := wx, wy;
      scrollDeltaX, scrollDeltaY := scrollDeltaX + wx, scrollDeltaY + wy;
      emitted := emitted + [MouseScroll(wx, wy)];
      assert Snap() == st.(mouseX := mx, mouseY := my, scrollTime := ts, scrollX := wx, scrollY := wy,
                           scrollDeltaX := st.scrollDeltaX + wx, scrollDeltaY := st.scrollDeltaY + wy,
                           emitted := st.emitted + [MouseScroll(wx, wy)]);
    }

    method HandleQuit()
      requires Valid()
      modifies this`stopped, this`emitted
      ensures Valid()
      ensures Snap() == ProcessEvent(old(Snap()), Quit)
    {
      emitted := emitted + [WindowQuit];
      stopped := true;
    }

    method HandleMouseDown(button: Mouse, ts: nat)
      requires Valid()
      modifies mouseStates, mouseTimestamps, this`emitted
      ensures Valid()
      ensures Snap() == ProcessEvent(old(Snap()), MouseButtonDown(button, ts))
    {
      var i := GetMouseIndex(button);
      if !mouseStates[i].Pressed? {
        WriteMouse(i, Down, ts, MouseDownEmitted(button, false));
      } else {
        emitted := emitted + [MouseDownEmitted(button, true)];
      }
    }

    method HandleMouseUp(button: Mouse, ts: nat)
      requires Valid()
      modifies mouseStates, mouseTimestamps, this`emitted
      ensures Valid()
      ensures Snap() == ProcessEvent(old(Snap()), MouseButtonUp(button, ts))
    {
      var i := GetMouseIndex(button);
      if !mouseStates[i].Released? {
        WriteMouse(i, Up, ts, MouseUpEmitted(button));
      }
    }

    method HandleKeyDown(code: nat, repeat: bool, ts: nat)
      requires Valid() && code < keyStates.Length
      modifies keyStates, keyTimestamps, this`emitted
      ensures Valid()
      ensures Snap() == ProcessEvent(old(Snap()), KeyDownEvent(code, repeat, ts))
    {
      if !repeat {
        WriteKey(code, Down, ts, KeyDownEmitted(code, false));
      } else {
        emitted := emitted + [KeyDownEmitted(code, true)];
      }
    }

    method HandleKeyUp(code: nat, ts: nat)
      requires Valid() && code < keyStates.Length
      modifies keyStates, keyTimestamps, this`emitted
      ensures Valid()
      ensures Snap() == ProcessEvent(old(Snap()), KeyUpEvent(code, ts))
    {
      if !keyStates[code].Released? {
        WriteKey(code, Up, ts, KeyUpEmitted(code));
      }
    }

    /** The polling loop: every event in order. */
    method Poll(events: seq<SdlEvent>)
      requires Valid() && forall e <- events :: EventFits(e, keyStates.Length)
      modifies keyStates, keyTimestamps, mouseStates, mouseTimestamps,
               this`mouseX, this`mouseY, this`scrollX, this`scrollY, this`scrollDeltaX, this`scrollDeltaY,
               this`scrollTime, this`stopped, this`emitted
      ensures Valid()
      ensures Snap() == ProcessEvents(old(Snap()), events)
    {
      var k := 0;
      while k < |events|
        invariant 0 <= k <= |events| && Valid()
        invariant Snap() == ProcessEvents(old(Snap()), events[..k])
      {
        assert events[..k + 1][..k] == events[..k];
        HandleEvent(events[k]);
        k := k + 1;
      }
      assert events[..k] == events;
    }

    /** A held MouseDown for every button still Pressed, in slot order. */
    method EmitHeld()
      requires Valid()
      modifies this`emitted
      ensures Valid()
      ensures Snap() == old(Snap()).(emitted := old(emitted) + HeldMouseEvents(mouseStates[..], MouseCount))
    {
      for i := 0 to mouseStates.Length
        invariant emitted == old(emitted) + HeldMouseEvents(mouseStates[..], i)
      {
        if mouseStates[i].Pressed? {
          emitted := emitted + [MouseDownEmitted(GetMouse(i), true)];
        }
      }
    }

    /** EmitEvents: the polled events, then a held MouseDown per pressed button, then a move if the mouse moved. */
    method EmitEvents(events: seq<SdlEvent>, reportedX: int, reportedY: int)
      requires Valid() && forall e <- events :: EventFits(e, keyStates.Length)
      modifies keyStates, keyTimestamps, mouseStates, mouseTimestamps,
               this`mouseX, this`mouseY, this`scrollX, this`scrollY, this`scrollDeltaX, this`scrollDeltaY,
               this`scrollTime, this`stopped, this`emitted
      ensures Valid()
      ensures Snap() == EmitAll(old(Snap()), events, reportedX, reportedY)
    {
      Poll(events);
      EmitHeld();
      var dx, dy := reportedX - mouseX, reportedY - mouseY;
      if dx != 0 || dy != 0 {
        mouseX, mouseY := reportedX, reportedY;
        emitted := emitted + [MouseMove(reportedX, reportedY, dx, dy)];
      }
    }

    /** Update: advance the frame, then poll. */
    method Update(now: nat, events: seq<SdlEvent>, reportedX: int, reportedY: int)
      requires Valid() && forall e <- events :: EventFits(e, keyStates.Length)
      modifies this, keyStates, keyTimestamps, mouseStates, mouseTimestamps
      ensures Valid()
      ensures keyStates == old(keyStates) && mouseStates == old(mouseStates)
      ensures Snap() == EmitAll(SettleSnap(old(Snap()), now), events, reportedX, reportedY)
      ensures previousMouseX == old(mouseX) && previousMouseY == old(mouseY)
      ensures events == [] ==> forall i :: 0 <= i < keyStates.Length ==> keyStates[i] == Settled(old(keyStates[i]))
      ensures events == [] ==> forall i :: 0 <= i < MouseCount ==> mouseStates[i] == Settled(old(mouseStates[i]))
    {
      Settle(now);
      ghost var settled := Snap();
      EmitEvents(events, reportedX, reportedY);
      assert events == [] ==> ProcessEvents(settled, events) == settled;
    }
  }

  /** Both loops of Update over one table. The source runs the key and
   *  mouse tables' first loops before their second loops; the tables are
   *  distinct, so the order between them does not matter. */
  method SettleTable(states: array<KeyState>, times: array<nat>, now: nat)
    requires states.Length == times.Length
    modifies states, times
    ensures states[..] == SettleStates(old(states[..]))
    ensures times[..] == SettleTimes(old(states[..]), old(times[..]), now)
  {
    ReleaseUps(states, times, now);
    PressDowns(states);
  }

  /** The first loop of Update over one table: every Up becomes Released, stamped with now. */
  method ReleaseUps(states: array<KeyState>, times: array<nat>, now: nat)
    requires states.Length == times.Length
    modifies states, times
    ensures forall i :: 0 <= i < states.Length ==> states[i] == if old(states[i]).Up? then Released else old(states[i])
    ensures forall i :: 0 <= i < states.Length ==> times[i] == if old(states[i]).Up? then now else old(times[i])
  {
    for i := 0 to states.Length
      invariant forall j :: 0 <= j < i ==> states[j] == if old(states[j]).Up? then Released else old(states[j])
      invariant forall j :: 0 <= j < i ==> times[j] == if old(states[j]).Up? then now else old(times[j])
      invariant forall j :: i <= j < states.Length ==> states[j] == old(states[j]) && times[j] == old(times[j])
    {
      if states[i].Up? {
        times[i] := now;
        states[i] := Released;
      }
    }
  }

  /** The second loop of Update over one table: every Down becomes Pressed. */
  method PressDowns(states: array<KeyState>)
    modifies states
    ensures forall i :: 0 <= i < states.Length ==> states[i] == if old(states[i]).Down? then Pressed else old(states[i])
  {
    for i := 0 to states.Length
      invariant forall j :: 0 <= j < i ==> states[j] == if old(states[j]).Down? then Pressed else old(states[j])
      invariant forall j :: i <= j < states.Length ==> states[j] == old(states[j])
    {
      if states[i].Down? {
        states[i] := Pressed;
      }
    }
  }
}
