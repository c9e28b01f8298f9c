/**
 * The button entity of engine/src/ui/button.cpp: the internal state machine
 * driven by mouse handlers, the enable flags, the queued button actions, the
 * toggle flag, the line widths, and the toggle button group.
 *
 * The entity-component store is abstracted as fields of a Button object: a
 * component that may be missing is an Option. Handing an action to the
 * entity's Scripts is recorded by appending it to `actions`.
 */
module EngineButton {

  import opened Wrappers
  import opened ButtonTypes

  import Input

  type Mouse = Input.Mouse

  /** The button script actions a button queues. */
  datatype ButtonAction = OnButtonActivate | OnButtonHoverStart | OnButtonHover | OnButtonHoverStop

  /** The reported state of an internal state. */
  function StateOf(s: InternalButtonState): (r: ButtonState)
    ensures r != Current
    ensures r == ButtonState.Hover <==> s.Hover? || s.HoverPressed?
    ensures r == ButtonState.Pressed <==> s.Pressed? || s.HeldOutside?
    ensures r == Default <==> s.IdleUp? || s.IdleDown?
  {
    if s.Hover? || s.HoverPressed? then ButtonState.Hover
    else if s.Pressed? || s.HeldOutside? then ButtonState.Pressed
    else Default
  }

  /** The state after the mouse moves over the button (hover enabled). */
  function MoveOverState(s: InternalButtonState): (r: InternalButtonState)
    ensures StateOf(r) != Default
    ensures r == s <==> s.Hover? || s.Pressed? || s.HoverPressed?
  {
    match s
    case IdleUp => InternalButtonState.Hover
    case IdleDown => HoverPressed
    case HeldOutside => InternalButtonState.Pressed
    case _ => s
  }

  /** The actions a move over queues: hover start on entering, then hover, except when regaining a held press. */
  function MoveOverActions(s: InternalButtonState): (r: seq<ButtonAction>)
    ensures s.HeldOutside? <==> r == []
    ensures r != [] ==> r[|r| - 1] == OnButtonHover
    ensures (OnButtonHoverStart in r) <==> s.IdleUp? || s.IdleDown?
  {
    match s
    case IdleUp => [OnButtonHoverStart, OnButtonHover]
    case IdleDown => [OnButtonHoverStart, OnButtonHover]
    case HeldOutside => []
    case _ => [OnButtonHover]
  }

  /** The state after the mouse moves out of the button (hover enabled). */
  function MoveOutState(s: InternalButtonState): (r: InternalButtonState)
    ensures StateOf(r) != ButtonState.Hover
    ensures r == s <==> s.IdleUp? || s.IdleDown? || s.HeldOutside?
  {
    match s
    case Hover => IdleUp
    case Pressed => HeldOutside
    case HoverPressed => IdleDown
    case _ => s
  }

  /** Moving out stops hovering exactly when the state changes. */
  function MoveOutActions(s: InternalButtonState): (r: seq<ButtonAction>)
    ensures r == (if MoveOutState(s) != s then [OnButtonHoverStop] else [])
  {
    if s.Hover? || s.Pressed? || s.HoverPressed?
    then [OnButtonHoverStop] else []
  }

  /** Moving out undoes moving over, and moving over undoes moving out, on the states each one changes. */
  lemma MoveOverOutInverse(s: InternalButtonState)
    ensures s.IdleUp? || s.IdleDown? || s.HeldOutside? ==> MoveOutState(MoveOverState(s)) == s
    ensures s.Hover? || s.Pressed? || s.HoverPressed? ==>
              MoveOverState(MoveOutState(s)) == s
  {
  }

  /** A pressed left button over the button: only Hover becomes Pressed. */
  function DownOverState(mouse: Mouse, s: InternalButtonState): (r: InternalButtonState)
    ensures r != s <==> mouse.Left? && s.Hover?
    ensures r != s ==> r == InternalButtonState.Pressed
  {
    if mouse.Left? && s.Hover? then InternalButtonState.Pressed else s
  }

  /** A pressed left button outside the button: only IdleUp becomes IdleDown. */
  function DownOutState(mouse: Mouse, s: InternalButtonState): (r: InternalButtonState)
    ensures r != s <==> mouse.Left? && s.IdleUp?
    ensures r != s ==> r == IdleDown
  {
    if mouse.Left? && s.IdleUp? then IdleDown else s
  }

  /** A released left button over the button: Pressed and HoverPressed become Hover. */
  function UpOverState(mouse: Mouse, s: InternalButtonState): (r: InternalButtonState)
    ensures r != s <==> mouse.Left? && (s.Pressed? || s.HoverPressed?)
    ensures r != s ==> r == InternalButtonState.Hover
  {
    if mouse.Left? && (s.Pressed? || s.HoverPressed?)
    then InternalButtonState.Hover else s
  }

  /** Only a release that completes a press started over the button activates it. */
  predicate UpOverActivates(mouse: Mouse, s: InternalButtonState)
  {
    mouse.Left? && s.Pressed?
  }

  /** A released left button outside the button: IdleDown and HeldOutside become IdleUp. */
  function UpOutState(mouse: Mouse, s: InternalButtonState): (r: InternalButtonState)
    ensures r != s <==> mouse.Left? && (s.IdleDown? || s.HeldOutside?)
    ensures r != s ==> r == IdleUp
  {
    if mouse.Left? && (s.IdleDown? || s.HeldOutside?) then IdleUp else s
  }

  /** A left click over a hovered button returns it to Hover and activates it. */
  lemma ClickActivates(s: InternalButtonState)
    requires s.Hover?
    ensures UpOverActivates(Input.Left, DownOverState(Input.Left, s))
    ensures UpOverState(Input.Left, DownOverState(Input.Left, s)) == s
  {
  }

  /** Pressing outside, dragging in and releasing does not activate. */
  lemma DragInDoesNotActivate()
    ensures MoveOverState(DownOutState(Input.Left, IdleUp)) == HoverPressed
    ensures !UpOverActivates(Input.Left, HoverPressed) && UpOverState(Input.Left, HoverPressed) == InternalButtonState.Hover
  {
  }

  class Button {
    var state: InternalButtonState
    /** The ButtonEnabled component, if the entity has one. */
    var enabled: Option<ButtonEnabled>
    /** Whether the entity has a Scripts component to queue actions on. */
    var hasScripts: bool
    /** The actions handed to the entity's Scripts so far. */
    var actions: seq<ButtonAction>
    /** The ButtonToggled component of a toggle button. */
    var toggled: Option<bool>
    /** The toggle group key of a button loaded into a group. */
    var groupKey: Option<nat>
    var backgroundWidth: Option<real>
    var borderWidth: Option<real>

    /** CreateButton: IdleUp, enabled for activation and hover, no actions yet. */
    constructor (hasScripts: bool)
      ensures state.IdleUp? && enabled == Some(DefaultButtonEnabled)
      ensures this.hasScripts == hasScripts && actions == []
      ensures toggled == None && groupKey == None
      ensures backgroundWidth == None && borderWidth == None
    {
      state := IdleUp;
      enabled := Some(DefaultButtonEnabled);
      this.hasScripts := hasScripts;
      actions := [];
      toggled := None;
      groupKey := None;
      backgroundWidth := None;
      borderWidth := None;
    }

    /** False without a ButtonEnabled component; otherwise the hover or the activate flag. */
    function IsEnabled(checkForHoverEnabled: bool): (r: bool)
      reads this
      ensures enabled.None? ==> !r
      ensures enabled.Some? ==> r == (if checkForHoverEnabled then enabled.value.hover else enabled.value.activate)
    {
      match enabled
      case None => false
      case Some(e) => if checkForHoverEnabled then e.hover else e.activate
    }

    method SetEnabled(enableActivation: bool, enableHover: bool, resetState: bool)
      modifies this`enabled, this`state
      ensures enabled == Some(ButtonEnabled(enableActivation, enableHover))
      ensures IsEnabled(false) == enableActivation && IsEnabled(true) == enableHover
      ensures state == if resetState then IdleUp else old(state)
    {
      enabled := Some(ButtonEnabled(enableActivation, enableHover));
      if resetState {
        state := IdleUp;
      }
    }

    method Enable(enableHover: bool, resetState: bool)
      modifies this`enabled, this`state
      ensures enabled == Some(ButtonEnabled(true, enableHover))
      ensures state == if resetState then IdleUp else old(state)
    {
      SetEnabled(true, enableHover, resetState);
    }

    method Disable(disableHover: bool, resetState: bool)
      modifies this`enabled, this`state
      ensures enabled == Some(ButtonEnabled(false, !disableHover))
      ensures state == if resetState then IdleUp else old(state)
    {
      SetEnabled(false, !disableHover, resetState);
    }

    /** Queues an action when the relevant flag is on and the entity has scripts. */
    method Queue(action: ButtonAction, checkForHoverEnabled: bool)
      modifies this`actions
      ensures actions == old(actions) + (if IsEnabled(checkForHoverEnabled) && hasScripts then [action] else [])
    {
      if IsEnabled(checkForHoverEnabled) && hasScripts {
        actions := actions + [action];
      }
    }

    method Activate()
      modifies this`actions
      ensures actions == old(actions) + (if IsEnabled(false) && hasScripts then [OnButtonActivate] else [])
    {
      Queue(OnButtonActivate, false);
    }

    method StartHover()
      modifies this`actions
      ensures actions == old(actions) + (if IsEnabled(true) && hasScripts then [OnButtonHoverStart] else [])
    {
      Queue(OnButtonHoverStart, true);
    }

    method ContinueHover()
      modifies this`actions
      ensures actions == old(actions) + (if IsEnabled(true) && hasScripts then [OnButtonHover] else [])
    {
      Queue(OnButtonHover, true);
    }

    method StopHover()
      modifies this`actions
      ensures actions == old(actions) + (if IsEnabled(true) && hasScripts then [OnButtonHoverStop] else [])
    {
      Queue(OnButtonHoverStop, true);
    }

    method OnMouseMoveOver()
      modifies this`state, this`actions
      ensures !IsEnabled(true) ==> state == old(state) && actions == old(actions)
      ensures IsEnabled(true) ==> state == MoveOverState(old(state))
      ensures IsEnabled(true) ==> actions == old(actions) + (if hasScripts then MoveOverActions(old(state)) else [])
    {
      if !IsEnabled(true) {
        return;
      }
      if state.IdleUp? {
        state := InternalButtonState.Hover;
        StartHover();
      } else if state.IdleDown? {
        state := HoverPressed;
        StartHover();
      } else if state.HeldOutside? {
        state := InternalButtonState.Pressed;
        return;
      }
      ContinueHover();
    }

    method OnMouseMoveOut()
      modifies this`state, this`actions
      ensures !IsEnabled(true) ==> state == old(state) && actions == old(actions)
      ensures IsEnabled(true) ==> state == MoveOutState(old(state))
      ensures IsEnabled(true) ==> actions == old(actions) + (if hasScripts then MoveOutActions(old(state)) else [])
    {
      if !IsEnabled(true) {
        return;
      }
      if state.Hover? {
        state := IdleUp;
        StopHover();
      } else if state.Pressed? {
        state := HeldOutside;
        StopHover();
      } else if state.HoverPressed? {
        state := IdleDown;
        StopHover();
      }
    }

    method OnMouseDownOver(mouse: Mouse)
      modifies this`state
      ensures state == if IsEnabled(false) then DownOverState(mouse, old(state)) else old(state)
    {
      if !IsEnabled(false) {
        return;
      }
      if mouse.Left? && state.Hover? {
        state := InternalButtonState.Pressed;
      }
    }

    method OnMouseDownOut(mouse: Mouse)
      modifies this`state
      ensures state == if IsEnabled(false) then DownOutState(mouse, old(state)) else old(state)
    {
      if !IsEnabled(false) {
        return;
      }
      if mouse.Left? && state.IdleUp? {
        state := IdleDown;
      }
    }

    method OnMouseUpOver(mouse: Mouse)
      modifies this`state, this`actions
      ensures state == if IsEnabled(false) then UpOverState(mouse, old(state)) else old(state)
      ensures actions == old(actions) +
        (if IsEnabled(false) && UpOverActivates(mouse, old(state)) && hasScripts then [OnButtonActivate] else [])
    {
      if !IsEnabled(false) {
        return;
      }
      if mouse.Left? {
        if state.Pressed? {
          state := InternalButtonState.Hover;
          Activate();
        } else if state.HoverPressed? {
          state := InternalButtonState.Hover;
        }
      }
    }

    method OnMouseUpOut(mouse: Mouse)
      modifies this`state
      ensures state == if IsEnabled(false) then UpOutState(mouse, old(state)) else old(state)
    {
      if !IsEnabled(false) {
        return;
      }
      if mouse.Left? {
        if state.IdleDown? {
          state := IdleUp;
        } else if state.HeldOutside? {
          state := IdleUp;
        }
      }
    }

    /** Hover for Hover and HoverPressed, Pressed for Pressed and HeldOutside, else Default. */
    function GetState(): (r: ButtonState)
      reads this
      ensures r == StateOf(state)
    {
      StateOf(state)
    }

    function GetBackgroundLineWidth(): (r: real)
      reads this
      ensures backgroundWidth.None? ==> r == DefaultBackgroundWidth
    {
      if backgroundWidth.Some? then backgroundWidth.value else DefaultBackgroundWidth
    }

    /** Widths in [0, 1) drop the component, so the background falls back to solid. */
    method SetBackgroundLineWidth(lineWidth: real)
      requires lineWidth >= 0.0 || lineWidth == -1.0
      modifies this`backgroundWidth
      ensures GetBackgroundLineWidth() == if lineWidth != -1.0 && lineWidth < 1.0 then DefaultBackgroundWidth else lineWidth
    {
      if lineWidth != -1.0 && lineWidth < 1.0 {
        backgroundWidth := None;
      } else {
        backgroundWidth := Some(lineWidth);
      }
    }

    function GetBorderWidth(): (r: real)
      reads this
      ensures borderWidth.None? ==> r == DefaultBorderWidth
    {
      if borderWidth.Some? then borderWidth.value else DefaultBorderWidth
    }

    /** A zero width drops the component, so the getter reports the default again. */
    method SetBorderWidth(lineWidth: real)
      requires lineWidth >= 1.0 || lineWidth == 0.0
      modifies this`borderWidth
      ensures GetBorderWidth() == if lineWidth == 0.0 then DefaultBorderWidth else lineWidth
    {
      if lineWidth == 0.0 {
        borderWidth := None;
      } else {
        borderWidth := Some(lineWidth);
      }
    }

    /** ToggleButton::IsToggled: the stored toggle state. */
    function IsToggled(): (r: bool)
      reads this
      requires toggled.Some?
      ensures r <==> toggled == Some(true)
    {
      toggled.value
    }

    method SetToggled(t: bool)
      requires toggled.Some?
      modifies this`toggled
      ensures toggled == Some(t)
    {
      toggled := Some(t);
    }

    method Toggle()
      requires toggled.Some?
      modifies this`toggled
      ensures toggled == Some(!old(toggled.value))
    {
      toggled := Some(!toggled.value);
    }

    /** ToggleButtonScript::OnButtonActivate: flips the toggle when activation is enabled. */
    method OnToggleScriptActivate()
      requires toggled.Some?
      modifies this`toggled
      ensures toggled == Some(if IsEnabled(false) then !old(toggled.value) else old(toggled.value))
    {
      if !IsEnabled(false) {
        return;
      }
      Toggle();
    }
  }

  /** True when no two keys of the group share one button entity. */
  ghost predicate Injective(buttons: map<nat, Button>)
  {
    forall k, j :: k in buttons && j in buttons && k != j ==> buttons[k] != buttons[j]
  }

  /** A toggle button group: buttons by key, and the key last made active. */
  class ToggleButtonGroup {
    var active: nat
    var buttons: map<nat, Button>

    /** Every button of the group is a toggle button. */
    ghost predicate Valid()
      reads this, buttons.Values
    {
      forall k :: k in buttons ==> buttons[k].toggled.Some?
    }

    constructor ()
      ensures Valid() && active == 0 && buttons == map[]
    {
      active := 0;
      buttons := map[];
    }

    /** Stores the button under the key, replacing one already there, and tags it with the key. */
    method Load(key: nat, button: Button)
      requires Valid() && button.toggled.Some?
      modifies this`buttons, button`groupKey
      ensures Valid()
      ensures buttons == old(buttons)[key := button]
      ensures button.groupKey == Some(key)
    {
      button.groupKey := Some(key);
      buttons := buttons[key := button];
    }

    /** Erases the key; a key that is not loaded changes nothing. */
    method Unload(key: nat)
      requires Valid()
      modifies this`buttons
      ensures Valid()
      ensures buttons == old(buttons) - {key}
      ensures key !in old(buttons) ==> buttons == old(buttons)
    {
      if key !in buttons {
        return;
      }
      buttons := buttons - {key};
    }

    /** The active key, provided it is still loaded and its button is toggled. */
    function GetActive(): (r: Option<nat>)
      reads this, buttons.Values
      requires Valid()
      ensures r.Some? <==> active in buttons && buttons[active].toggled == Some(true)
      ensures r.Some? ==> r.value == active
    {
      if active in buttons && buttons[active].IsToggled() then Some(active) else None
    }

    /** Clears every toggle of the group, then toggles the button of the key and makes it active. */
    method SetActive(key: nat)
      requires Valid() && key in buttons
      modifies this`active, buttons.Values`toggled
      ensures Valid() && buttons == old(buttons) && active == key
      ensures buttons[key].toggled == Some(true)
      ensures forall k :: k in buttons && buttons[k] != buttons[key] ==> buttons[k].toggled == Some(false)
      ensures Injective(buttons) ==> forall k :: k in buttons ==> buttons[k].toggled == Some(k == key)
      ensures GetActive() == Some(key)
    {
      var rest := buttons.Keys;
      while rest != {}
        invariant rest <= buttons.Keys && buttons == old(buttons)
        invariant Valid()
        invariant forall k :: k in buttons.Keys - rest ==> buttons[k].toggled == Some(false)
        decreases rest
      {
        var k :| k in rest;
        buttons[k].SetToggled(false);
        rest := rest - {k};
      }
      active := key;
      buttons[key].SetToggled(true);
    }

    /** ToggleButtonGroupScript::OnButtonActivate: an activated member becomes the active one. */
    method OnGroupScriptActivate(self: Button)
      requires Valid() && self.groupKey.Some? && self.groupKey.value in buttons
      modifies this`active, buttons.Values`toggled
      ensures Valid() && buttons == old(buttons)
      ensures self.IsEnabled(false) ==> active == old(self.groupKey.value) && GetActive() == Some(active)
      ensures !self.IsEnabled(false) ==> active == old(active) && unchanged(buttons.Values)
    {
      if !self.IsEnabled(false) {
        return;
      }
      SetActive(self.groupKey.value);
    }
  }
}
