/**
 * The older button class of src/ui/button.cpp. Its handlers update
 * button_state_, enabled_ and toggled_ on the object; user callbacks are
 * recorded in `calls`. Whether the mouse pointer is currently inside the
 * button rectangle is a field the environment sets (`pointerInside`), since
 * RecheckState reads the live mouse position.
 */
module LegacyButton {

  import opened ButtonTypes
  import EngineButton

  type Mouse = EngineButton.Mouse

  /** The user callbacks a button can invoke. */
  datatype Callback = Activated | HoverStarted | HoverStopped | Enabled | Disabled

  /** The kinds of mouse event the button subscribes to. */
  datatype MouseEvent = Move(isIn: bool, wasIn: bool) | Down(mouse: Mouse, isIn: bool) | Up(mouse: Mouse, isIn: bool)

  /** Button::GetState: Hover only for Hover, Pressed only for Pressed, otherwise Default. */
  function StateOf(s: InternalButtonState): (r: ButtonState)
    ensures r == ButtonState.Hover <==> s.Hover?
    ensures r == ButtonState.Pressed <==> s.Pressed?
    ensures r == Default <==> !s.Hover? && !s.Pressed?
  {
    if s.Hover? then ButtonState.Hover
    else if s.Pressed? then ButtonState.Pressed
    else Default
  }

  /** Unlike the newer GetState, a press dragged outside or a hover while held reads as Default. */
  lemma StateOfDiffersFromEngine(s: InternalButtonState)
    ensures StateOf(s) != EngineButton.StateOf(s) <==> s.HeldOutside? || s.HoverPressed?
  {
  }

  /** OnMouseMove inside the rectangle: only IdleUp starts hovering. */
  function MoveInsideState(s: InternalButtonState): (r: InternalButtonState)
    ensures r != s <==> s.IdleUp?
    ensures r != s ==> r.Hover?
  {
    if s.IdleUp? then InternalButtonState.Hover else s
  }

  /** OnMouseMoveOutside: only Hover returns to IdleUp. */
  function MoveOutsideState(s: InternalButtonState): (r: InternalButtonState)
    ensures r != s <==> s.Hover?
    ensures r != s ==> r.IdleUp?
  {
    if s.Hover? then IdleUp else s
  }

  /** What a handler does: the state it leaves and the callbacks it
   *  invoked, in order. */
  datatype Reaction = Reaction(state: InternalButtonState, calls: seq<Callback>)

  class Button {
    var state: InternalButtonState
    var enabled: bool
    var subscribed: bool
    var pointerInside: bool
    var hasOnActivate: bool
    var hasOnHoverStart: bool
    var hasOnHoverStop: bool
    var hasOnEnable: bool
    var hasOnDisable: bool
    /** Whether this is a ToggleButton, whose OnMouseUp override flips `toggled`. */
    var isToggle: bool
    var toggled: bool
    var calls: seq<Callback>

    /** A button is subscribed to mouse events on construction and rechecks its state. */
    constructor (onActivate: bool, isToggle: bool, initiallyToggled: bool, pointerInside: bool)
      ensures subscribed && enabled && this.isToggle == isToggle && toggled == initiallyToggled
      ensures hasOnActivate == onActivate && !hasOnHoverStart && !hasOnHoverStop && !hasOnEnable && !hasOnDisable
      ensures this.pointerInside == pointerInside
      ensures state == if pointerInside then InternalButtonState.Hover else IdleUp
      ensures calls == []
    {
      state := IdleUp;
      enabled := true;
      subscribed := true;
      this.pointerInside := pointerInside;
      hasOnActivate := onActivate;
      hasOnHoverStart, hasOnHoverStop, hasOnEnable, hasOnDisable := false, false, false, false;
      this.isToggle := isToggle;
      toggled := initiallyToggled;
      calls := [];
      new;
      RecheckState();
    }

    /** The callbacks invoked when entering, starting hover. */
    function HoverStartCalls(): seq<Callback>
      reads this
    {
      if enabled && hasOnHoverStart then [HoverStarted] else []
    }

    function HoverStopCalls(): seq<Callback>
      reads this
    {
      if enabled && hasOnHoverStop then [HoverStopped] else []
    }

    /** The Move case of OnMouseEvent on an enabled button in state `s`:
     *  OnMouseMove or OnMouseMoveOutside, then OnMouseEnter or
     *  OnMouseLeave when the pointer crossed the border. */
    function Moved(s: InternalButtonState, isIn: bool, wasIn: bool): Reaction
      reads this
    {
      var first := if isIn then Reaction(MoveInsideState(s), if s.IdleUp? then HoverStartCalls() else [])
                   else Reaction(MoveOutsideState(s), if s.Hover? then HoverStopCalls() else []);
      if isIn && !wasIn then Reaction(EngineButton.MoveOverState(first.state), first.calls + HoverStartCalls())
      else if !isIn && wasIn then Reaction(EngineButton.MoveOutState(first.state), first.calls + HoverStopCalls())
      else first
    }

    /** RecheckState from `s`: a move from outside to the pointer. */
    function Rechecked(s: InternalButtonState): Reaction
      reads this
    {
      if enabled then Moved(s, pointerInside, false) else Reaction(s, [])
    }

    /** Activate from `s`: the activate callback, then a recheck. */
    function ActivatedBy(s: InternalButtonState): Reaction
      reads this
    {
      if enabled then Reaction(Rechecked(s).state, [Activated] + Rechecked(s).calls) else Reaction(s, [])
    }

    /** OnMouseUp over an enabled button in state `s`: a completed press
     *  activates; a plain button then rechecks, a toggle button does not. */
    function Released(mouse: Mouse, s: InternalButtonState): Reaction
      reads this
    {
      var up := EngineButton.UpOverState(mouse, s);
      var a := if EngineButton.UpOverActivates(mouse, s) && hasOnActivate then ActivatedBy(up) else Reaction(up, []);
      if isToggle then a else Reaction(Rechecked(a.state).state, a.calls + Rechecked(a.state).calls)
    }

    method StartHover()
      requires enabled ==> hasOnHoverStart
      modifies this`calls
      ensures calls == old(calls) + (if enabled then [HoverStarted] else [])
    {
      if !enabled {
        return;
      }
      calls := calls + [HoverStarted];
    }

    method StopHover()
      requires enabled ==> hasOnHoverStop
      modifies this`calls
      ensures calls == old(calls) + (if enabled then [HoverStopped] else [])
    {
      if !enabled {
        return;
      }
      calls := calls + [HoverStopped];
    }

    /** OnMouseMove: the pointer is over the button. */
    method OnMouseMove()
      modifies this`state, this`calls
      ensures !old(enabled) ==> state == old(state) && calls == old(calls)
      ensures old(enabled) ==> state == MoveInsideState(old(state))
      ensures old(enabled) ==> calls == old(calls) + if old(state).IdleUp? then HoverStartCalls() else []
    {
      if !enabled {
        return;
      }
      if state.IdleUp? {
        state := InternalButtonState.Hover;
        if hasOnHoverStart {
          StartHover();
        }
      }
    }

    method OnMouseMoveOutside()
      modifies this`state, this`calls
      ensures !old(enabled) ==> state == old(state) && calls == old(calls)
      ensures old(enabled) ==> state == MoveOutsideState(old(state))
      ensures old(enabled) ==> calls == old(calls) + if old(state).Hover? then HoverStopCalls() else []
    {
      if !enabled {
        return;
      }
      if state.Hover? {
        state := IdleUp;
        if hasOnHoverStop {
          StopHover();
        }
      }
    }

    /** OnMouseEnter: IdleUp to Hover, IdleDown to HoverPressed, HeldOutside to Pressed. */
    method OnMouseEnter()
      modifies this`state, this`calls
      ensures !old(enabled) ==> state == old(state) && calls == old(calls)
      ensures old(enabled) ==> state == EngineButton.MoveOverState(old(state))
      ensures old(enabled) ==> calls == old(calls) + HoverStartCalls()
    {
      if !enabled {
        return;
      }
      if state.IdleUp? {
        state := InternalButtonState.Hover;
      } else if state.IdleDown? {
        state := HoverPressed;
      } else if state.HeldOutside? {
        state := InternalButtonState.Pressed;
      }
      if hasOnHoverStart {
        StartHover();
      }
    }

    /** OnMouseLeave: the inverse of OnMouseEnter on Hover, Pressed and HoverPressed. */
    method OnMouseLeave()
      modifies this`state, this`calls
      ensures !old(enabled) ==> state == old(state) && calls == old(calls)
      ensures old(enabled) ==> state == EngineButton.MoveOutState(old(state))
      ensures old(enabled) ==> calls == old(calls) + HoverStopCalls()
    {
      if !enabled {
        return;
      }
      if state.Hover? {
        state := IdleUp;
      } else if state.Pressed? {
        state := HeldOutside;
      } else if state.HoverPressed? {
        state := IdleDown;
      }
      if hasOnHoverStop {
        StopHover();
      }
    }

    method OnMouseDown(mouse: Mouse)
      modifies this`state
      ensures state == if enabled then EngineButton.DownOverState(mouse, old(state)) else old(state)
    {
      if !enabled {
        return;
      }
      if mouse.Left? && state.Hover? {
        state := InternalButtonState.Pressed;
      }
    }

    method OnMouseDownOutside(mouse: Mouse)
      modifies this`state
      ensures state == if enabled then EngineButton.DownOutState(mouse, old(state)) else old(state)
    {
      if !enabled {
        return;
      }
      if mouse.Left? && state.IdleUp? {
        state := IdleDown;
      }
    }

    method OnMouseUpOutside(mouse: Mouse)
      modifies this`state
      ensures state == if enabled then EngineButton.UpOutState(mouse, old(state)) else old(state)
    {
      if !enabled {
        return;
      }
      if mouse.Left? {
        if state.IdleDown? {
          state := IdleUp;
        } else if state.HeldOutside? {
          state := IdleUp;
        }
      }
    }

    /** The Move case of OnMouseEvent: move inside or outside, then enter or leave. */
    method OnMouseMoveEvent(isIn: bool, wasIn: bool)
      modifies this`state, this`calls
      ensures !old(enabled) ==> state == old(state) && calls == old(calls)
      ensures enabled && isIn && !wasIn ==> state == EngineButton.MoveOverState(old(state))
      ensures enabled && isIn && !wasIn ==>
        calls == old(calls) + (if old(state).IdleUp? then HoverStartCalls() else []) + HoverStartCalls()
      ensures enabled && !isIn && !wasIn ==> state == MoveOutsideState(old(state))
      ensures enabled && !isIn && !wasIn ==>
        calls == old(calls) + if old(state).Hover? then HoverStopCalls() else []
      ensures enabled && !isIn && wasIn ==> state == EngineButton.MoveOutState(MoveOutsideState(old(state)))
      ensures enabled && isIn && wasIn ==> state == MoveInsideState(old(state))
      ensures enabled && isIn && wasIn ==> calls == old(calls) + if old(state).IdleUp? then HoverStartCalls() else []
      ensures enabled && !isIn && wasIn ==>
        calls == old(calls) + (if old(state).Hover? then HoverStopCalls() else []) + HoverStopCalls()
      ensures enabled ==> state == Moved(old(state), isIn, wasIn).state && calls == old(calls) + Moved(old(state), isIn, wasIn).calls
    {
      if !enabled {
        return;
      }
      if isIn {
        OnMouseMove();
      } else {
        OnMouseMoveOutside();
      }
      if !wasIn && isIn {
        OnMouseEnter();
      } else if wasIn && !isIn {
        OnMouseLeave();
      }
    }

    /**
     * RecheckState: a synthetic move from a far-away point to the pointer,
     * so the button sees a move inside plus an enter, or a move outside.
     */
    method RecheckState()
      modifies this`state, this`calls
      ensures !enabled ==> state == old(state) && calls == old(calls)
      ensures enabled && pointerInside ==> state == EngineButton.MoveOverState(old(state))
      ensures enabled && !pointerInside ==> state == MoveOutsideState(old(state))
      ensures enabled && !pointerInside ==>
        calls == old(calls) + if old(state).Hover? then HoverStopCalls() else []
      ensures enabled && pointerInside ==>
        calls == old(calls) + (if old(state).IdleUp? then HoverStartCalls() else []) + HoverStartCalls()
      ensures state == Rechecked(old(state)).state && calls == old(calls) + Rechecked(old(state)).calls
    {
      OnMouseMoveEvent(pointerInside, false);
    }

    /** Activate: runs the activate callback, then rechecks the hover state. */
    method Activate()
      requires enabled ==> hasOnActivate
      modifies this`state, this`calls
      ensures !enabled ==> state == old(state) && calls == old(calls)
      ensures enabled ==> old(calls) + [Activated] <= calls
      ensures enabled && pointerInside ==> state == EngineButton.MoveOverState(old(state))
      ensures enabled && !pointerInside ==> state == MoveOutsideState(old(state))
      ensures state == ActivatedBy(old(state)).state && calls == old(calls) + ActivatedBy(old(state)).calls
    {
      if !enabled {
        return;
      }
      calls := calls + [Activated];
      RecheckState();
    }

    /** OnMouseUp, with the ToggleButton override when `isToggle` holds. */
    method OnMouseUp(mouse: Mouse)
      modifies this`state, this`calls, this`toggled
      ensures !old(enabled) ==> state == old(state) && calls == old(calls) && toggled == old(toggled)
      ensures old(enabled) && !isToggle ==> toggled == old(toggled)
      ensures old(enabled) && isToggle ==> toggled == (old(toggled) != EngineButton.UpOverActivates(mouse, old(state)))
      ensures old(enabled) && EngineButton.UpOverActivates(mouse, old(state)) && hasOnActivate ==>
        old(calls) + [Activated] <= calls
      ensures old(enabled) && !EngineButton.UpOverActivates(mouse, old(state)) && isToggle ==>
        state == EngineButton.UpOverState(mouse, old(state)) && calls == old(calls)
      ensures old(enabled) && !EngineButton.UpOverActivates(mouse, old(state)) && !isToggle && !pointerInside ==>
        state == MoveOutsideState(EngineButton.UpOverState(mouse, old(state)))
      ensures old(enabled) ==>
        state == Released(mouse, old(state)).state && calls == old(calls) + Released(mouse, old(state)).calls
    {
      if !enabled {
        return;
      }
      if isToggle {
        if mouse.Left? {
          if state.Pressed? {
            state := InternalButtonState.Hover;
            toggled := !toggled;
            if hasOnActivate {
              Activate();
            }
          } else if state.HoverPressed? {
            state := InternalButtonState.Hover;
          }
        }
        return;
      }
      if mouse.Left? {
        if state.Pressed? {
          state := InternalButtonState.Hover;
          if hasOnActivate {
            Activate();
          }
        } else if state.HoverPressed? {
          state := InternalButtonState.Hover;
        }
      }
      RecheckState();
    }

    /** OnMouseEvent: every handler is reached only while enabled_ is true. */
    method OnMouseEvent(e: MouseEvent)
      modifies this`state, this`calls, this`toggled
      ensures !old(enabled) ==> state == old(state) && calls == old(calls) && toggled == old(toggled)
      ensures e.Move? ==> toggled == old(toggled)
      ensures e.Move? && enabled && e.isIn && !e.wasIn ==> state == EngineButton.MoveOverState(old(state))
      ensures e.Move? && enabled && e.isIn && !e.wasIn ==>
        calls == old(calls) + (if old(state).IdleUp? then HoverStartCalls() else []) + HoverStartCalls()
      ensures e.Move? && enabled && !e.isIn && !e.wasIn ==> state == MoveOutsideState(old(state))
      ensures e.Move? && enabled && !e.isIn && !e.wasIn ==>
        calls == old(calls) + if old(state).Hover? then HoverStopCalls() else []
      ensures e.Move? && enabled && !e.isIn && e.wasIn ==> state == EngineButton.MoveOutState(MoveOutsideState(old(state)))
      ensures e.Move? && enabled && e.isIn && e.wasIn ==> state == MoveInsideState(old(state))
      ensures e.Down? && enabled ==>
        state == (if e.isIn then EngineButton.DownOverState(e.mouse, old(state)) else EngineButton.DownOutState(e.mouse, old(state)))
      ensures e.Down? ==> calls == old(calls)
      ensures e.Up? && !e.isIn ==> calls == old(calls) && toggled == old(toggled)
      ensures e.Up? && !e.isIn && enabled ==> state == EngineButton.UpOutState(e.mouse, old(state))
      ensures e.Move? && enabled ==>
        state == Moved(old(state), e.isIn, e.wasIn).state && calls == old(calls) + Moved(old(state), e.isIn, e.wasIn).calls
      ensures e.Up? && e.isIn && enabled ==>
        state == Released(e.mouse, old(state)).state && calls == old(calls) + Released(e.mouse, old(state)).calls &&
        toggled == (if isToggle then old(toggled) != EngineButton.UpOverActivates(e.mouse, old(state)) else old(toggled))
    {
      if !enabled {
        return;
      }
      match e
      case Move(isIn, wasIn) =>
        OnMouseMoveEvent(isIn, wasIn);
      case Down(mouse, isIn) =>
        if isIn {
          OnMouseDown(mouse);
        } else {
          OnMouseDownOutside(mouse);
        }
      case Up(mouse, isIn) =>
        if isIn {
          OnMouseUp(mouse);
        } else {
          OnMouseUpOutside(mouse);
        }
    }

    /** SetInteractable: enabling subscribes and rechecks; disabling unsubscribes and resets to IdleUp. */
    method SetInteractable(interactable: bool)
      modifies this`state, this`calls, this`enabled, this`subscribed
      ensures interactable && !old(subscribed) ==> enabled && subscribed
      ensures interactable && !old(subscribed) ==>
        state == Rechecked(old(state)).state &&
        calls == old(calls) + Rechecked(old(state)).calls + (if hasOnEnable then [Enabled] else [])
      ensures !interactable && old(subscribed) ==> !enabled && !subscribed && state.IdleUp?
      ensures !interactable && old(subscribed) ==>
        calls == old(calls) + (if old(enabled) && hasOnHoverStop then [HoverStopped] else [])
             + (if hasOnDisable then [Disabled] else [])
      ensures (interactable == old(subscribed)) ==>
        state == old(state) && calls == old(calls) && enabled == old(enabled) && subscribed == old(subscribed)
    {
      if interactable && !subscribed {
        enabled := interactable;
        subscribed := true;
        RecheckState();
        if hasOnEnable {
          calls := calls + [Enabled];
        }
      } else if !interactable && subscribed {
        subscribed := false;
        state := IdleUp;
        if hasOnHoverStop {
          StopHover();
        }
        enabled := interactable;
        if hasOnDisable {
          calls := calls + [Disabled];
        }
      }
    }

    /** Entering from IdleUp invokes the hover-start callback twice: once
     *  from OnMouseMove and once from OnMouseEnter. */
    lemma EnterFromIdleHoversTwice()
      requires enabled && hasOnHoverStart
      ensures Moved(IdleUp, true, false) == Reaction(InternalButtonState.Hover, [HoverStarted, HoverStarted])
    {
    }

    /** A recheck settles the state: a second one leaves it where the
     *  first did. */
    lemma RecheckSettles(s: InternalButtonState)
      ensures Rechecked(Rechecked(s).state).state == Rechecked(s).state
    {
    }

    /** A left release that completes a press on a plain button with the
     *  pointer still inside: one activation, the button hovers, and each
     *  of the two rechecks (Activate's and OnMouseUp's) enters it anew. */
    lemma ReleaseInsideActivatesOnce()
      requires enabled && !isToggle && hasOnActivate && pointerInside
      ensures Released(Mouse.Left, InternalButtonState.Pressed) ==
                Reaction(InternalButtonState.Hover, [Activated] + HoverStartCalls() + HoverStartCalls())
    {
    }

    /** The same release with the pointer gone from the button: the hover
     *  the release set is stopped by the first recheck. */
    lemma ReleaseOutsideStopsHover()
      requires enabled && !isToggle && hasOnActivate && !pointerInside
      ensures Released(Mouse.Left, InternalButtonState.Pressed) == Reaction(IdleUp, [Activated] + HoverStopCalls())
    {
    }

    /** A toggle button's release rechecks only through Activate. */
    lemma ToggleReleaseActivates()
      requires enabled && isToggle && hasOnActivate && pointerInside
      ensures Released(Mouse.Left, InternalButtonState.Pressed) ==
                Reaction(InternalButtonState.Hover, [Activated] + HoverStartCalls())
    {
    }

    /** A release that completes no press activates nothing. */
    lemma ReleaseWithoutPressQuiet(mouse: Mouse, s: InternalButtonState)
      requires enabled && !EngineButton.UpOverActivates(mouse, s)
      ensures Activated !in Released(mouse, s).calls
    {
    }

    function GetState(): (r: ButtonState)
      reads this
      ensures r == StateOf(state)
    {
      StateOf(state)
    }

    /** ToggleButton::Toggle: activates, then flips the toggle. */
    method Toggle()
      requires enabled ==> hasOnActivate
      modifies this`state, this`calls, this`toggled
      ensures toggled == !old(toggled)
      ensures enabled ==> old(calls) + [Activated] <= calls
      ensures state == ActivatedBy(old(state)).state && calls == old(calls) + ActivatedBy(old(state)).calls
    {
      Activate();
      toggled := !toggled;
    }
  }
}
