/**
 * The value types of engine/src/ui/button.h: the public and internal button
 * states, the per-state colour and texture records, the line-width defaults
 * and the enable flags.
 */
module ButtonTypes {

  import opened Wrappers

  /** The state a button reports to drawing code. */
  datatype ButtonState = Default | Hover | Pressed | Current

  /** The six states of the internal button state machine. */
  datatype InternalButtonState = IdleUp | Hover | Pressed | HeldOutside | IdleDown | HoverPressed

  /** The numeric value the enum declares for each internal state. */
  function Ordinal(s: InternalButtonState): (n: nat)
    ensures n < 6
    ensures FromOrdinal(n) == s
  {
    match s
    case IdleUp => 0
    case Hover => 1
    case Pressed => 2
    case HeldOutside => 3
    case IdleDown => 4
    case HoverPressed => 5
  }

  /** The internal state with a given numeric value. */
  function FromOrdinal(n: nat): (s: InternalButtonState)
    requires n < 6
  {
    if n == 0 then IdleUp
    else if n == 1 then InternalButtonState.Hover
    else if n == 2 then InternalButtonState.Pressed
    else if n == 3 then HeldOutside
    else if n == 4 then IdleDown
    else HoverPressed
  }

  /** The enum has exactly six values, numbered 0 to 5 without gaps or repeats. */
  lemma OrdinalsAreExactlyZeroToFive()
    ensures forall n: nat :: n < 6 ==> Ordinal(FromOrdinal(n)) == n
    ensures forall s, t :: Ordinal(s) == Ordinal(t) ==> s == t
  {
    forall n: nat | n < 6 ensures Ordinal(FromOrdinal(n)) == n {
      if n == 0 {} else if n == 1 {} else if n == 2 {} else if n == 3 {} else if n == 4 {} else {}
    }
  }

  /** An RGBA colour; its channels are opaque to the button logic. */
  datatype Color = Color(r: int, g: int, b: int, a: int)

  /** A colour per button state, plus the one currently shown. */
  datatype ButtonColor = ButtonColor(current: Color, default: Color, hover: Color, pressed: Color)
  {
    /** The colour that belongs to a state; Current gives the shown colour. */
    function Get(state: ButtonState): (r: Color)
      ensures r in {current, default, hover, pressed}
      ensures state == Current ==> r == current
    {
      match state
      case Current => current
      case Default => default
      case Hover => hover
      case Pressed => pressed
    }

    /** Makes the colour of a state the shown one; the per-state colours stay. */
    function SetToState(state: ButtonState): (r: ButtonColor)
      ensures r.current == Get(state)
      ensures r.default == default && r.hover == hover && r.pressed == pressed
    {
      this.(current := Get(state))
    }
  }

  /** ButtonColor(c): every state, and the shown colour, start as c. */
  function UniformButtonColor(c: Color): (r: ButtonColor)
    ensures forall state :: r.Get(state) == c
    ensures forall state :: r.SetToState(state) == r
  {
    ButtonColor(c, c, c, c)
  }

  /** A texture handle; its key is opaque to the button logic. */
  type TextureHandle = nat

  /** A texture per drawable button state (Current has none). */
  datatype ButtonTexture = ButtonTexture(default: TextureHandle, hover: TextureHandle, pressed: TextureHandle)
  {
    /** The texture of a state; asking for Current is an error. */
    function Get(state: ButtonState): (r: Option<TextureHandle>)
      ensures r.None? <==> state == Current
    {
      match state
      case Current => None
      case Default => Some(default)
      case Hover => Some(hover)
      case Pressed => Some(pressed)
    }
  }

  /** ButtonTexture(key): every drawable state uses the same texture. */
  function UniformButtonTexture(key: TextureHandle): (r: ButtonTexture)
    ensures forall state :: state != Current ==> r.Get(state) == Some(key)
  {
    ButtonTexture(key, key, key)
  }

  /** The default-constructed border width. */
  const DefaultBorderWidth: real := 1.0

  /** The default-constructed background width; -1 means a solid background. */
  const DefaultBackgroundWidth: real := -1.0

  /** Whether activation and hovering are enabled. */
  datatype ButtonEnabled = ButtonEnabled(activate: bool, hover: bool)

  /** The default ButtonEnabled: both flags on. */
  const DefaultButtonEnabled: ButtonEnabled := ButtonEnabled(true, true)
}
