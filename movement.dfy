/**
 * Keyboard-driven movement components: velocity nudging from four keys,
 * the scalar MoveTowards step, and the top-down movement component's
 * direction flags and direction classification.
 *
 * Whether a key is pressed comes from the input handler; here it is a
 * parameter. Floats are reals, and NearlyEqual is exact equality.
 */
module Movement {
  import Wrappers

  datatype V2 = V2(x: real, y: real)

  datatype MoveDirection =
    None | Left | Right | Up | Down | UpLeft | UpRight | DownLeft | DownRight

  function Abs(v: real): (r: real)
    ensures r >= 0.0 && (r == v || r == -v)
  {
    if v < 0.0 then -v else v
  }

  /** math's Sign: -1, 0 or 1. */
  function Sign(v: real): (r: real)
    ensures r == 0.0 <==> v == 0.0
    ensures r * v == Abs(v)
  {
    if v > 0.0 then 1.0 else if v < 0.0 then -1.0 else 0.0
  }

  /** The direction one axis moves in when `neg` and `pos` are its two keys:
   *  exactly one pressed key wins, both or neither give 0. */
  function AxisStep(neg: bool, pos: bool): (r: real)
    ensures r == 0.0 <==> neg == pos
    ensures r == 1.0 <==> pos && !neg
    ensures r == -1.0 <==> neg && !pos
  {
    if neg && !pos then -1.0 else if pos && !neg then 1.0 else 0.0
  }

  /** impl::MoveImpl on the velocity `vel`, given which keys are pressed. */
  function MoveImpl(vel: V2, amount: V2, left: bool, right: bool, up: bool, down: bool,
                    cancelIfUnpressed: bool): (r: V2)
    ensures cancelIfUnpressed && !left && !right && !up && !down ==> r == V2(0.0, 0.0)
    ensures !(cancelIfUnpressed && !left && !right && !up && !down) ==>
              r.x == vel.x + AxisStep(left, right) * amount.x &&
              r.y == vel.y + AxisStep(up, down) * amount.y
  {
    var x := if left && !right then vel.x - amount.x
             else if right && !left then vel.x + amount.x
             else vel.x;
    var y := if up && !down then vel.y - amount.y
             else if down && !up then vel.y + amount.y
             else vel.y;
    if cancelIfUnpressed && !up && !down && !left && !right then V2(0.0, 0.0) else V2(x, y)
  }

  /** Opposite keys held together cancel on their axis. */
  lemma OppositeKeysCancel(vel: V2, amount: V2, up: bool, down: bool, cancel: bool)
    ensures MoveImpl(vel, amount, true, true, up, down, cancel).x == vel.x
    ensures MoveImpl(vel, amount, up, down, true, true, cancel).y == vel.y
  {
  }

  /** Swapping the left and right keys mirrors the horizontal change. */
  lemma MoveImplMirror(vel: V2, amount: V2, left: bool, right: bool, up: bool, down: bool, cancel: bool)
    requires left || right || up || down || !cancel
    ensures MoveImpl(vel, amount, left, right, up, down, cancel).x - vel.x
         == -(MoveImpl(vel, amount, right, left, up, down, cancel).x - vel.x)
  {
    assert AxisStep(left, right) == -AxisStep(right, left);
  }

  /** impl::MoveTowards: reach `target` if it is within maxDelta, else step
   *  maxDelta toward it. */
  function MoveTowards(current: real, target: real, maxDelta: real): (r: real)
    ensures Abs(target - current) <= maxDelta ==> r == target
    ensures Abs(target - current) > maxDelta ==>
              r == current + (if target > current then maxDelta
                              else if target < current then -maxDelta else 0.0)
  {
    if Abs(target - current) <= maxDelta then target
    else current + Sign(target - current) * maxDelta
  }

  /** With a non-negative step the result never overshoots: it lies between
   *  current and target, at most maxDelta from current, and the remaining
   *  distance shrinks by exactly maxDelta unless the target is reached. */
  lemma MoveTowardsNoOvershoot(current: real, target: real, maxDelta: real)
    requires maxDelta >= 0.0
    ensures var r := MoveTowards(current, target, maxDelta);
            Abs(r - current) <= maxDelta &&
            (current <= target ==> current <= r <= target) &&
            (target <= current ==> target <= r <= current) &&
            (r == target || Abs(target - r) == Abs(target - current) - maxDelta)
  {
  }

  /** MoveDirection's unit vector, with y pointing down. */
  function DirectionVector(m: MoveDirection): V2
  {
    match m
    case None => V2(0.0, 0.0)
    case Left => V2(-1.0, 0.0)
    case Right => V2(1.0, 0.0)
    case Up => V2(0.0, -1.0)
    case Down => V2(0.0, 1.0)
    case UpLeft => V2(-1.0, -1.0)
    case UpRight => V2(1.0, -1.0)
    case DownLeft => V2(-1.0, 1.0)
    case DownRight => V2(1.0, 1.0)
  }

  /** TopDownMovement::GetDirectionState; None (no direction) stands for
   *  the PTGN_ERROR on a vector that is not one of the nine. */
  function GetDirectionState(d: V2): (r: Wrappers.Option<MoveDirection>)
    ensures r.Some? ==> DirectionVector(r.value) == d
  {
    if d.x == 0.0 && d.y == 0.0 then Wrappers.Some(None)
    else if d.x == -1.0 && d.y == 0.0 then Wrappers.Some(Left)
    else if d.x == 1.0 && d.y == 0.0 then Wrappers.Some(Right)
    else if d.x == 0.0 && d.y == 1.0 then Wrappers.Some(Down)
    else if d.x == 0.0 && d.y == -1.0 then Wrappers.Some(Up)
    else if d.x == 1.0 && d.y == 1.0 then Wrappers.Some(DownRight)
    else if d.x == -1.0 && d.y == 1.0 then Wrappers.Some(DownLeft)
    else if d.x == 1.0 && d.y == -1.0 then Wrappers.Some(UpRight)
    else if d.x == -1.0 && d.y == -1.0 then Wrappers.Some(UpLeft)
    else Wrappers.None
  }

  /** Every direction's vector is classified back as that direction, and
   *  only those nine vectors are classified at all. */
  lemma DirectionStateRoundTrip(m: MoveDirection, d: V2)
    ensures GetDirectionState(DirectionVector(m)) == Wrappers.Some(m)
    ensures GetDirectionState(d).Some? <==> exists k :: DirectionVector(k) == d
  {
    DirectionClassified(m);
    forall k | DirectionVector(k) == d
      ensures GetDirectionState(d).Some?
    {
      DirectionClassified(k);
    }
    if GetDirectionState(d).Some? {
      assert DirectionVector(GetDirectionState(d).value) == d;
    }
  }

  lemma DirectionClassified(k: MoveDirection)
    ensures GetDirectionState(DirectionVector(k)) == Wrappers.Some(k)
  {
  }

  /** d moves along v: each non-zero component of v is matched by d. */
  predicate Along(d: V2, v: V2)
  {
    (v.x != 0.0 ==> d.x == v.x) && (v.y != 0.0 ==> d.y == v.y)
  }

  /** TopDownMovement::GetMovingState. */
  function GetMovingState(d: V2, direction: MoveDirection): bool
  {
    match direction
    case None => d.x == 0.0 && d.y == 0.0
    case Left => d.x == -1.0
    case Right => d.x == 1.0
    case Up => d.y == -1.0
    case Down => d.y == 1.0
    case UpLeft => d.x == -1.0 && d.y == -1.0
    case UpRight => d.x == 1.0 && d.y == -1.0
    case DownLeft => d.x == -1.0 && d.y == 1.0
    case DownRight => d.x == 1.0 && d.y == 1.0
  }

  /** The directions whose Move sets each input flag. */
  predicate SetsLeft(m: MoveDirection) { m.Left? || m.UpLeft? || m.DownLeft? }
  predicate SetsRight(m: MoveDirection) { m.Right? || m.UpRight? || m.DownRight? }
  predicate SetsUp(m: MoveDirection) { m.Up? || m.UpLeft? || m.UpRight? }
  predicate SetsDown(m: MoveDirection) { m.Down? || m.DownLeft? || m.DownRight? }

  /** Moving along a direction's own vector counts as moving in it, and in
   *  each single axis the direction sets the flag of. */
  lemma MovingStateOfDirection(m: MoveDirection, d: V2)
    ensures GetMovingState(DirectionVector(m), m)
    ensures GetMovingState(d, None) <==> d == V2(0.0, 0.0)
    ensures SetsLeft(m) <==> GetMovingState(DirectionVector(m), Left)
    ensures SetsRight(m) <==> GetMovingState(DirectionVector(m), Right)
    ensures SetsUp(m) <==> GetMovingState(DirectionVector(m), Up)
    ensures SetsDown(m) <==> GetMovingState(DirectionVector(m), Down)
  {
  }

  /** One axis of TopDownMovement::Update's direction: a lone pressed key
   *  sets ±1; otherwise the old value stays unless only orthogonal
   *  movement is allowed, which zeroes it. */
  function UpdatedAxis(neg: bool, pos: bool, previous: real, onlyOrthogonal: bool): (r: real)
    ensures neg != pos ==> r == AxisStep(neg, pos)
    ensures neg == pos ==> r == (if onlyOrthogonal then 0.0 else previous)
  {
    if neg && !pos then -1.0 else if pos && !neg then 1.0 else if onlyOrthogonal then 0.0 else previous
  }

  /** An input flag after Update's key polling: already set, or its key is
   *  pressed while keys are enabled. */
  predicate Latched(flag: bool, keysEnabled: bool, pressed: bool)
  {
    flag || (keysEnabled && pressed)
  }

  /** One axis step of TopDownMovement::Update, as the branches there. */
  method StepAxis(neg: bool, pos: bool, previous: real, onlyOrthogonal: bool) returns (r: real)
    ensures r == UpdatedAxis(neg, pos, previous, onlyOrthogonal)
  {
    r := previous;
    if neg && !pos {
      r := -1.0;
    } else if pos && !neg {
      r := 1.0;
    } else if onlyOrthogonal {
      r := 0.0;
    }
  }

  class TopDownMovement {
    var keysEnabled: bool
    var onlyOrthogonalMovement: bool
    var upInput: bool
    var downInput: bool
    var leftInput: bool
    var rightInput: bool
    var dir: V2
    var prevDir: V2
    var facingDirection: V2

    constructor (keysEnabled: bool, onlyOrthogonalMovement: bool)
      ensures this.keysEnabled == keysEnabled && this.onlyOrthogonalMovement == onlyOrthogonalMovement
      ensures !upInput && !downInput && !leftInput && !rightInput
      ensures dir == V2(0.0, 0.0) && prevDir == V2(0.0, 0.0) && facingDirection == V2(0.0, 0.0)
    {
      this.keysEnabled := keysEnabled;
      this.onlyOrthogonalMovement := onlyOrthogonalMovement;
      upInput, downInput, leftInput, rightInput := false, false, false, false;
      dir, prevDir, facingDirection := V2(0.0, 0.0), V2(0.0, 0.0), V2(0.0, 0.0);
    }

    /** Move(MoveDirection): None clears all four flags; every other
     *  direction only sets its own. */
    method Move(direction: MoveDirection)
      modifies this`upInput, this`downInput, this`leftInput, this`rightInput
      ensures direction.None? ==> !upInput && !downInput && !leftInput && !rightInput
      ensures !direction.None? ==>
                leftInput == (old(leftInput) || SetsLeft(direction)) &&
                rightInput == (old(rightInput) || SetsRight(direction)) &&
                upInput == (old(upInput) || SetsUp(direction)) &&
                downInput == (old(downInput) || SetsDown(direction))
    {
      match direction {
        case None =>
          leftInput := false;
          rightInput := false;
          downInput := false;
          upInput := false;
        case Left => leftInput := true;
        case Right => rightInput := true;
        case Up => upInput := true;
        case Down => downInput := true;
        case UpLeft =>
          upInput := true;
          leftInput := true;
        case UpRight =>
          upInput := true;
          rightInput := true;
        case DownLeft =>
          downInput := true;
          leftInput := true;
        case DownRight =>
          downInput := true;
          rightInput := true;
      }
    }

    /** Move(vector): only allowed when orthogonal-only movement is off. */
    method MoveVector(direction: V2)
      requires !onlyOrthogonalMovement
      modifies this`dir
      ensures dir == direction
    {
      dir := direction;
    }

    function IsMoving(direction: MoveDirection): (r: bool)
      reads this
      ensures direction == None ==> (r <==> dir == DirectionVector(None))
      ensures direction != None ==> (r <==> Along(dir, DirectionVector(direction)))
    {
      GetMovingState(dir, direction)
    }

    function WasMoving(direction: MoveDirection): (r: bool)
      reads this
      ensures direction == None ==> (r <==> prevDir == DirectionVector(None))
      ensures direction != None ==> (r <==> Along(prevDir, DirectionVector(direction)))
    {
      GetMovingState(prevDir, direction)
    }

    /** The direction bookkeeping of TopDownMovement::Update: pressed keys
     *  (when enabled) latch the input flags, the flags decide `dir`, a
     *  non-zero `dir` becomes the facing direction, and then the inputs are
     *  cancelled and `prevDir` remembers `dir`. */
    method UpdateDirection(upPressed: bool, downPressed: bool, leftPressed: bool, rightPressed: bool)
      modifies this`upInput, this`downInput, this`leftInput, this`rightInput,
               this`dir, this`prevDir, this`facingDirection
      ensures dir == V2(UpdatedAxis(Latched(old(leftInput), keysEnabled, leftPressed),
                                    Latched(old(rightInput), keysEnabled, rightPressed),
                                    old(dir).x, onlyOrthogonalMovement),
                        UpdatedAxis(Latched(old(upInput), keysEnabled, upPressed),
                                    Latched(old(downInput), keysEnabled, downPressed),
                                    old(dir).y, onlyOrthogonalMovement))
      ensures facingDirection == if dir == V2(0.0, 0.0) then old(facingDirection) else dir
      ensures prevDir == dir
      ensures !upInput && !downInput && !leftInput && !rightInput
    {
      LatchInputs(upPressed, downPressed, leftPressed, rightPressed);
      SetDirection();
      Move(None);
      prevDir := dir;
    }

    /** Update's key polling: a pressed key sets its flag when keys are
     *  enabled. */
    method LatchInputs(upPressed: bool, downPressed: bool, leftPressed: bool, rightPressed: bool)
      modifies this`upInput, this`downInput, this`leftInput, this`rightInput
      ensures upInput == Latched(old(upInput), keysEnabled, upPressed)
      ensures downInput == Latched(old(downInput), keysEnabled, downPressed)
      ensures leftInput == Latched(old(leftInput), keysEnabled, leftPressed)
      ensures rightInput == Latched(old(rightInput), keysEnabled, rightPressed)
    {
      if keysEnabled {
        upInput := upInput || upPressed;
        downInput := downInput || downPressed;
        leftInput := leftInput || leftPressed;
        rightInput := rightInput || rightPressed;
      }
    }

    /** Update's direction from the flags, and the facing direction that a
     *  non-zero direction sets. */
    method SetDirection()
      modifies this`dir, this`facingDirection
      ensures dir == V2(UpdatedAxis(leftInput, rightInput, old(dir).x, onlyOrthogonalMovement),
                        UpdatedAxis(upInput, downInput, old(dir).y, onlyOrthogonalMovement))
      ensures facingDirection == if dir == V2(0.0, 0.0) then old(facingDirection) else dir
    {
      var x := StepAxis(leftInput, rightInput, dir.x, onlyOrthogonalMovement);
      var y := StepAxis(upInput, downInput, dir.y, onlyOrthogonalMovement);
      dir := V2(x, y);
      if dir != V2(0.0, 0.0) {
        facingDirection := dir;
      }
    }
  }
}
