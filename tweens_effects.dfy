/**
 * The effects of src/tweens/tween_effects.cpp. Its translate, rotate,
 * scale, tint, bounce and shake queues are those of the tweening
 * generation and are modelled once, in TweeningEffects; this module adds
 * what is its own: the follow queue, whose tasks make an entity follow a
 * target or a path of waypoints, and the camera whose view StopShake marks
 * dirty.
 *
 * Positions are only tracked where a task teleports the entity onto its
 * target; the velocity and lerp movement themselves are float kinematics
 * and are left out. Whether the target is alive, whether the current
 * waypoint is reached and whether the entity arrived within the stop
 * distance are parameters of the system pass.
 */
module TweensEffects {
  import Wrappers
  import TweeningEffects

  datatype Vec = Vec(x: real, y: real)

  datatype MoveMode = Velocity | Lerp

  /** The parts of a FollowConfig the queue handling reads. `path` is
   *  FollowMode::Path (otherwise the target is followed), `waypoints` the
   *  number of waypoints, `stopDistanceSet` whether stop_distance is at
   *  least epsilon. */
  datatype FollowConfig = FollowConfig(
    followX: bool,
    followY: bool,
    teleportOnStart: bool,
    moveMode: MoveMode,
    path: bool,
    waypoints: nat,
    loopPath: bool,
    stopDistanceSet: bool,
    maxAcceleration: real,
    maxSpeed: real)

  /** FollowEffectInfo: the followed entity and the waypoint reached so far. */
  datatype FollowTask = FollowTask(target: int, config: FollowConfig, currentWaypoint: nat)

  /** The TopDownMovement fields the follow effect sets. */
  datatype Movement = Movement(
    maxAcceleration: real,
    maxDeceleration: real,
    maxSpeed: real,
    keysEnabled: bool,
    onlyOrthogonal: bool)

  /** The movement a velocity follow configures: keys off, free direction,
   *  and max_deceleration taken from max_acceleration as the source does. */
  function FollowMovement(config: FollowConfig): (m: Movement)
    ensures m.maxAcceleration == m.maxDeceleration == config.maxAcceleration
    ensures m.maxSpeed == config.maxSpeed && !m.keysEnabled && !m.onlyOrthogonal
  {
    Movement(config.maxAcceleration, config.maxAcceleration, config.maxSpeed, false, false)
  }

  /** The waypoint index of a path task stays inside its waypoints. */
  predicate WaypointInRange(t: FollowTask)
  {
    t.currentWaypoint == 0 || t.currentWaypoint < t.config.waypoints
  }

  /** The waypoint after the current one is reached: the next one, back to
   *  the first on a looping path, or none when the path is done. */
  function NextWaypoint(t: FollowTask): (r: Wrappers.Option<nat>)
    requires t.config.waypoints > 0 && t.currentWaypoint < t.config.waypoints
    ensures r.Some? ==> r.value < t.config.waypoints
    ensures r.None? <==> t.currentWaypoint + 1 >= t.config.waypoints && !t.config.loopPath
    ensures r.Some? && t.currentWaypoint + 1 < t.config.waypoints ==> r.value == t.currentWaypoint + 1
    ensures r.Some? && t.currentWaypoint + 1 >= t.config.waypoints ==> r.value == 0
  {
    if t.currentWaypoint + 1 < t.config.waypoints then Wrappers.Some(t.currentWaypoint + 1)
    else if t.config.loopPath then Wrappers.Some(0)
    else Wrappers.None
  }

  /** Following a closed path never ends: some waypoint always comes next. */
  lemma LoopingPathNeverEnds(t: FollowTask)
    requires t.config.waypoints > 0 && t.currentWaypoint < t.config.waypoints && t.config.loopPath
    ensures NextWaypoint(t).Some?
  {
  }

  /** The FollowEffect of one entity, with the movement component the
   *  velocity mode needs and the entity's position. */
  class FollowEntity {
    var attached: bool
    var tasks: seq<FollowTask>
    var movement: Wrappers.Option<Movement>
    var position: Vec

    /** The waypoint indices are in range, and a velocity task at the front
     *  finds its movement component (the assertion in the system pass). */
    ghost predicate Valid()
      reads this
    {
      (!attached ==> tasks == []) &&
      (forall i :: 0 <= i < |tasks| ==> WaypointInRange(tasks[i])) &&
      (|tasks| > 0 && tasks[0].config.moveMode == Velocity ==> movement.Some?)
    }

    constructor (at: Vec)
      ensures Valid() && !attached && tasks == [] && movement.None? && position == at
    {
      attached := false;
      tasks := [];
      movement := Wrappers.None;
      position := at;
    }

    /** Start the task now at the front: teleport onto its target when
     *  configured, and set up or remove the movement for its mode. */
    method StartFront(positionOf: int -> Vec)
      requires |tasks| > 0
      modifies this`position, this`movement
      ensures position == if tasks[0].config.teleportOnStart then positionOf(tasks[0].target) else old(position)
      ensures movement == if tasks[0].config.moveMode == Velocity then Wrappers.Some(FollowMovement(tasks[0].config)) else Wrappers.None
    {
      var front := tasks[0];
      if front.config.teleportOnStart {
        position := positionOf(front.target);
      }
      if front.config.moveMode == Velocity {
        movement := Wrappers.Some(FollowMovement(front.config));
      } else {
        movement := Wrappers.None;
      }
    }

    /** StartFollow: follow target, replacing the queue with force or when
     *  it is empty; the task is always appended. */
    method StartFollow(target: int, config: FollowConfig, force: bool, positionOf: int -> Vec)
      requires Valid()
      modifies this
      ensures Valid() && attached
      ensures force || old(tasks) == [] ==> tasks == [FollowTask(target, config, 0)]
      ensures !force && old(tasks) != [] ==> tasks == old(tasks) + [FollowTask(target, config, 0)]
      ensures position == if config.teleportOnStart then positionOf(target) else old(position)
      ensures movement == if config.moveMode == Velocity then Wrappers.Some(FollowMovement(config)) else old(movement)
    {
      attached := true;
      if force || |tasks| == 0 {
        tasks := [];
      }
      if config.teleportOnStart {
        position := positionOf(target);
      }
      if config.moveMode == Velocity {
        movement := Wrappers.Some(FollowMovement(config));
      }
      tasks := tasks + [FollowTask(target, config, 0)];
    }

    /** StopFollow: with force the queue is cleared; otherwise the front
     *  task is dropped and the next one started. */
    method StopFollow(force: bool, positionOf: int -> Vec)
      requires Valid()
      modifies this
      ensures Valid() && attached == old(attached)
      ensures !attached || (!force && old(tasks) == []) ==> unchanged(this)
      ensures attached && force ==> tasks == [] && movement == old(movement) && position == old(position)
      ensures attached && !force && old(tasks) != [] ==> tasks == old(tasks)[1..]
      ensures attached && !force && |old(tasks)| == 1 ==> movement == old(movement) && position == old(position)
      ensures attached && !force && |old(tasks)| > 1 ==>
                var next := old(tasks)[1];
                (position == if next.config.teleportOnStart then positionOf(next.target) else old(position)) &&
                (movement == if next.config.moveMode == Velocity then Wrappers.Some(FollowMovement(next.config)) else Wrappers.None)
    {
      if !attached {
        return;
      }
      if force {
        tasks := [];
      } else if |tasks| > 0 {
        tasks := tasks[1..];
        if |tasks| > 0 {
          StartFront(positionOf);
        }
      }
    }

    /** Drop the front task and start the next, as the system pass does
     *  when a target dies, a path ends or a lerp follow arrives. */
    method PopAndStart(positionOf: int -> Vec)
      requires Valid() && |tasks| > 0
      modifies this`tasks, this`position, this`movement
      ensures Valid() && tasks == old(tasks)[1..]
      ensures (position, movement) == Restarted(tasks, old(position), old(movement), false, positionOf)
    {
      tasks := tasks[1..];
      if |tasks| > 0 {
        StartFront(positionOf);
      }
    }

    /** The pop after a velocity follow arrives: the next task's movement
     *  component is only removed when it does not need one, and its
     *  configuration is not applied. */
    method PopAfterArrival(positionOf: int -> Vec)
      requires Valid() && |tasks| > 0 && tasks[0].config.moveMode == Velocity
      modifies this`tasks, this`position, this`movement
      ensures Valid() && tasks == old(tasks)[1..]
      ensures (position, movement) == Restarted(tasks, old(position), old(movement), true, positionOf)
    {
      tasks := tasks[1..];
      if |tasks| > 0 {
        var front := tasks[0];
        if front.config.teleportOnStart {
          position := positionOf(front.target);
        }
        if front.config.moveMode != Velocity {
          movement := Wrappers.None;
        }
      }
    }

    /** One entity's turn in FollowEffectSystem::Update, its queue handling
     *  as written: targetAlive says whether the front's target exists,
     *  dist2 is the squared distance from the entity to where the front
     *  heads (the current waypoint on a path), lerpedDist2 that distance
     *  after the lerp step to `lerped`, and stop2 the squared stop
     *  distance. The waypoint test and the stop test use the same target,
     *  so on a path a reached waypoint also ends the task. */
    method Update(targetAlive: bool, dist2: real, lerpedDist2: real, stop2: real, lerped: Vec, positionOf: int -> Vec)
      requires Valid() && attached
      requires |tasks| > 0 && tasks[0].config.path && targetAlive && (tasks[0].config.followX || tasks[0].config.followY) ==>
                 tasks[0].config.waypoints > 0
      modifies this
      ensures Valid()
      ensures old(tasks) == [] ==> !attached && tasks == [] && movement.None? && position == old(position)
      ensures old(tasks) != [] ==> attached
      ensures old(tasks) != [] && !old(tasks[0].config.followX) && !old(tasks[0].config.followY) ==> unchanged(this)
      ensures old(tasks) != [] && (old(tasks[0].config.followX) || old(tasks[0].config.followY)) && !targetAlive ==>
                tasks == old(tasks)[1..] &&
                (position, movement) == Restarted(old(tasks)[1..], old(position), old(movement), false, positionOf)
      ensures old(tasks) != [] && (old(tasks[0].config.followX) || old(tasks[0].config.followY)) && targetAlive ==>
                var turn := TurnAsWritten(old(tasks[0]), dist2, lerpedDist2, stop2);
                var ends := PathEnds(old(tasks[0]), dist2, stop2);
                var moved := Moved(old(tasks[0]), ends, old(position), lerped);
                if turn.Pop? then
                  tasks == old(tasks)[1..] &&
                  (position, movement) == Restarted(old(tasks)[1..], moved, old(movement), Arrives(old(tasks[0]), ends), positionOf)
                else
                  tasks == old(tasks)[0 := turn.task] && position == moved && movement == old(movement)
      ensures |tasks| <= |old(tasks)|
    {
      if |tasks| == 0 {
        attached := false;
        movement := Wrappers.None;
        return;
      }
      var task := tasks[0];
      if !task.config.followX && !task.config.followY {
        return;
      }
      if !targetAlive {
        PopAndStart(positionOf);
        return;
      }
      if task.config.path && dist2 < stop2 {
        var next := NextWaypoint(task);
        if next.None? {
          PopAndStart(positionOf);
          return;
        }
        tasks := tasks[0 := task.(currentWaypoint := next.value)];
      }
      if task.config.moveMode == Velocity {
        if task.config.stopDistanceSet && dist2 < stop2 {
          PopAfterArrival(positionOf);
        }
      } else {
        position := lerped;
        if task.config.stopDistanceSet && lerpedDist2 < stop2 {
          PopAndStart(positionOf);
        }
      }
    }

    /** The turn with path following as intended: a reached waypoint
     *  before the end only advances the path, and the stop-distance test
     *  of the movement applies to target following. */
    method UpdateIntended(targetAlive: bool, dist2: real, lerpedDist2: real, stop2: real, lerped: Vec, positionOf: int -> Vec)
      requires Valid() && attached
      requires |tasks| > 0 && tasks[0].config.path && targetAlive && (tasks[0].config.followX || tasks[0].config.followY) ==>
                 tasks[0].config.waypoints > 0
      modifies this
      ensures Valid()
      ensures old(tasks) == [] ==> !attached && tasks == [] && movement.None? && position == old(position)
      ensures old(tasks) != [] ==> attached
      ensures old(tasks) != [] && !old(tasks[0].config.followX) && !old(tasks[0].config.followY) ==> unchanged(this)
      ensures old(tasks) != [] && (old(tasks[0].config.followX) || old(tasks[0].config.followY)) && !targetAlive ==>
                tasks == old(tasks)[1..] &&
                (position, movement) == Restarted(old(tasks)[1..], old(position), old(movement), false, positionOf)
      ensures old(tasks) != [] && (old(tasks[0].config.followX) || old(tasks[0].config.followY)) && targetAlive ==>
                var turn := TurnIntended(old(tasks[0]), dist2, lerpedDist2, stop2);
                var ends := PathEnds(old(tasks[0]), dist2, stop2);
                var moved := Moved(old(tasks[0]), ends, old(position), lerped);
                if turn.Pop? then
                  tasks == old(tasks)[1..] &&
                  (position, movement) == Restarted(old(tasks)[1..], moved, old(movement), Arrives(old(tasks[0]), ends), positionOf)
                else
                  tasks == old(tasks)[0 := turn.task] && position == moved && movement == old(movement)
      ensures |tasks| <= |old(tasks)|
    {
      if |tasks| == 0 {
        attached := false;
        movement := Wrappers.None;
        return;
      }
      var task := tasks[0];
      if !task.config.followX && !task.config.followY {
        return;
      }
      if !targetAlive {
        PopAndStart(positionOf);
        return;
      }
      if task.config.path && dist2 < stop2 {
        var next := NextWaypoint(task);
        if next.None? {
          PopAndStart(positionOf);
          return;
        }
        tasks := tasks[0 := task.(currentWaypoint := next.value)];
      }
      if task.config.moveMode == Velocity {
        if !task.config.path && task.config.stopDistanceSet && dist2 < stop2 {
          PopAfterArrival(positionOf);
        }
      } else {
        position := lerped;
        if !task.config.path && task.config.stopDistanceSet && lerpedDist2 < stop2 {
          PopAndStart(positionOf);
        }
      }
    }
  }

  /** Whether a reached waypoint is the end of the front task's path. */
  predicate PathEnds(t: FollowTask, dist2: real, stop2: real)
    requires Followable(t)
  {
    t.config.path && dist2 < stop2 && NextWaypoint(t).None?
  }

  /** Where the turn leaves the entity before any pop: a lerp follow takes
   *  its lerp step unless the path ended first; a velocity follow is
   *  moved by its movement component, outside this model. */
  function Moved(t: FollowTask, ends: bool, position: Vec, lerped: Vec): (r: Vec)
    ensures t.config.moveMode == Velocity || ends ==> r == position
    ensures t.config.moveMode == Lerp && !ends ==> r == lerped
  {
    if t.config.moveMode == Lerp && !ends then lerped else position
  }

  /** Whether a pop is the velocity follow's arrival (PopAfterArrival)
   *  rather than the general pop (PopAndStart). */
  predicate Arrives(t: FollowTask, ends: bool)
  {
    t.config.moveMode == Velocity && !ends
  }

  /** The position and movement once the front task is dropped and `rest`
   *  remains: the next task, if any, teleports its entity when configured
   *  and sets up its movement; after a velocity arrival a velocity task
   *  keeps the movement already there. */
  function Restarted(rest: seq<FollowTask>, position: Vec, movement: Wrappers.Option<Movement>,
                     arrival: bool, positionOf: int -> Vec): (r: (Vec, Wrappers.Option<Movement>))
    ensures rest == [] ==> r == (position, movement)
    ensures rest != [] ==> r.0 == (if rest[0].config.teleportOnStart then positionOf(rest[0].target) else position)
    ensures rest != [] && rest[0].config.moveMode == Lerp ==> r.1.None?
    ensures rest != [] && rest[0].config.moveMode == Velocity ==>
              r.1 == if arrival then movement else Wrappers.Some(FollowMovement(rest[0].config))
  {
    if rest == [] then (position, movement)
    else
      var next := rest[0];
      (if next.config.teleportOnStart then positionOf(next.target) else position,
       if next.config.moveMode == Lerp then Wrappers.None
       else if arrival then movement else Wrappers.Some(FollowMovement(next.config)))
  }

  /** What a turn does with the front task of a live target. */
  datatype Turn = Pop | Keep(task: FollowTask)

  /** A path task whose waypoint index can be advanced. */
  predicate Followable(t: FollowTask)
  {
    WaypointInRange(t) && (t.config.path ==> t.config.waypoints > 0)
  }

  /** The turn as written: a reached path waypoint advances or ends the
   *  path, and then the stop distance, measured to the same target (after
   *  the lerp step in lerp mode), ends the task. */
  function TurnAsWritten(t: FollowTask, dist2: real, lerpedDist2: real, stop2: real): (r: Turn)
    requires Followable(t)
    ensures r.Keep? ==> Followable(r.task) && r.task.target == t.target && r.task.config == t.config
  {
    var reached := t.config.path && dist2 < stop2;
    if reached && NextWaypoint(t).None? then Pop
    else
      var kept := if reached then t.(currentWaypoint := NextWaypoint(t).value) else t;
      var d := if t.config.moveMode == Velocity then dist2 else lerpedDist2;
      if t.config.stopDistanceSet && d < stop2 then Pop else Keep(kept)
  }

  /** The turn as intended: on a path only its end drops the task. */
  function TurnIntended(t: FollowTask, dist2: real, lerpedDist2: real, stop2: real): (r: Turn)
    requires Followable(t)
    ensures r.Keep? ==> Followable(r.task) && r.task.target == t.target && r.task.config == t.config
  {
    var reached := t.config.path && dist2 < stop2;
    if reached && NextWaypoint(t).None? then Pop
    else
      var kept := if reached then t.(currentWaypoint := NextWaypoint(t).value) else t;
      var d := if t.config.moveMode == Velocity then dist2 else lerpedDist2;
      if !t.config.path && t.config.stopDistanceSet && d < stop2 then Pop else Keep(kept)
  }

  /** As written, a path task (which must have a stop distance) ends at the
   *  first waypoint it reaches, whether or not waypoints remain: the lerp
   *  step does not move away from the waypoint, so the stop test passes
   *  too. */
  lemma PathEndsAtReachedWaypoint(t: FollowTask, dist2: real, lerpedDist2: real, stop2: real)
    requires Followable(t) && t.config.path && t.config.stopDistanceSet
    requires dist2 < stop2 && lerpedDist2 <= dist2
    ensures TurnAsWritten(t, dist2, lerpedDist2, stop2) == Pop
  {
  }

  /** Two waypoints, the entity half a unit from the first with a stop
   *  distance of 1: the second waypoint is next, yet the task is dropped. */
  lemma PathEndsEarlyExample()
    ensures var t := FollowTask(7, FollowConfig(true, true, false, Velocity, true, 2, false, true, 1.0, 1.0), 0);
            NextWaypoint(t) == Wrappers.Some(1) && TurnAsWritten(t, 0.25, 0.25, 1.0) == Pop
  {
  }

  /** As intended, a reached waypoint before the end of a path advances it
   *  and keeps the task, and a path task is dropped exactly when its last
   *  waypoint (without looping) is reached. */
  lemma IntendedPathAdvances(t: FollowTask, dist2: real, lerpedDist2: real, stop2: real)
    requires Followable(t) && t.config.path
    ensures TurnIntended(t, dist2, lerpedDist2, stop2) == Pop <==> dist2 < stop2 && NextWaypoint(t).None?
    ensures dist2 < stop2 && NextWaypoint(t).Some? ==>
              TurnIntended(t, dist2, lerpedDist2, stop2) == Keep(t.(currentWaypoint := NextWaypoint(t).value))
    ensures dist2 >= stop2 ==> TurnIntended(t, dist2, lerpedDist2, stop2) == Keep(t)
  {
  }

  /** Target following is the same either way. */
  lemma TargetFollowUnchanged(t: FollowTask, dist2: real, lerpedDist2: real, stop2: real)
    requires Followable(t) && !t.config.path
    ensures TurnIntended(t, dist2, lerpedDist2, stop2) == TurnAsWritten(t, dist2, lerpedDist2, stop2)
    ensures TurnAsWritten(t, dist2, lerpedDist2, stop2) == Pop <==>
              t.config.stopDistanceSet && (if t.config.moveMode == Velocity then dist2 else lerpedDist2) < stop2
  {
  }

  /** An entity with a ShakeEffect and perhaps a camera. */
  class ShakenEntity {
    const shake: TweeningEffects.ShakeEffect
    var hasCamera: bool
    var viewDirty: bool

    constructor (hasCamera: bool)
      ensures shake.Valid() && !shake.attached && this.hasCamera == hasCamera && !viewDirty
    {
      shake := new TweeningEffects.ShakeEffect();
      this.hasCamera := hasCamera;
      viewDirty := false;
    }

    /** StopShake: the shake queue is stopped as in the tweening generation,
     *  and a camera's view is marked dirty. */
    method StopShake(force: bool)
      requires shake.Valid()
      modifies this, shake
      ensures shake.Valid() && shake.attached == old(shake.attached) && hasCamera == old(hasCamera)
      ensures viewDirty <==> old(viewDirty) || (shake.attached && hasCamera)
      ensures !shake.attached ==> shake.tasks == old(shake.tasks)
      ensures shake.attached && force ==> shake.tasks == []
      ensures shake.attached && !force && old(shake.tasks) != [] ==> shake.tasks == TweeningEffects.ShakeAdvanced(old(shake.tasks))
    {
      if !shake.attached {
        return;
      }
      if hasCamera {
        viewDirty := true;
      }
      shake.StopShake(force);
    }
  }
}
