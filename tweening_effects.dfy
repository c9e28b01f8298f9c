/**
 * The effect queues of src/tweening/tween_effects.h and .cpp. An entity
 * carries, per kind of effect, a queue of tasks; only the front task's
 * timer runs, and when it completes the front is dropped and the next
 * task's timer starts. Translate, rotate, scale and tint share one generic
 * queue (EffectInfo<T>); bounce and shake have queues of their own.
 *
 * Time is not modelled: whether the front task's timer has completed is a
 * parameter of each system pass, and so is the eased intensity a running
 * shake reports. Eases, offsets, noise and the per-task random seed are
 * left out. `attached` says whether the entity has the component.
 */
module TweeningEffects {

  /** EffectInfo<T>: start and target value, duration in milliseconds and
   *  whether the task's timer runs. */
  datatype Task<T> = Task(start: T, target: T, durationMs: int, running: bool)

  /** Each task starts where the task before it ends. */
  predicate Chained<T(==)>(tasks: seq<Task<T>>)
  {
    forall i :: 0 < i < |tasks| ==> tasks[i].start == tasks[i - 1].target
  }

  /** Exactly the front task's timer runs. */
  predicate FrontRuns<T>(tasks: seq<Task<T>>)
  {
    forall i :: 0 <= i < |tasks| ==> (tasks[i].running <==> i == 0)
  }

  /** The queue after its front task completed (UpdateTask). */
  function Advanced<T>(tasks: seq<Task<T>>): seq<Task<T>>
    requires |tasks| > 0
  {
    if |tasks| == 1 then [] else [tasks[1].(running := true)] + tasks[2..]
  }

  lemma AdvancedKeepsOrder<T>(tasks: seq<Task<T>>)
    requires |tasks| > 0 && Chained(tasks) && FrontRuns(tasks)
    ensures Chained(Advanced(tasks)) && FrontRuns(Advanced(tasks))
    ensures |Advanced(tasks)| == |tasks| - 1
  {
    var r := Advanced(tasks);
    if |tasks| > 1 {
      forall i | 0 < i < |r|
        ensures r[i].start == r[i - 1].target
      {
        assert r[i] == tasks[i + 1] && r[i - 1].target == tasks[i].target;
      }
    }
  }

  /** The queue AddTweenEffect leaves: with force or an empty queue the
   *  new task replaces every task and starts from the current value;
   *  otherwise it is appended and starts from the last task's target. */
  function Appended<T>(tasks: seq<Task<T>>, target: T, durationMs: int, force: bool, current: T): seq<Task<T>>
  {
    if force || |tasks| == 0 then [Task(current, target, durationMs, true)]
    else tasks + [Task(tasks[|tasks| - 1].target, target, durationMs, false)]
  }

  lemma AppendedKeepsOrder<T>(tasks: seq<Task<T>>, target: T, durationMs: int, force: bool, current: T)
    requires Chained(tasks) && FrontRuns(tasks)
    ensures var r := Appended(tasks, target, durationMs, force, current);
      Chained(r) && FrontRuns(r) && |r| > 0 && r[|r| - 1].target == target &&
      (force || |tasks| == 0 ==> |r| == 1 && r[0].start == current) &&
      (!force && |tasks| > 0 ==> r[..|tasks|] == tasks)
  {
  }

  /** TranslateEffect, RotateEffect, ScaleEffect and TintEffect of one entity. */
  class TweenEffect<T(==)> {
    var attached: bool
    var tasks: seq<Task<T>>

    ghost predicate Valid()
      reads this
    {
      Chained(tasks) && FrontRuns(tasks) && (!attached ==> tasks == [])
    }

    constructor ()
      ensures Valid() && !attached && tasks == []
    {
      attached := false;
      tasks := [];
    }

    /** AddTweenEffect (tween_effects.h): attach the component if needed and
     *  queue a task towards target. */
    method AddTweenEffect(target: T, durationMs: int, force: bool, current: T)
      requires Valid() && durationMs >= 0
      modifies this
      ensures Valid() && attached
      ensures force || old(tasks) == [] ==> tasks == [Task(current, target, durationMs, true)]
      ensures !force && old(tasks) != [] ==>
                tasks == old(tasks) + [Task(old(tasks)[|old(tasks)| - 1].target, target, durationMs, false)]
    {
      attached := true;
      var first := force || |tasks| == 0;
      var start: T;
      if first {
        tasks := [];
        start := current;
      } else {
        start := tasks[|tasks| - 1].target;
      }
      tasks := tasks + [Task(start, target, durationMs, first)];
    }

    /** UpdateTask: once the front task's timer completed, drop it and start
     *  the next one. */
    method UpdateTask(completed: bool)
      requires Valid() && |tasks| > 0
      modifies this`tasks
      ensures Valid()
      ensures completed ==> |tasks| == |old(tasks)| - 1 && tasks == Advanced(old(tasks))
      ensures !completed ==> tasks == old(tasks)
    {
      if !completed {
        return;
      }
      AdvancedKeepsOrder(tasks);
      tasks := tasks[1..];
      if |tasks| == 0 {
        return;
      }
      tasks := tasks[0 := tasks[0].(running := true)];
    }

    /** One entity's turn in TranslateEffectSystem::Update (and the other
     *  three): an empty queue removes the component, and otherwise the
     *  front task, whose timer runs, is updated. */
    method Update(completed: bool)
      requires Valid() && attached
      modifies this
      ensures Valid()
      ensures attached <==> old(tasks) != []
      ensures old(tasks) == [] ==> tasks == []
      ensures old(tasks) != [] ==> tasks == if completed then Advanced(old(tasks)) else old(tasks)
    {
      if |tasks| == 0 {
        attached := false;
        return;
      }
      assert tasks[0].running;
      UpdateTask(completed);
    }
  }

  predicate DistinctEffects<T(==)>(effects: seq<TweenEffect<T>>)
  {
    forall i, j :: 0 <= i < j < |effects| ==> effects[i] != effects[j]
  }

  /** TranslateEffectSystem::Update as written: the pass over the entities
   *  ends at the first empty queue (`return`, where the bounce and shake
   *  systems `continue`), so every entity after it is skipped this frame. */
  method UpdateSystemAsWritten<T(==)>(effects: seq<TweenEffect<T>>, completed: seq<bool>) returns (visited: nat)
    requires |completed| == |effects| && DistinctEffects(effects)
    requires forall e :: e in effects ==> e.Valid() && e.attached
    modifies set e | e in effects
    ensures visited <= |effects|
    ensures forall i :: 0 <= i < visited ==>
              old(effects[i].tasks) != [] && effects[i].attached &&
              effects[i].tasks == if completed[i] then Advanced(old(effects[i].tasks)) else old(effects[i].tasks)
    ensures visited < |effects| ==> old(effects[visited].tasks) == [] && !effects[visited].attached
    ensures forall j :: visited < j < |effects| ==>
              effects[j].tasks == old(effects[j].tasks) && effects[j].attached
    ensures forall e :: e in effects ==> e.Valid()
  {
    visited := 0;
    while visited < |effects|
      invariant visited <= |effects|
      invariant forall e :: e in effects ==> e.Valid()
      invariant forall i :: 0 <= i < visited ==>
                  old(effects[i].tasks) != [] && effects[i].attached &&
                  effects[i].tasks == if completed[i] then Advanced(old(effects[i].tasks)) else old(effects[i].tasks)
      invariant forall j :: visited <= j < |effects| ==>
                  effects[j].tasks == old(effects[j].tasks) && effects[j].attached
    {
      var e := effects[visited];
      if |e.tasks| == 0 {
        e.Update(completed[visited]);
        return;
      }
      e.Update(completed[visited]);
      visited := visited + 1;
    }
  }

  /** The same pass going on past an empty queue, as the bounce and shake
   *  systems do: every entity gets its turn. */
  method UpdateSystem<T(==)>(effects: seq<TweenEffect<T>>, completed: seq<bool>)
    requires |completed| == |effects| && DistinctEffects(effects)
    requires forall e :: e in effects ==> e.Valid() && e.attached
    modifies set e | e in effects
    ensures forall i :: 0 <= i < |effects| ==>
              (effects[i].attached <==> old(effects[i].tasks) != []) &&
              effects[i].tasks == if old(effects[i].tasks) == [] then [] else
                                  if completed[i] then Advanced(old(effects[i].tasks)) else old(effects[i].tasks)
    ensures forall e :: e in effects ==> e.Valid()
  {
    var k := 0;
    while k < |effects|
      invariant k <= |effects|
      invariant forall e :: e in effects ==> e.Valid()
      invariant forall i :: 0 <= i < k ==>
                  (effects[i].attached <==> old(effects[i].tasks) != []) &&
                  effects[i].tasks == if old(effects[i].tasks) == [] then [] else
                                      if completed[i] then Advanced(old(effects[i].tasks)) else old(effects[i].tasks)
      invariant forall j :: k <= j < |effects| ==>
                  effects[j].tasks == old(effects[j].tasks) && effects[j].attached
    {
      effects[k].Update(completed[k]);
      k := k + 1;
    }
  }

  /** Two entities, the first with an empty queue and the second with a
   *  task whose timer completed: the pass as written leaves the second
   *  task in place. */
  method SkippedAfterEmptyAsWritten() returns (stale: bool)
    ensures stale
  {
    var idle := new TweenEffect<int>();
    idle.attached := true;
    var moving := new TweenEffect<int>();
    moving.attached := true;
    moving.tasks := [Task(0, 10, 100, true)];
    var visited := UpdateSystemAsWritten([idle, moving], [true, true]);
    stale := visited == 0 && moving.tasks == [Task(0, 10, 100, true)];
  }

  // ---------------------------------------------------------------- bounce

  /** BounceEffectInfo; totalPeriods -1 bounces forever. */
  datatype BounceTask = BounceTask(
    durationMs: int,
    totalPeriods: int,
    periodsCompleted: int,
    symmetrical: bool,
    running: bool)

  /** A bounce either bounces forever or has periods left. */
  predicate BounceTaskValid(t: BounceTask)
  {
    0 <= t.periodsCompleted && (t.totalPeriods == -1 || t.periodsCompleted < t.totalPeriods)
  }

  predicate BounceQueueValid(tasks: seq<BounceTask>)
  {
    forall i :: 0 <= i < |tasks| ==> BounceTaskValid(tasks[i]) && (tasks[i].running <==> i == 0)
  }

  function BounceAdvanced(tasks: seq<BounceTask>): seq<BounceTask>
    requires |tasks| > 0
  {
    if |tasks| == 1 then [] else [tasks[1].(running := true)] + tasks[2..]
  }

  /** The front bounce after its timer completed a period: the period is
   *  counted, and the bounce restarts while periods remain. */
  function BounceStep(tasks: seq<BounceTask>, completed: bool): (r: seq<BounceTask>)
    requires |tasks| > 0
    ensures BounceQueueValid(tasks) ==> BounceQueueValid(r)
    ensures |r| == |tasks| || (completed && r == BounceAdvanced(tasks))
  {
    if !completed then tasks
    else
      var p := tasks[0].periodsCompleted + 1;
      if tasks[0].totalPeriods == -1 || p < tasks[0].totalPeriods
      then tasks[0 := tasks[0].(periodsCompleted := p)]
      else BounceAdvanced(tasks)
  }

  /** The queue after n periods of the front bounce completed in a row
   *  (its timer completing each time it is checked). */
  function Bounced(tasks: seq<BounceTask>, n: nat): seq<BounceTask>
    decreases n
  {
    if n == 0 || |tasks| == 0 then tasks else Bounced(BounceStep(tasks, true), n - 1)
  }

  /** A bounce with periods left, or one bouncing forever, stays at the
   *  front, each completed period counted. */
  lemma {:induction false} BounceRepeats(tasks: seq<BounceTask>, n: nat)
    requires |tasks| > 0
    requires tasks[0].totalPeriods == -1 || tasks[0].periodsCompleted + n < tasks[0].totalPeriods
    ensures Bounced(tasks, n) == tasks[0 := tasks[0].(periodsCompleted := tasks[0].periodsCompleted + n)]
    decreases n
  {
    if n > 0 {
      var next := BounceStep(tasks, true);
      assert next == tasks[0 := tasks[0].(periodsCompleted := tasks[0].periodsCompleted + 1)];
      BounceRepeats(next, n - 1);
      assert next[0 := next[0].(periodsCompleted := next[0].periodsCompleted + (n - 1))] ==
             tasks[0 := tasks[0].(periodsCompleted := tasks[0].periodsCompleted + n)];
    }
  }

  /** A bounce of totalPeriods > 0 leaves the queue after exactly the
   *  periods it has left, and the next bounce starts. */
  lemma BounceEnds(tasks: seq<BounceTask>)
    requires |tasks| > 0 && BounceTaskValid(tasks[0]) && tasks[0].totalPeriods > 0
    ensures Bounced(tasks, tasks[0].totalPeriods - tasks[0].periodsCompleted) == BounceAdvanced(tasks)
    ensures |Bounced(tasks, tasks[0].totalPeriods - tasks[0].periodsCompleted - 1)| == |tasks|
  {
    var left: nat := tasks[0].totalPeriods - tasks[0].periodsCompleted;
    BounceRepeats(tasks, left - 1);
    var last := tasks[0 := tasks[0].(periodsCompleted := tasks[0].totalPeriods - 1)];
    assert Bounced(tasks, left - 1) == last;
    BounceSteps(tasks, left - 1, 1);
    assert Bounced(tasks, left) == Bounced(last, 1);
    assert BounceStep(last, true) == BounceAdvanced(last);
    assert Bounced(last, 1) == Bounced(BounceAdvanced(last), 0) == BounceAdvanced(last);
    assert BounceAdvanced(last) == BounceAdvanced(tasks);
  }

  lemma {:induction false} BounceSteps(tasks: seq<BounceTask>, m: nat, n: nat)
    ensures Bounced(tasks, m + n) == Bounced(Bounced(tasks, m), n)
    decreases m
  {
    if m > 0 && |tasks| > 0 {
      BounceSteps(BounceStep(tasks, true), m - 1, n);
    }
  }

  /** The symmetrical bounce's triangle wave (BounceEffectSystem::ApplyEase
   *  with the ease left out): from 0.5 up to 1 on [0, 0.25], down to 0 on
   *  [0.25, 0.75], and back to 0.5 on [0.75, 1]. */
  function SymmetricalTriangle(t: real): (r: real)
    requires 0.0 <= t <= 1.0
    ensures 0.0 <= r <= 1.0
    ensures t == 0.0 || t == 1.0 ==> r == 0.5
    ensures t == 0.25 ==> r == 1.0
    ensures t == 0.75 ==> r == 0.0
    ensures t <= 0.25 ==> r >= 0.5
    ensures t >= 0.75 ==> r <= 0.5
  {
    if t < 0.25 then 1.0 + (2.0 * t - 0.5)
    else if t > 0.75 then -1.0 + (2.0 * t - 0.5)
    else 1.0 - (2.0 * t - 0.5)
  }

  /** The symmetrical bounce factor, in [-1, 1]: the bounce starts and ends
   *  at its origin, the middle of the movement. */
  function SymmetricalFactor(t: real): (r: real)
    requires 0.0 <= t <= 1.0
    ensures -1.0 <= r <= 1.0
    ensures t == 0.0 || t == 1.0 ==> r == 0.0
    ensures t == 0.25 ==> r == 1.0
    ensures t == 0.75 ==> r == -1.0
  {
    2.0 * SymmetricalTriangle(t) - 1.0
  }

  /** BounceEffect of one entity. */
  class BounceEffect {
    var attached: bool
    var tasks: seq<BounceTask>

    ghost predicate Valid()
      reads this
    {
      BounceQueueValid(tasks) && (!attached ==> tasks == [])
    }

    constructor ()
      ensures Valid() && !attached && tasks == []
    {
      attached := false;
      tasks := [];
    }

    /** BounceImpl: attach the component and queue a bounce, replacing the
     *  queue with force or when it is empty. */
    method BounceImpl(durationMs: int, totalPeriods: int, force: bool, symmetrical: bool)
      requires Valid() && (totalPeriods == -1 || totalPeriods > 0)
      modifies this
      ensures Valid() && attached
      ensures force || old(tasks) == [] ==> tasks == [BounceTask(durationMs, totalPeriods, 0, symmetrical, true)]
      ensures !force && old(tasks) != [] ==> tasks == old(tasks) + [BounceTask(durationMs, totalPeriods, 0, symmetrical, false)]
    {
      attached := true;
      var first := force || |tasks| == 0;
      if first {
        tasks := [];
      }
      tasks := tasks + [BounceTask(durationMs, totalPeriods, 0, symmetrical, first)];
    }

    /** One entity's turn in BounceEffectSystem::Update. */
    method Update(completed: bool)
      requires Valid() && attached
      modifies this
      ensures Valid()
      ensures attached <==> old(tasks) != []
      ensures old(tasks) == [] ==> tasks == []
      ensures old(tasks) != [] ==> tasks == BounceStep(old(tasks), completed)
    {
      if |tasks| == 0 {
        attached := false;
        return;
      }
      assert tasks[0].running;
      if !completed {
        return;
      }
      var task := tasks[0].(periodsCompleted := tasks[0].periodsCompleted + 1);
      if task.totalPeriods == -1 || task.periodsCompleted < task.totalPeriods {
        tasks := tasks[0 := task];
        return;
      }
      tasks := tasks[1..];
      if |tasks| == 0 {
        return;
      }
      tasks := tasks[0 := tasks[0].(running := true)];
    }

    /** StopBounce: with force the queue is cleared, otherwise the front
     *  bounce is dropped and the next one starts. */
    method StopBounce(force: bool)
      requires Valid()
      modifies this`tasks
      ensures Valid()
      ensures !attached ==> tasks == old(tasks)
      ensures attached && force ==> tasks == []
      ensures attached && !force && old(tasks) != [] ==> tasks == BounceAdvanced(old(tasks))
      ensures attached && !force && old(tasks) == [] ==> tasks == []
    {
      if !attached {
        return;
      }
      if force {
        tasks := [];
      } else if |tasks| > 0 {
        tasks := tasks[1..];
        if |tasks| > 0 {
          tasks := tasks[0 := tasks[0].(running := true)];
        }
      }
    }
  }

  // ----------------------------------------------------------------- shake

  /** ShakeEffectInfo: start and target intensity, duration (-1 shakes
   *  until stopped), whether its timer runs, and its trauma. */
  datatype ShakeTask = ShakeTask(start: real, target: real, durationMs: int, running: bool, trauma: real)

  function Clamp01(x: real): (r: real)
    ensures 0.0 <= r <= 1.0
    ensures 0.0 <= x <= 1.0 ==> r == x
    ensures x < 0.0 ==> r == 0.0
    ensures x > 1.0 ==> r == 1.0
  {
    if x < 0.0 then 0.0 else if x > 1.0 then 1.0 else x
  }

  /** The ShakeEffectInfo constructor's range for the intensities, the
   *  range of trauma, the chaining of starts to targets and the front's
   *  running timer. */
  predicate ShakeQueueValid(tasks: seq<ShakeTask>)
  {
    (forall i :: 0 <= i < |tasks| ==>
       0.0 <= tasks[i].start <= 1.0 && 0.0 <= tasks[i].target <= 1.0 &&
       -1.0 <= tasks[i].trauma <= 1.0 && (tasks[i].running <==> i == 0)) &&
    (forall i :: 0 < i < |tasks| ==> tasks[i].start == tasks[i - 1].target)
  }

  function ShakeAdvanced(tasks: seq<ShakeTask>): seq<ShakeTask>
    requires |tasks| > 0
  {
    if |tasks| == 1 then [] else [tasks[1].(running := true)] + tasks[2..]
  }

  /** The front task's trauma after a pass: decayed once its timer has
   *  completed, and otherwise the intensity the task reports. */
  function ShakeTrauma(task: ShakeTask, completed: bool, intensity: real, decay: real): (r: real)
    requires 0.0 <= intensity <= 1.0
    ensures 0.0 <= r <= 1.0
    ensures !completed ==> r == intensity
    ensures completed && decay >= 0.0 && task.trauma >= 0.0 ==> r <= task.trauma
  {
    if completed then Clamp01(task.trauma - decay) else intensity
  }

  /** ShakeEffectSystem::Update as written for one entity: the sole task
   *  is kept while `trauma >= 0`, which the clamp makes always true. */
  function ShakeStepAsWritten(tasks: seq<ShakeTask>, completed: bool, intensity: real, decay: real): seq<ShakeTask>
    requires |tasks| > 0 && 0.0 <= intensity <= 1.0
  {
    var t := tasks[0].(trauma := ShakeTrauma(tasks[0], completed, intensity, decay));
    if !completed || t.durationMs == -1 || (t.trauma >= 0.0 && |tasks| == 1) then tasks[0 := t]
    else ShakeAdvanced(tasks[0 := t])
  }

  /** The same pass keeping the sole task only while trauma is left to
   *  decay. */
  function ShakeStep(tasks: seq<ShakeTask>, completed: bool, intensity: real, decay: real): (r: seq<ShakeTask>)
    requires |tasks| > 0 && 0.0 <= intensity <= 1.0
    ensures ShakeQueueValid(tasks) ==> ShakeQueueValid(r)
  {
    var t := tasks[0].(trauma := ShakeTrauma(tasks[0], completed, intensity, decay));
    if !completed || t.durationMs == -1 || (t.trauma > 0.0 && |tasks| == 1) then tasks[0 := t]
    else ShakeAdvanced(tasks[0 := t])
  }

  /** As written, a sole shake is never dropped, however long it has been
   *  over and whatever its trauma: the component is never removed. */
  lemma SoleShakeStaysAsWritten(tasks: seq<ShakeTask>, completed: bool, intensity: real, decay: real)
    requires |tasks| == 1 && 0.0 <= intensity <= 1.0
    ensures |ShakeStepAsWritten(tasks, completed, intensity, decay)| == 1
  {
  }

  /** With the intended test a finished sole shake whose trauma has
   *  decayed to 0 is dropped; one with trauma left stays; so does one
   *  shaking forever. */
  lemma SoleShakeEnds(tasks: seq<ShakeTask>, intensity: real, decay: real)
    requires |tasks| == 1 && 0.0 <= intensity <= 1.0 && tasks[0].durationMs != -1
    ensures tasks[0].trauma - decay <= 0.0 <==> ShakeStep(tasks, true, intensity, decay) == []
  {
    assert ShakeTrauma(tasks[0], true, intensity, decay) == Clamp01(tasks[0].trauma - decay);
  }

  /** With another shake queued, a finished one makes way for it. */
  lemma FinishedShakeMakesWay(tasks: seq<ShakeTask>, intensity: real, decay: real)
    requires |tasks| > 1 && 0.0 <= intensity <= 1.0 && tasks[0].durationMs != -1
    ensures ShakeStep(tasks, true, intensity, decay) == [tasks[1].(running := true)] + tasks[2..]
  {
  }

  /** Appending a task from the last target keeps the queue valid. */
  lemma ShakeAppendValid(tasks: seq<ShakeTask>, t: ShakeTask)
    requires ShakeQueueValid(tasks)
    requires 0.0 <= t.start <= 1.0 && 0.0 <= t.target <= 1.0 && -1.0 <= t.trauma <= 1.0
    requires |tasks| == 0 ==> t.running
    requires |tasks| > 0 ==> !t.running && t.start == tasks[|tasks| - 1].target
    ensures ShakeQueueValid(tasks + [t])
  {
  }

  /** Setting a task's trauma within [-1, 1] keeps the queue valid. */
  lemma ShakeTraumaValid(tasks: seq<ShakeTask>, i: int, trauma: real)
    requires ShakeQueueValid(tasks) && 0 <= i < |tasks| && -1.0 <= trauma <= 1.0
    ensures ShakeQueueValid(tasks[i := tasks[i].(trauma := trauma)])
  {
  }

  /** ShakeEffect of one entity. */
  class ShakeEffect {
    var attached: bool
    var tasks: seq<ShakeTask>

    ghost predicate Valid()
      reads this
    {
      ShakeQueueValid(tasks) && (!attached ==> tasks == [])
    }

    constructor ()
      ensures Valid() && !attached && tasks == []
    {
      attached := false;
      tasks := [];
    }

    /** The timed Shake: a task from the last target (0 for a first task)
     *  towards that plus intensity, clamped to [0, 1]. */
    method Shake(intensity: real, durationMs: int, force: bool)
      requires Valid() && -1.0 <= intensity <= 1.0
      modifies this
      ensures Valid() && attached
      ensures force || old(tasks) == [] ==>
                tasks == [ShakeTask(0.0, Clamp01(intensity), durationMs, true, 0.0)]
      ensures !force && old(tasks) != [] ==>
                var start := old(tasks)[|old(tasks)| - 1].target;
                tasks == old(tasks) + [ShakeTask(start, Clamp01(start + intensity), durationMs, false, start)]
    {
      attached := true;
      var start := 0.0;
      var first := force || |tasks| == 0;
      if first {
        tasks := [];
      } else {
        start := tasks[|tasks| - 1].target;
      }
      ShakeAppendValid(tasks, ShakeTask(start, Clamp01(start + intensity), durationMs, first, start));
      tasks := tasks + [ShakeTask(start, Clamp01(start + intensity), durationMs, first, start)];
    }

    /** The instant Shake: onto a queued 0-duration shake its intensity is
     *  added to that task's trauma, clamped to [0, 1]; otherwise a
     *  0-duration task is queued with the intensity as its trauma. */
    method ShakeInstant(intensity: real, force: bool)
      requires Valid() && -1.0 <= intensity <= 1.0
      modifies this
      ensures Valid() && attached
      ensures force || old(tasks) == [] ==>
                tasks == [ShakeTask(0.0, Clamp01(intensity), 0, true, intensity)]
      ensures !force && old(tasks) != [] && old(tasks)[|old(tasks)| - 1].durationMs == 0 ==>
                var last := |old(tasks)| - 1;
                tasks == old(tasks)[last := old(tasks)[last].(trauma := Clamp01(old(tasks)[last].trauma + intensity))]
      ensures !force && old(tasks) != [] && old(tasks)[|old(tasks)| - 1].durationMs != 0 ==>
                var start := old(tasks)[|old(tasks)| - 1].target;
                tasks == old(tasks) + [ShakeTask(start, Clamp01(start + intensity), 0, false, intensity)]
    {
      attached := true;
      var start := 0.0;
      var first := force || |tasks| == 0;
      if first {
        tasks := [];
      } else {
        start := tasks[|tasks| - 1].target;
      }
      if |tasks| > 0 {
        var last := |tasks| - 1;
        if tasks[last].durationMs == 0 {
          ShakeTraumaValid(tasks, last, Clamp01(tasks[last].trauma + intensity));
          tasks := tasks[last := tasks[last].(trauma := Clamp01(tasks[last].trauma + intensity))];
          return;
        }
      }
      ShakeAppendValid(tasks, ShakeTask(start, Clamp01(start + intensity), 0, first, intensity));
      tasks := tasks + [ShakeTask(start, Clamp01(start + intensity), 0, first, intensity)];
    }

    /** One entity's turn in ShakeEffectSystem::Update, with the sole task
     *  kept only while it has trauma left. */
    method Update(completed: bool, intensity: real, decay: real)
      requires Valid() && attached && 0.0 <= intensity <= 1.0
      modifies this
      ensures Valid()
      ensures attached <==> old(tasks) != []
      ensures old(tasks) == [] ==> tasks == []
      ensures old(tasks) != [] ==> tasks == ShakeStep(old(tasks), completed, intensity, decay)
    {
      if |tasks| == 0 {
        attached := false;
        return;
      }
      var trauma := if completed then Clamp01(tasks[0].trauma - decay) else intensity;
      ShakeTraumaValid(tasks, 0, trauma);
      tasks := tasks[0 := tasks[0].(trauma := trauma)];
      if !completed || tasks[0].durationMs == -1 {
        return;
      }
      if tasks[0].trauma > 0.0 && |tasks| == 1 {
        return;
      }
      tasks := tasks[1..];
      if |tasks| == 0 {
        return;
      }
      tasks := tasks[0 := tasks[0].(running := true)];
    }

    /** StopShake: with force the queue is cleared, otherwise the front
     *  shake is dropped and the next one starts. */
    method StopShake(force: bool)
      requires Valid()
      modifies this`tasks
      ensures Valid()
      ensures !attached ==> tasks == old(tasks)
      ensures attached && force ==> tasks == []
      ensures attached && !force && old(tasks) != [] ==> tasks == ShakeAdvanced(old(tasks))
      ensures attached && !force && old(tasks) == [] ==> tasks == []
    {
      if !attached {
        return;
      }
      if force {
        tasks := [];
      } else if |tasks| > 0 {
        var rest := tasks[1..];
        if |rest| > 0 {
          rest := [rest[0].(running := true)] + rest[1..];
        }
        tasks := rest;
      }
    }
  }
}
