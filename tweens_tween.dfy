/**
 * The entity-based tween of src/tweens/tween.cpp: a list of tween points,
 * each with a duration in whole milliseconds, a repeat budget, a yoyo flag
 * and a reversal; a four-valued state; the current point index; and the
 * progress through the current point, advanced by Step's while loop.
 *
 * Progress and times are reals (seconds), so float rounding is not
 * modelled. The script actions each operation queues for the callbacks
 * are not modelled either.
 */
module TweenStates {

  datatype TweenState = Stopped | Started | Paused | Completed

  /** totalRepeats counts passes: -1 is infinite, n > 0 means n passes. */
  datatype TweenPoint = TweenPoint(
    durationMs: int,
    totalRepeats: int,
    currentRepeat: int,
    yoyo: bool,
    startReversed: bool,
    currentlyReversed: bool)

  /** A point as During adds it: default members and the given duration. */
  function NewPoint(durationMs: int): TweenPoint
  {
    TweenPoint(durationMs, 0, 0, false, false, false)
  }

  /** The point as Reset leaves it: no repeats done, initial direction. */
  function Rewound(p: TweenPoint): TweenPoint
  {
    p.(currentRepeat := 0, currentlyReversed := p.startReversed)
  }

  function RewoundAll(s: seq<TweenPoint>): (r: seq<TweenPoint>)
    ensures |r| == |s| && forall i :: 0 <= i < |s| ==> r[i] == Rewound(s[i])
  {
    seq(|s|, i requires 0 <= i < |s| => Rewound(s[i]))
  }

  /** Everything of a point that running a tween does not change. */
  predicate SameShape(p: TweenPoint, q: TweenPoint)
  {
    p.durationMs == q.durationMs && p.totalRepeats == q.totalRepeats &&
    p.yoyo == q.yoyo && p.startReversed == q.startReversed
  }

  predicate SameShapes(s: seq<TweenPoint>, t: seq<TweenPoint>)
  {
    |s| == |t| && forall i :: 0 <= i < |s| ==> SameShape(s[i], t[i])
  }

  /** How many times a yoyo point has turned round after `done` finished
   *  passes: the pass that ends with repeat count c turns it round when c
   *  is below the budget (always, when the budget is infinite). */
  function Flips(done: int, total: int): int
  {
    if done <= 0 then 0
    else if total == -1 then done
    else if total - 1 < done then (if total - 1 < 0 then 0 else total - 1)
    else done
  }

  /** A point's direction is its start direction, turned round once per
   *  yoyo flip. */
  predicate YoyoConsistent(p: TweenPoint)
  {
    p.currentlyReversed == (p.startReversed != (p.yoyo && Flips(p.currentRepeat, p.totalRepeats) % 2 == 1))
  }

  predicate KeepsYoyoConsistent(s: seq<TweenPoint>, t: seq<TweenPoint>)
    requires |s| == |t|
  {
    forall i :: 0 <= i < |s| && YoyoConsistent(s[i]) ==> YoyoConsistent(t[i])
  }

  /** The sum of the point durations. */
  function TotalDuration(s: seq<TweenPoint>): int
  {
    if |s| == 0 then 0 else TotalDuration(s[..|s| - 1]) + s[|s| - 1].durationMs
  }

  /** The termination measure of Step's loop, in milliseconds of time
   *  left: every full pass of a point consumes at least one. */
  function TimeLeft(dt: real): nat
  {
    if dt > 0.0 then (dt * 1000.0).Floor + 1 else 0
  }

  class Tween {
    var state: TweenState
    var progress: real
    var index: nat
    var points: seq<TweenPoint>

    /** progress lies in [0, 1] (below 1 while started), and the index
     *  names a point whenever there is one. */
    ghost predicate Valid()
      reads this
    {
      Indexed() && (state == Started || state == Paused ==> progress < 1.0)
    }

    /** Valid, except that a pass may have just reached progress 1. */
    ghost predicate Indexed()
      reads this
    {
      0.0 <= progress <= 1.0 &&
      (index < |points| || (index == 0 && |points| == 0)) &&
      forall i :: 0 <= i < |points| ==> points[i].currentRepeat >= 0
    }

    constructor ()
      ensures Valid()
      ensures state == Stopped && progress == 0.0 && index == 0 && points == []
    {
      state := Stopped;
      progress := 0.0;
      index := 0;
      points := [];
    }

    /** A completed tween is neither running nor paused. */
    function IsCompleted(): (r: bool)
      reads this
      ensures r <==> state == Completed
      ensures r ==> !IsStarted()
    {
      state == Completed
    }

    function IsRunning(): (r: bool)
      reads this
      ensures r <==> state == Started
      ensures r ==> !IsPaused()
    {
      state == Started
    }

    /** Started, or started and then paused. */
    function IsStarted(): (r: bool)
      reads this
      ensures r <==> IsRunning() || IsPaused()
    {
      state == Started || state == Paused
    }

    function IsPaused(): (r: bool)
      reads this
      ensures r <==> state == Paused
    {
      state == Paused
    }

    /** During: append a point of the given non-negative duration. */
    method During(durationMs: int)
      requires Valid() && durationMs >= 0
      modifies this
      ensures Valid()
      ensures points == old(points) + [NewPoint(durationMs)]
      ensures state == old(state) && progress == old(progress) && index == old(index)
      ensures TotalDuration(points) == TotalDuration(old(points)) + durationMs
    {
      points := points + [NewPoint(durationMs)];
      assert points[..|points| - 1] == old(points);
    }

    /** Reset: progress and index back to 0, Stopped, and every point
     *  rewound. */
    method Reset()
      modifies this
      ensures Valid()
      ensures state == Stopped && progress == 0.0 && index == 0
      ensures points == RewoundAll(old(points))
    {
      progress := 0.0;
      index := 0;
      state := Stopped;
      var i := 0;
      while i < |points|
        invariant 0 <= i <= |points| == |old(points)|
        invariant state == Stopped && progress == 0.0 && index == 0
        invariant forall j :: 0 <= j < i ==> points[j] == Rewound(old(points)[j])
        invariant forall j :: i <= j < |points| ==> points[j] == old(points)[j]
      {
        points := points[i := Rewound(points[i])];
        i := i + 1;
      }
    }

    /** Start: a no-op on a running tween unless forced; otherwise a Reset
     *  followed by Started. */
    method Start(force: bool)
      requires Valid()
      modifies this
      ensures Valid()
      ensures !force && old(state) == Started ==>
                state == old(state) && progress == old(progress) && index == old(index) && points == old(points)
      ensures force || old(state) != Started ==>
                state == Started && progress == 0.0 && index == 0 && points == RewoundAll(old(points))
    {
      if !force && IsRunning() {
        return;
      }
      Reset();
      state := Started;
    }

    /** Stop: a started or paused tween becomes Stopped. */
    method Stop()
      requires Valid()
      modifies this`state
      ensures Valid()
      ensures state == if old(state) == Started || old(state) == Paused then Stopped else old(state)
    {
      if IsStarted() || IsPaused() {
        state := Stopped;
      }
    }

    /** Pause acts only on a running tween. */
    method Pause()
      requires Valid()
      modifies this`state
      ensures Valid()
      ensures state == if old(state) == Started then Paused else old(state)
    {
      if !IsRunning() {
        return;
      }
      state := Paused;
    }

    /** Resume acts only on a paused tween. */
    method Resume()
      requires Valid()
      modifies this`state
      ensures Valid()
      ensures state == if old(state) == Paused then Started else old(state)
    {
      if !IsPaused() {
        return;
      }
      state := Started;
    }

    /** Toggle: pause a running tween, resume a paused one, and otherwise
     *  start from the beginning. */
    method Toggle()
      requires Valid()
      modifies this
      ensures Valid()
      ensures old(state) == Started ==> state == Paused && points == old(points)
      ensures old(state) == Paused ==> state == Started && points == old(points)
      ensures old(state) == Started || old(state) == Paused ==> progress == old(progress) && index == old(index)
      ensures old(state) == Stopped || old(state) == Completed ==>
                state == Started && progress == 0.0 && index == 0 && points == RewoundAll(old(points))
    {
      if IsRunning() {
        Pause();
      } else if IsPaused() {
        Resume();
      } else {
        Start(false);
      }
    }

    /** Clear: drop every point, then Reset. */
    method Clear()
      requires Valid()
      modifies this
      ensures Valid()
      ensures points == [] && state == Stopped && progress == 0.0 && index == 0
    {
      points := [];
      Reset();
    }

    /** Repeat(0) does nothing; Repeat(n > 0) gives the last point n + 1
     *  passes, and Repeat(-1) makes it repeat forever. */
    method Repeat(repeats: int)
      requires Valid()
      requires repeats != 0 ==> (repeats == -1 || repeats > 0) && |points| > 0
      modifies this`points
      ensures Valid()
      ensures repeats == 0 ==> points == old(points)
      ensures repeats != 0 ==>
                |points| == |old(points)| &&
                points[..|points| - 1] == old(points)[..|points| - 1] &&
                points[|points| - 1] == old(points)[|points| - 1].(totalRepeats := if repeats == -1 then -1 else repeats + 1)
    {
      if repeats == 0 {
        return;
      }
      var last := points[|points| - 1];
      var total := repeats;
      if total != -1 {
        total := total + 1;
      }
      points := points[|points| - 1 := last.(totalRepeats := total)];
    }

    /** Reverse sets both the start and the current direction of the last point. */
    method Reverse(reversed: bool)
      requires Valid() && |points| > 0
      modifies this`points
      ensures Valid()
      ensures |points| == |old(points)| && points[..|points| - 1] == old(points)[..|points| - 1]
      ensures points[|points| - 1] == old(points)[|points| - 1].(startReversed := reversed, currentlyReversed := reversed)
    {
      var last := points[|points| - 1];
      points := points[|points| - 1 := last.(startReversed := reversed, currentlyReversed := reversed)];
    }

    method Yoyo(yoyo: bool)
      requires Valid() && |points| > 0
      modifies this`points
      ensures Valid()
      ensures |points| == |old(points)| && points[..|points| - 1] == old(points)[..|points| - 1]
      ensures points[|points| - 1] == old(points)[|points| - 1].(yoyo := yoyo)
    {
      var last := points[|points| - 1];
      points := points[|points| - 1 := last.(yoyo := yoyo)];
    }

    /** The progress in the current point's direction: mirrored while the
     *  point runs reversed. */
    function GetLinearProgress(): (r: real)
      requires Valid() && |points| > 0
      reads this
      ensures 0.0 <= r <= 1.0
      ensures r + (if points[index].currentlyReversed then progress else -progress) ==
              (if points[index].currentlyReversed then 1.0 else 0.0)
    {
      if points[index].currentlyReversed then 1.0 - progress else progress
    }

    /** The repeat count of the current point, or 0 past the end. */
    function GetRepeats(): (r: int)
      reads this
      ensures index >= |points| ==> r == 0
    {
      if index < |points| then points[index].currentRepeat else 0
    }

    method SetDuration(durationMs: int, i: nat)
      requires Valid() && i < |points|
      modifies this`points
      ensures Valid()
      ensures points == old(points)[i := old(points)[i].(durationMs := durationMs)]
    {
      points := points[i := points[i].(durationMs := durationMs)];
    }

    /** GetTotalDuration: the loop summing the point durations. */
    method GetTotalDuration() returns (total: int)
      ensures total == TotalDuration(points)
    {
      total := 0;
      var i := 0;
      while i < |points|
        invariant 0 <= i <= |points|
        invariant total == TotalDuration(points[..i])
      {
        assert points[..i + 1][..i] == points[..i];
        total := total + points[i].durationMs;
        i := i + 1;
      }
      assert points[..|points|] == points;
    }

    /** IncrementPoint: move to the next point, rewound and at progress 0,
     *  or, at the last point, complete with progress 1. */
    method IncrementPoint()
      requires Indexed()
      modifies this
      ensures Indexed() && (old(Valid()) || |old(points)| > 0 ==> Valid())
      ensures |old(points)| == 0 ==> state == old(state) && progress == old(progress) && index == old(index) && points == old(points)
      ensures |old(points)| > 0 && old(index) + 1 < |old(points)| ==>
                index == old(index) + 1 && progress == 0.0 && state == old(state) &&
                points == old(points)[index := Rewound(old(points)[index])]
      ensures |old(points)| > 0 && old(index) + 1 >= |old(points)| ==>
                state == Completed && progress == 1.0 && index == old(index) && points == old(points)
    {
      if |points| == 0 {
        return;
      }
      if index + 1 < |points| {
        index := index + 1;
        progress := 0.0;
        points := points[index := Rewound(points[index])];
      } else {
        state := Completed;
        progress := 1.0;
      }
    }

    /** RemoveLastTweenPoint: pop the last point and keep the index on a
     *  remaining point. */
    method RemoveLastTweenPoint()
      requires Valid()
      modifies this
      ensures Valid()
      ensures |old(points)| == 0 ==> points == old(points) && index == old(index)
      ensures |old(points)| > 0 ==> points == old(points)[..|old(points)| - 1]
      ensures |old(points)| > 0 ==>
                index == if old(index) != 0 && old(index) >= |old(points)| - 1 then old(index) - 1 else old(index)
      ensures state == old(state) && progress == old(progress)
    {
      if |points| == 0 {
        return;
      }
      var lastIndex := |points| - 1;
      points := points[..lastIndex];
      if index != 0 && index >= lastIndex {
        index := index - 1;
      }
    }

    /** The fields of the tween as one value. */
    function Snap(): Snapshot
      reads this
    {
      Snapshot(state, progress, index, points)
    }

    /** Step: advance a running tween by dt seconds, finishing passes,
     *  repeating, turning yoyo points round and moving on to later points
     *  until the time is used up or the tween completes. */
    method Step(dt: real)
      requires Valid()
      modifies this
      ensures Valid()
      ensures Snap() == StepSpec(old(Snap()), dt)
      ensures dt <= 0.0 || old(state) != Started ==>
                state == old(state) && progress == old(progress) && index == old(index) && points == old(points)
      ensures dt > 0.0 && old(state) == Started && |old(points)| == 0 ==> state == Completed && points == []
      ensures dt > 0.0 && old(state) == Started ==> state == Started || state == Completed
      ensures state == Completed && old(state) == Started && |old(points)| > 0 ==>
                progress == 1.0 && index == |points| - 1
      ensures SameShapes(old(points), points) && KeepsYoyoConsistent(old(points), points)
      ensures index >= old(index)
    {
      if dt <= 0.0 || state != Started {
        return;
      }
      if |points| == 0 {
        state := Completed;
        return;
      }
      ghost var initial := points;
      ghost var start := Snap();
      var left := dt;
      while left > 0.0 && state == Started
        invariant Valid() && |points| > 0
        invariant state == Started || state == Completed
        invariant state == Completed ==> progress == 1.0 && index == |points| - 1
        invariant SameShapes(initial, points) && KeepsYoyoConsistent(initial, points)
        invariant index >= old(index)
        invariant StepLoop(Snap(), left) == StepLoop(start, dt)
        decreases if state == Started then 1 else 0, TimeLeft(left), if progress > 0.0 then 1 else 0
      {
        left := StepOnce(left);
      }
    }

    /** One pass of Step's loop body: advance the current point by what is
     *  left of dt, and end the pass when it reaches progress 1. */
    method StepOnce(left: real) returns (rest: real)
      requires Valid() && |points| > 0 && state == Started && left > 0.0
      modifies this
      ensures Valid() && Snap() == Iterate(old(Snap()), left).0 && rest == Iterate(old(Snap()), left).1
      ensures state == Started || state == Completed
      ensures state == Completed ==> progress == 1.0 && index == |points| - 1
      ensures SameShapes(old(points), points) && KeepsYoyoConsistent(old(points), points)
      ensures index >= old(index)
    {
      ghost var s0 := Snap();
      var point := points[index];
      var duration := point.durationMs as real / 1000.0;
      if duration <= 0.0 {
        progress := 1.0;
        rest := 0.0;
        assert Iterate(s0, left).0 == PassEnded(s0.(progress := 1.0)) && Iterate(s0, left).1 == rest;
      } else {
        var newProgress := progress + left / duration;
        if newProgress >= 1.0 {
          rest := (newProgress - 1.0) * duration;
          progress := 1.0;
          IterateOvershoot(s0, left);
        } else {
          progress := newProgress;
          rest := 0.0;
          assert Snap() == Iterate(s0, left).0 && rest == Iterate(s0, left).1;
        }
      }
      if progress >= 1.0 {
        assert Snap() == s0.(progress := 1.0);
        EndPass();
        assert Snap() == Iterate(s0, left).0 && rest == Iterate(s0, left).1;
      }
    }

    /** The end of a pass inside Step: count it, then repeat (turning a
     *  yoyo point round) or move on to the next point. */
    method EndPass()
      requires Indexed() && |points| > 0 && state == Started && progress == 1.0
      modifies this
      ensures Valid()
      ensures Snap() == PassEnded(old(Snap()))
      ensures var p := FinishPass(old(points)[old(index)]);
              var again := p.totalRepeats == -1 || p.currentRepeat < p.totalRepeats;
              var counted := old(points)[old(index) := p];
              p.currentRepeat == old(points)[old(index)].currentRepeat + 1 &&
              (again ==> state == Started && progress == 0.0 && index == old(index) && points == counted) &&
              (!again && old(index) + 1 < |old(points)| ==>
                 state == Started && progress == 0.0 && index == old(index) + 1 &&
                 points == counted[index := Rewound(counted[index])]) &&
              (!again && old(index) + 1 >= |old(points)| ==>
                 state == Completed && progress == 1.0 && index == old(index) && points == counted)
      ensures SameShapes(old(points), points) && KeepsYoyoConsistent(old(points), points)
      ensures index >= old(index)
    {
      var point := FinishPass(points[index]);
      KeepsFinishPass(points, index);
      points := points[index := point];
      if point.totalRepeats == -1 || point.currentRepeat < point.totalRepeats {
        progress := 0.0;
      } else {
        ghost var finished := points;
        IncrementPoint();
        KeepsRewound(finished, index);
      }
    }
  }

  /** The tween's fields as a value: what Step's specification speaks of. */
  datatype Snapshot = Snapshot(state: TweenState, progress: real, index: nat, points: seq<TweenPoint>)

  /** The class's Indexed and Valid, on a snapshot. */
  predicate SnapIndexed(s: Snapshot)
  {
    0.0 <= s.progress <= 1.0 &&
    (s.index < |s.points| || (s.index == 0 && |s.points| == 0)) &&
    forall i :: 0 <= i < |s.points| ==> s.points[i].currentRepeat >= 0
  }

  predicate SnapValid(s: Snapshot)
  {
    SnapIndexed(s) && (s.state == Started || s.state == Paused ==> s.progress < 1.0)
  }

  /** IncrementPoint on a snapshot. */
  function Incremented(s: Snapshot): (r: Snapshot)
    requires SnapIndexed(s) && |s.points| > 0
    ensures SnapIndexed(r) && |r.points| == |s.points|
    ensures (r.state == Completed && r.progress == 1.0 && r.index == s.index) ||
            (r.state == s.state && r.progress == 0.0 && r.index == s.index + 1)
  {
    if s.index + 1 < |s.points| then
      s.(index := s.index + 1, progress := 0.0, points := s.points[s.index + 1 := Rewound(s.points[s.index + 1])])
    else
      s.(state := Completed, progress := 1.0)
  }

  /** The end of a pass on a snapshot: the pass is counted, then the point
   *  repeats or the tween moves on. What follows is running again from
   *  progress 0, or complete. */
  function PassEnded(s: Snapshot): (r: Snapshot)
    requires SnapIndexed(s) && |s.points| > 0 && s.state == Started
    ensures SnapValid(r) && |r.points| == |s.points|
    ensures r.state == Started || r.state == Completed
    ensures r.state == Started ==> r.progress == 0.0
  {
    var p := FinishPass(s.points[s.index]);
    var t := s.(points := s.points[s.index := p]);
    if p.totalRepeats == -1 || p.currentRepeat < p.totalRepeats then t.(progress := 0.0)
    else Incremented(t)
  }

  /** One pass of Step's loop body on a snapshot with `left` seconds to
   *  use: the snapshot afterwards and the time still left. A zero-length
   *  point ends its pass and uses up the step; otherwise the progress
   *  grows by left / duration, and a pass that reaches 1 ends and passes
   *  the overshoot on. */
  function Iterate(s: Snapshot, left: real): (r: (Snapshot, real))
    requires SnapValid(s) && |s.points| > 0 && s.state == Started && left > 0.0
    ensures SnapValid(r.0) && |r.0.points| == |s.points|
    ensures r.0.state == Started || r.0.state == Completed
    ensures r.0.state == Started ==>
              TimeLeft(r.1) < TimeLeft(left) ||
              (TimeLeft(r.1) == TimeLeft(left) && s.progress > 0.0 && r.0.progress == 0.0)
  {
    var ms := s.points[s.index].durationMs;
    var d := ms as real / 1000.0;
    if d <= 0.0 then (PassEnded(s.(progress := 1.0)), 0.0)
    else
      var np := s.progress + left / d;
      if np >= 1.0 then
        PassTime(left, s.progress, ms, (np - 1.0) * d);
        (PassEnded(s.(progress := 1.0)), (np - 1.0) * d)
      else (s.(progress := np), 0.0)
  }

  /** The overshoot case of Iterate: the pass ends and the time beyond its
   *  end is passed on. */
  lemma IterateOvershoot(s: Snapshot, left: real)
    requires SnapValid(s) && |s.points| > 0 && s.state == Started && left > 0.0
    requires var d := s.points[s.index].durationMs as real / 1000.0;
             d > 0.0 && s.progress + left / d >= 1.0
    ensures var d := s.points[s.index].durationMs as real / 1000.0;
            Iterate(s, left).0 == PassEnded(s.(progress := 1.0)) &&
            Iterate(s, left).1 == (s.progress + left / d - 1.0) * d
  {
  }

  /** What Step's while loop does from a snapshot with `left` seconds still
   *  to use: iterate while time is left and the tween runs. */
  function StepLoop(s: Snapshot, left: real): (r: Snapshot)
    requires SnapValid(s) && |s.points| > 0 && (s.state == Started || s.state == Completed)
    ensures SnapValid(r) && |r.points| == |s.points| && (r.state == Started || r.state == Completed)
    decreases if s.state == Started then 1 else 0, TimeLeft(left), if s.progress > 0.0 then 1 else 0
  {
    if !(left > 0.0 && s.state == Started) then s
    else
      var r := Iterate(s, left);
      StepLoop(r.0, r.1)
  }

  /** Step on a snapshot: nothing for a non-positive dt or a tween that is
   *  not running; an empty tween completes; otherwise the loop runs. */
  function StepSpec(s: Snapshot, dt: real): Snapshot
    requires SnapValid(s)
  {
    if dt <= 0.0 || s.state != Started then s
    else if |s.points| == 0 then s.(state := Completed)
    else StepLoop(s, dt)
  }

  /** A step that ends inside the current pass adds dt / duration to the
   *  progress and changes nothing else. */
  lemma StepWithinPass(s: Snapshot, dt: real)
    requires SnapValid(s) && s.state == Started && |s.points| > 0 && dt > 0.0
    requires s.points[s.index].durationMs > 0
    requires s.progress + dt / (s.points[s.index].durationMs as real / 1000.0) < 1.0
    ensures StepSpec(s, dt) == s.(progress := s.progress + dt / (s.points[s.index].durationMs as real / 1000.0))
  {
    var r := Iterate(s, dt);
    assert r.0 == s.(progress := s.progress + dt / (s.points[s.index].durationMs as real / 1000.0)) && r.1 == 0.0;
    assert StepLoop(r.0, r.1) == r.0;
  }

  /** A zero-length point uses up the whole step in one pass: the pass is
   *  counted and the point repeats or the tween moves on. */
  lemma StepZeroLength(s: Snapshot, dt: real)
    requires SnapValid(s) && s.state == Started && |s.points| > 0 && dt > 0.0
    requires s.points[s.index].durationMs <= 0
    ensures StepSpec(s, dt) == PassEnded(s.(progress := 1.0))
    ensures StepSpec(s, dt).points[s.index].currentRepeat == s.points[s.index].currentRepeat + 1
  {
    var r := Iterate(s, dt);
    assert r.0 == PassEnded(s.(progress := 1.0)) && r.1 == 0.0;
    assert StepLoop(r.0, r.1) == r.0;
  }

  /** One iteration on a point repeating forever stays on that point. */
  lemma IterateForever(s: Snapshot, left: real)
    requires SnapValid(s) && |s.points| > 0 && s.state == Started && left > 0.0
    requires s.points[s.index].totalRepeats == -1
    ensures var r := Iterate(s, left);
            r.0.state == Started && r.0.index == s.index && r.0.points[s.index].totalRepeats == -1
  {
  }

  /** A point repeating forever keeps the tween running on it, however
   *  long the step. */
  lemma {:induction false} ForeverKeepsRunning(s: Snapshot, left: real)
    requires SnapValid(s) && |s.points| > 0 && s.state == Started
    requires s.points[s.index].totalRepeats == -1
    ensures StepLoop(s, left).state == Started && StepLoop(s, left).index == s.index
    decreases TimeLeft(left), if s.progress > 0.0 then 1 else 0
  {
    if left > 0.0 {
      var r := Iterate(s, left);
      IterateForever(s, left);
      ForeverKeepsRunning(r.0, r.1);
    }
  }

  /** One iteration never moves back, and on the same point it never
   *  lowers the pass count. */
  lemma IterateCounts(s: Snapshot, left: real)
    requires SnapValid(s) && |s.points| > 0 && s.state == Started && left > 0.0
    ensures var r := Iterate(s, left);
            r.0.index >= s.index &&
            (r.0.index == s.index ==> r.0.points[s.index].currentRepeat >= s.points[s.index].currentRepeat)
  {
  }

  /** Over a whole step the index never moves back, and while the tween
   *  stays on its point the pass count only grows. */
  lemma {:induction false} StepCountsPasses(s: Snapshot, left: real)
    requires SnapValid(s) && |s.points| > 0 && (s.state == Started || s.state == Completed)
    ensures var r := StepLoop(s, left);
            r.index >= s.index &&
            (r.index == s.index ==> r.points[s.index].currentRepeat >= s.points[s.index].currentRepeat)
    decreases if s.state == Started then 1 else 0, TimeLeft(left), if s.progress > 0.0 then 1 else 0
  {
    if left > 0.0 && s.state == Started {
      var r := Iterate(s, left);
      IterateCounts(s, left);
      StepCountsPasses(r.0, r.1);
    }
  }

  /** The counter and direction update at the end of a pass: one more
   *  repeat, and a yoyo point that will repeat turns round. */
  function FinishPass(p: TweenPoint): (r: TweenPoint)
    ensures SameShape(p, r) && r.currentRepeat == p.currentRepeat + 1
    ensures YoyoConsistent(p) && p.currentRepeat >= 0 ==> YoyoConsistent(r)
  {
    var counted := p.(currentRepeat := p.currentRepeat + 1);
    var again := counted.totalRepeats == -1 || counted.currentRepeat < counted.totalRepeats;
    if counted.yoyo && again then counted.(currentlyReversed := !counted.currentlyReversed) else counted
  }

  lemma KeepsFinishPass(s: seq<TweenPoint>, i: nat)
    requires i < |s| && s[i].currentRepeat >= 0
    ensures SameShapes(s, s[i := FinishPass(s[i])])
    ensures KeepsYoyoConsistent(s, s[i := FinishPass(s[i])])
  {
  }

  lemma KeepsRewound(s: seq<TweenPoint>, i: nat)
    requires i < |s|
    ensures SameShapes(s, s[i := Rewound(s[i])]) && YoyoConsistent(Rewound(s[i]))
  {
  }

  /** A pass that ends inside the time step uses up at least a
   *  millisecond of it, unless it started part-way through. */
  lemma PassTime(left: real, progress: real, durationMs: int, left': real)
    requires left > 0.0 && 0.0 <= progress < 1.0 && durationMs > 0
    requires var d := durationMs as real / 1000.0;
             progress + left / d >= 1.0 && left' == (progress + left / d - 1.0) * d
    ensures left' < left
    ensures progress == 0.0 ==> TimeLeft(left') < TimeLeft(left)
    ensures TimeLeft(left') <= TimeLeft(left)
  {
    var d := durationMs as real / 1000.0;
    assert (left / d) * d == left;
    assert left' == progress * d + left - d;
  }
}
