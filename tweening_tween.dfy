/**
 * The tween of src/tweening/tween.cpp: a list of tween points, the
 * started and paused flags, the current point index and the progress
 * through it. Advancing time goes through AccumulateProgress, which runs
 * one pass completion per whole unit of progress, and then through
 * UpdateImpl and HandleCallbacks, which count repeats, turn yoyo points
 * round and move on to the next point.
 *
 * Progress and times are reals (durations in whole milliseconds, times in
 * seconds). Callbacks are not modelled: they are taken to leave the tween
 * as it is. The ease function GetProgress applies is left out, so the
 * progress reported is the linear one.
 */
module TweeningTween {

  /** totalRepeats: -1 repeats forever; otherwise the pass on which
   *  currentRepeat reaches it is the last. */
  datatype TweenPoint = TweenPoint(
    durationMs: int,
    totalRepeats: int,
    currentRepeat: int,
    yoyo: bool,
    startReversed: bool,
    currentlyReversed: bool)

  /** TweenPoint(duration) with the other members at their defaults. */
  function NewPoint(durationMs: int): (r: TweenPoint)
    ensures r.durationMs == durationMs && Rewound(r) == r
    ensures Completes(r.currentRepeat, r.totalRepeats, 1)
  {
    TweenPoint(durationMs, 0, 0, false, false, false)
  }

  function Rewound(p: TweenPoint): TweenPoint
  {
    p.(currentRepeat := 0, currentlyReversed := p.startReversed)
  }

  function RewoundAll(s: seq<TweenPoint>): (r: seq<TweenPoint>)
    ensures |r| == |s| && forall i :: 0 <= i < |s| ==> r[i] == Rewound(s[i])
  {
    seq(|s|, i requires 0 <= i < |s| => Rewound(s[i]))
  }

  /** The repeat count after one more finished pass: one more while the
   *  budget allows it (always, for -1). */
  function CountPass(c: int, total: int): int
  {
    if c < total || total == -1 then c + 1 else c
  }

  /** Whether a point whose repeat count is c completes within the next n
   *  finished passes: a pass completes the point when the counted repeat
   *  reaches the total. */
  function Completes(c: int, total: int, n: nat): bool
    decreases n
  {
    n > 0 && (CountPass(c, total) == total || Completes(CountPass(c, total), total, n - 1))
  }

  /** A point with total t > 0 counted c < t so far completes on pass
   *  t - c and not before. */
  lemma {:induction false} CompletesExactly(c: int, total: int)
    requires 0 <= c < total
    ensures !Completes(c, total, total - c - 1) && Completes(c, total, total - c)
    decreases total - c
  {
    if c + 1 < total {
      CompletesExactly(c + 1, total);
    }
  }

  /** Repeat(n) with n > 0 makes a rewound point run n + 1 passes. */
  lemma RepeatRunsPasses(n: int)
    requires n > 0
    ensures !Completes(0, n + 1, n) && Completes(0, n + 1, n + 1)
  {
    CompletesExactly(0, n + 1);
  }

  /** Repeat(-1) never completes the point. */
  lemma {:induction false} ForeverNeverCompletes(c: int, n: nat)
    requires c >= 0
    ensures !Completes(c, -1, n)
    decreases n
  {
    if n > 0 {
      ForeverNeverCompletes(c + 1, n - 1);
    }
  }

  /** The repeat count UpdateImpl leaves on the current point: the counted
   *  pass when one has just finished. */
  function Counted(p: TweenPoint, progress: real): (r: TweenPoint)
    ensures r.(currentRepeat := p.currentRepeat) == p
    ensures progress >= 1.0 ==> r.currentRepeat == CountPass(p.currentRepeat, p.totalRepeats)
    ensures progress < 1.0 ==> r == p
  {
    if progress >= 1.0 then p.(currentRepeat := CountPass(p.currentRepeat, p.totalRepeats))
    else p
  }

  /** The durations of a point list, which only During, SetDuration and
   *  Clear change. */
  function Durations(s: seq<TweenPoint>): (r: seq<int>)
    ensures |r| == |s| && forall i :: 0 <= i < |s| ==> r[i] == s[i].durationMs
  {
    seq(|s|, i requires 0 <= i < |s| => s[i].durationMs)
  }

  class Tween {
    var progress: real
    var index: nat
    var points: seq<TweenPoint>
    var paused: bool
    var started: bool

    ghost predicate Valid()
      reads this
    {
      0.0 <= progress <= 1.0 &&
      (index < |points| || (index == 0 && |points| == 0)) &&
      forall i :: 0 <= i < |points| ==> points[i].currentRepeat >= 0
    }

    constructor ()
      ensures Valid()
      ensures progress == 0.0 && index == 0 && points == [] && !paused && !started
    {
      progress := 0.0;
      index := 0;
      points := [];
      paused := false;
      started := false;
    }

    /** Completed: at full progress on the last point, or at full
     *  progress once stopped. */
    function IsCompleted(): (r: bool)
      reads this
      ensures r ==> |points| > 0 && progress >= 1.0
      ensures r && started ==> index >= |points| - 1
      ensures |points| > 0 && progress >= 1.0 && (!started || index >= |points| - 1) ==> r
    {
      |points| > 0 && progress >= 1.0 && (index >= |points| - 1 || !started)
    }

    /** Running: started and not paused. */
    function IsRunning(): (r: bool)
      reads this
      ensures r ==> started && !paused
      ensures started && !paused ==> r
    {
      started && !paused
    }

    /** The point GetCurrentTweenPoint returns. */
    function Current(): TweenPoint
      requires Valid() && |points| > 0
      reads this
    {
      points[index]
    }

    /** The fields of the tween as one value. */
    function Snap(): Snapshot
      reads this
    {
      Snapshot(progress, index, points, paused, started)
    }

    /** GetNewProgress: the progress after `time` more seconds of the
     *  current point, or 1 when the point has no duration (the float
     *  division yields an infinity or NaN). */
    function GetNewProgress(time: real): (r: real)
      requires Valid() && |points| > 0
      reads this
      ensures Current().durationMs == 0 ==> r == 1.0
      ensures Current().durationMs != 0 ==>
                (r - progress) * (Current().durationMs as real / 1000.0) == time
    {
      var d := Current().durationMs as real / 1000.0;
      if d == 0.0 then 1.0 else progress + time / d
    }

    /** GetProgress without the ease: mirrored while the point runs
     *  reversed, and the raw progress when there are no points. */
    function GetProgress(): (r: real)
      requires Valid()
      reads this
      ensures 0.0 <= r <= 1.0
      ensures |points| == 0 || !Current().currentlyReversed ==> r == progress
      ensures |points| > 0 && Current().currentlyReversed ==> r + progress == 1.0
    {
      if |points| == 0 then progress
      else if Current().currentlyReversed then 1.0 - progress
      else progress
    }

    /** During: append a point of the given non-negative duration. */
    method During(durationMs: int)
      requires Valid() && durationMs >= 0
      modifies this`points
      ensures Valid() && points == old(points) + [NewPoint(durationMs)]
    {
      points := points + [NewPoint(durationMs)];
    }

    /** Repeat(n > 0) gives the last point n + 1 passes in all; -1 repeats
     *  it forever. */
    method Repeat(repeats: int)
      requires Valid() && (repeats == -1 || repeats > 0) && |points| > 0
      modifies this`points
      ensures Valid()
      ensures points == old(points)[|old(points)| - 1 := old(points)[|old(points)| - 1].(totalRepeats := if repeats == -1 then -1 else repeats + 1)]
    {
      var total := repeats;
      if total != -1 {
        total := total + 1;
      }
      points := points[|points| - 1 := points[|points| - 1].(totalRepeats := total)];
    }

    /** Reverse: once started only the current direction of the last point
     *  changes; before that its start direction changes too. */
    method Reverse(reversed: bool)
      requires Valid() && |points| > 0
      modifies this`points
      ensures Valid()
      ensures started ==> points == old(points)[|old(points)| - 1 := old(points)[|old(points)| - 1].(currentlyReversed := reversed)]
      ensures !started ==> points == old(points)[|old(points)| - 1 := old(points)[|old(points)| - 1].(startReversed := reversed, currentlyReversed := reversed)]
    {
      var last := points[|points| - 1];
      if started {
        points := points[|points| - 1 := last.(currentlyReversed := reversed)];
      } else {
        points := points[|points| - 1 := last.(startReversed := reversed, currentlyReversed := reversed)];
      }
    }

    method Yoyo(yoyo: bool)
      requires Valid() && |points| > 0
      modifies this`points
      ensures Valid()
      ensures points == old(points)[|old(points)| - 1 := old(points)[|old(points)| - 1].(yoyo := yoyo)]
    {
      points := points[|points| - 1 := points[|points| - 1].(yoyo := yoyo)];
    }

    /** Reset: index, progress and both flags cleared, every point
     *  rewound. */
    method Reset()
      modifies this
      ensures Valid()
      ensures index == 0 && progress == 0.0 && !started && !paused
      ensures points == RewoundAll(old(points))
    {
      index := 0;
      progress := 0.0;
      started := false;
      paused := false;
      var i := 0;
      while i < |points|
        invariant 0 <= i <= |points| == |old(points)|
        invariant index == 0 && progress == 0.0 && !started && !paused
        invariant forall j :: 0 <= j < i ==> points[j] == Rewound(old(points)[j])
        invariant forall j :: i <= j < |points| ==> points[j] == old(points)[j]
      {
        points := points[i := Rewound(points[i])];
        i := i + 1;
      }
    }

    /** Clear: Reset, then drop every point. */
    method Clear()
      modifies this
      ensures Valid()
      ensures points == [] && index == 0 && progress == 0.0 && !started && !paused
    {
      Reset();
      points := [];
    }

    method Pause()
      modifies this`paused
      ensures paused
    {
      if !paused {
        paused := true;
      }
    }

    method Resume()
      modifies this`paused
      ensures !paused
    {
      if paused {
        paused := false;
      }
    }

    method Stop()
      modifies this`started
      ensures !started
    {
      if started {
        started := false;
      }
    }

    /** Start: a no-op on a running tween unless forced; otherwise a Reset
     *  followed by started. */
    method Start(force: bool)
      requires Valid()
      modifies this
      ensures Valid()
      ensures !force && old(IsRunning()) ==>
                progress == old(progress) && index == old(index) && points == old(points) && started && !paused
      ensures force || !old(IsRunning()) ==>
                index == 0 && progress == 0.0 && started && !paused && points == RewoundAll(old(points))
    {
      if !force && IsRunning() {
        return;
      }
      Reset();
      started := true;
    }

    /** Toggle: stop a started tween, otherwise start it. */
    method Toggle()
      requires Valid()
      modifies this
      ensures Valid()
      ensures old(started) ==> !started && progress == old(progress) && index == old(index) && points == old(points)
      ensures !old(started) ==> started && !paused && index == 0 && progress == 0.0 && points == RewoundAll(old(points))
    {
      if started {
        Stop();
      } else {
        Start(false);
      }
    }

    /** PointCompleted: move to the next point at progress 0 with its
     *  start direction, or, on the last point, end with progress 1 and
     *  the tween no longer started, which completes it. */
    method PointCompleted()
      requires Valid()
      modifies this
      ensures Snap() == NextPoint(old(Snap()))
      ensures Durations(points) == Durations(old(points))
      ensures Valid() && paused == old(paused)
      ensures |points| == 0 ==> points == old(points) && progress == old(progress) && index == old(index) && started == old(started)
      ensures |old(points)| > 0 && old(index) < |old(points)| - 1 ==>
                index == old(index) + 1 && progress == 0.0 && started == old(started) &&
                points == old(points)[index := old(points)[index].(currentlyReversed := old(points)[index].startReversed)]
      ensures |old(points)| > 0 && old(index) >= |old(points)| - 1 ==>
                progress == 1.0 && !started && index == old(index) && points == old(points) && IsCompleted()
    {
      if |points| == 0 {
        return;
      }
      if index < |points| - 1 {
        index := index + 1;
        progress := 0.0;
        points := points[index := points[index].(currentlyReversed := points[index].startReversed)];
      } else {
        progress := 1.0;
        started := false;
      }
    }

    /** HandleCallbacks: at the end of a pass of a running tween, complete
     *  the point when its repeats are used up; otherwise turn a yoyo point
     *  round and start the pass again. */
    method HandleCallbacks()
      requires Valid() && |points| > 0
      modifies this
      ensures Snap() == Handled(old(Snap()))
      ensures Durations(points) == Durations(old(points))
      ensures Valid() && |points| == |old(points)| > 0 && paused == old(paused)
      ensures !old(IsRunning()) || old(progress) < 1.0 ==>
                progress == old(progress) && index == old(index) && points == old(points) && started == old(started)
      ensures old(IsRunning()) && old(progress) >= 1.0 && old(Current().currentRepeat == Current().totalRepeats) ==>
                (old(index) < |points| - 1 ==> index == old(index) + 1 && progress == 0.0 && started) &&
                (old(index) >= |points| - 1 ==> IsCompleted() && !started && index == old(index))
      ensures old(IsRunning()) && old(progress) >= 1.0 && old(Current().currentRepeat != Current().totalRepeats) ==>
                progress == 0.0 && index == old(index) && started &&
                points == old(points)[index := old(Current()).(currentlyReversed := old(Current().currentlyReversed) != old(Current().yoyo))]
    {
      if !started || paused {
        return;
      }
      if progress < 1.0 {
        return;
      }
      var current := points[index];
      if current.currentRepeat == current.totalRepeats {
        PointCompleted();
        return;
      }
      if current.yoyo {
        points := points[index := current.(currentlyReversed := !current.currentlyReversed)];
      }
      progress := 0.0;
    }

    /** UpdateImpl: count the finished pass, handle it, and report the
     *  progress (1 once the tween has finished). */
    method UpdateImpl() returns (r: real)
      requires Valid() && |points| > 0
      modifies this
      ensures Snap() == Updated(old(Snap())) && r == UpdateResult(Snap())
      ensures Durations(points) == Durations(old(points))
      ensures Valid() && |points| == |old(points)| && paused == old(paused)
      ensures 0.0 <= r <= 1.0
      ensures !started && progress == 1.0 ==> r == 1.0
      ensures started || progress != 1.0 ==> r == GetProgress()
      ensures !old(IsRunning()) || old(progress) < 1.0 ==>
                progress == old(progress) && index == old(index) && started == old(started) &&
                points == old(points)[index := Counted(old(Current()), old(progress))]
      ensures old(IsRunning()) && old(progress) >= 1.0 ==>
                (Completes(old(Current().currentRepeat), old(Current().totalRepeats), 1) <==>
                 index == old(index) + 1 || IsCompleted())
      ensures old(IsRunning()) && old(progress) >= 1.0 && !Completes(old(Current().currentRepeat), old(Current().totalRepeats), 1) ==>
                progress == 0.0 && index == old(index) && started &&
                points[index].currentRepeat == CountPass(old(Current().currentRepeat), old(Current().totalRepeats)) &&
                points[index].currentlyReversed == (old(Current().currentlyReversed) != old(Current().yoyo))
    {
      points := points[index := Counted(points[index], progress)];
      HandleCallbacks();
      if !started && progress == 1.0 {
        return 1.0;
      }
      return GetProgress();
    }

    /** AccumulateProgress: progress below 1 passes through; otherwise one
     *  pass completion runs per whole unit, stopping with 1 as soon as the
     *  tween completes, and the fractional part is left over. */
    method AccumulateProgress(newProgress: real) returns (r: real)
      requires Valid() && newProgress >= 0.0
      requires newProgress >= 1.0 && IsRunning() ==> |points| > 0
      modifies this
      ensures Snap() == Accumulated(old(Snap()), newProgress).0 && r == Accumulated(old(Snap()), newProgress).1
      ensures Durations(points) == Durations(old(points))
      ensures Valid() && |points| == |old(points)|
      ensures 0.0 <= r <= 1.0
      ensures newProgress < 1.0 ==> r == newProgress && unchanged(this)
      ensures newProgress >= 1.0 && !old(IsRunning()) ==> r == old(GetProgress()) && unchanged(this)
      ensures newProgress >= 1.0 && old(IsRunning()) ==>
                (r == 1.0 && IsCompleted()) || (r == newProgress - newProgress.Floor as real && r < 1.0)
    {
      if newProgress < 1.0 {
        return newProgress;
      }
      if !started || paused {
        return GetProgress();
      }
      r := RunPasses(newProgress.Floor, newProgress);
    }

    /** AccumulateProgress's loop: up to `loops` passes, stopping with 1
     *  as soon as the tween completes, otherwise leaving the fractional
     *  part of np. */
    method RunPasses(loops: int, np: real) returns (r: real)
      requires Valid() && |points| > 0 && IsRunning() && np >= 0.0
      modifies this
      ensures Snap() == AccLoop(old(Snap()), loops, np).0 && r == AccLoop(old(Snap()), loops, np).1
      ensures Valid() && |points| == |old(points)| && Durations(points) == Durations(old(points))
      ensures (r == 1.0 && IsCompleted()) || r == np - np.Floor as real
    {
      ghost var start := Snap();
      var i := 0;
      while i < loops
        invariant 0 <= i <= loops || (loops <= 0 && i == 0)
        invariant Valid() && |points| == |old(points)| && IsRunning()
        invariant Durations(points) == Durations(old(points))
        invariant AccLoop(Snap(), loops - i, np).0 == AccLoop(start, loops, np).0
        invariant AccLoop(Snap(), loops - i, np).1 == AccLoop(start, loops, np).1
        decreases loops - i
      {
        ghost var before := Snap();
        var done := EndPass();
        AccLoopUnfold(before, loops - i, np);
        if done {
          return 1.0;
        }
        i := i + 1;
      }
      assert AccLoop(Snap(), loops - i, np).0 == Snap();
      return np - np.Floor as real;
    }

    /** One pass of AccumulateProgress's loop: the pass ends (progress 1)
     *  and is counted and handled; `done` says whether the tween finished. */
    method EndPass() returns (done: bool)
      requires Valid() && |points| > 0 && IsRunning()
      modifies this
      ensures Snap() == Updated(old(Snap()).(progress := 1.0)) && done == IsCompleted()
      ensures Valid() && |points| == |old(points)| && !paused
      ensures Durations(points) == Durations(old(points))
      ensures !done ==> started
    {
      progress := 1.0;
      var ignored := UpdateImpl();
      done := IsCompleted();
    }

    /** SeekImpl: a running tween jumps to the given progress, which is
     *  then handled like the end of an update. */
    method SeekImpl(newProgress: real) returns (r: real)
      requires Valid() && 0.0 <= newProgress <= 1.0
      modifies this
      ensures Snap() == Sought(old(Snap()), newProgress).0 && r == Sought(old(Snap()), newProgress).1
      ensures Durations(points) == Durations(old(points))
      ensures Valid() && |points| == |old(points)|
      ensures 0.0 <= r <= 1.0
      ensures !old(IsRunning()) || |old(points)| == 0 ==> r == old(GetProgress()) && unchanged(this)
    {
      if !started || paused || |points| == 0 {
        return GetProgress();
      }
      progress := newProgress;
      r := UpdateImpl();
    }

    /** Step: a running, unfinished tween advances by dt seconds through
     *  AccumulateProgress and SeekImpl; any other tween reports its
     *  progress unchanged. */
    method Step(dt: real) returns (r: real)
      requires Valid()
      requires IsRunning() && |points| > 0 && !IsCompleted() ==> GetNewProgress(dt) >= 0.0
      modifies this
      ensures Snap() == Stepped(old(Snap()), dt).0 && r == Stepped(old(Snap()), dt).1
      ensures Durations(points) == Durations(old(points))
      ensures Valid() && |points| == |old(points)|
      ensures 0.0 <= r <= 1.0
      ensures !old(IsRunning()) || |old(points)| == 0 || old(IsCompleted()) ==> r == old(GetProgress()) && unchanged(this)
    {
      if !started || paused || |points| == 0 || IsCompleted() {
        return GetProgress();
      }
      ghost var s := Snap();
      var newProgress := GetNewProgress(dt);
      assert newProgress == NewProgress(s, dt) && Stepped(s, dt) == Seeked(s, newProgress);
      var accumulated := AccumulateProgress(newProgress);
      ghost var a := Accumulated(s, newProgress);
      assert Snap() == a.0 && accumulated == a.1;
      r := SeekImpl(accumulated);
    }

    /** Seek to a progress value. */
    method Seek(newProgress: real) returns (r: real)
      requires Valid()
      requires IsRunning() && |points| > 0 ==> newProgress >= 0.0
      modifies this
      ensures Snap() == Seeked(old(Snap()), newProgress).0 && r == Seeked(old(Snap()), newProgress).1
      ensures Durations(points) == Durations(old(points))
      ensures Valid() && |points| == |old(points)|
      ensures 0.0 <= r <= 1.0
      ensures !old(IsRunning()) || |old(points)| == 0 ==> r == old(GetProgress()) && unchanged(this)
    {
      if !started || paused || |points| == 0 {
        return GetProgress();
      }
      var accumulated := AccumulateProgress(newProgress);
      r := SeekImpl(accumulated);
    }

    /** Seek by a time offset from the current progress. */
    method SeekTime(time: real) returns (r: real)
      requires Valid()
      requires IsRunning() && |points| > 0 ==> GetNewProgress(time) >= 0.0
      modifies this
      ensures Snap() == Seeked(old(Snap()), if |old(points)| > 0 then NewProgress(old(Snap()), time) else 0.0).0
      ensures r == Seeked(old(Snap()), if |old(points)| > 0 then NewProgress(old(Snap()), time) else 0.0).1
      ensures Durations(points) == Durations(old(points))
      ensures Valid() && |points| == |old(points)|
      ensures 0.0 <= r <= 1.0
      ensures !old(IsRunning()) || |old(points)| == 0 ==> r == old(GetProgress()) && unchanged(this)
    {
      if !started || paused || |points| == 0 {
        return GetProgress();
      }
      var accumulated := AccumulateProgress(GetNewProgress(time));
      r := SeekImpl(accumulated);
    }

    /** IncrementTweenPoint: finish the current point, unless the tween is
     *  already complete. */
    method IncrementTweenPoint()
      requires Valid()
      modifies this
      ensures Durations(points) == Durations(old(points))
      ensures Valid()
      ensures old(IsCompleted()) ==> unchanged(this)
      ensures !old(IsCompleted()) ==> Snap() == NextPoint(old(Snap()))
      ensures !old(IsCompleted()) && |old(points)| > 0 && old(index) >= |old(points)| - 1 ==> IsCompleted()
      ensures !old(IsCompleted()) && old(index) + 1 < |old(points)| ==>
                index == old(index) + 1 && progress == 0.0 && started == old(started) &&
                points == old(points)[index := old(points)[index].(currentlyReversed := old(points)[index].startReversed)]
    {
      if IsCompleted() {
        return;
      }
      if index >= |points| {
        return;
      }
      PointCompleted();
    }

    /** SetDuration: change one point's duration and re-run UpdateImpl. */
    method SetDuration(durationMs: int, i: nat)
      requires Valid() && durationMs >= 0 && i < |points|
      modifies this
      ensures Snap() == Retimed(old(Snap()), durationMs, i)
      ensures Valid() && |points| == |old(points)|
      ensures Durations(points) == Durations(old(points))[i := durationMs]
    {
      points := points[i := points[i].(durationMs := durationMs)];
      var ignored := UpdateImpl();
    }
  }

  /** The tween's fields as a value: what the time-advancing operations'
   *  specifications speak of. */
  datatype Snapshot = Snapshot(progress: real, index: nat, points: seq<TweenPoint>, paused: bool, started: bool)

  /** The class's Valid, on a snapshot. */
  predicate SnapValid(s: Snapshot)
  {
    0.0 <= s.progress <= 1.0 &&
    (s.index < |s.points| || (s.index == 0 && |s.points| == 0)) &&
    forall i :: 0 <= i < |s.points| ==> s.points[i].currentRepeat >= 0
  }

  predicate Running(s: Snapshot)
  {
    s.started && !s.paused
  }

  /** IsCompleted on a snapshot. */
  predicate Finished(s: Snapshot)
  {
    |s.points| > 0 && s.progress >= 1.0 && (s.index >= |s.points| - 1 || !s.started)
  }

  /** GetProgress on a snapshot, without the ease. */
  function ProgressOf(s: Snapshot): (r: real)
    requires SnapValid(s)
    ensures 0.0 <= r <= 1.0
  {
    if |s.points| == 0 then s.progress
    else if s.points[s.index].currentlyReversed then 1.0 - s.progress
    else s.progress
  }

  /** GetNewProgress on a snapshot: `time` seconds more of the current
   *  point, or 1 for a zero-length point. */
  function NewProgress(s: Snapshot, time: real): real
    requires SnapValid(s) && |s.points| > 0
  {
    var d := s.points[s.index].durationMs as real / 1000.0;
    if d == 0.0 then 1.0 else s.progress + time / d
  }

  /** PointCompleted on a snapshot: the next point from progress 0 in its
   *  start direction, or, on the last point, progress 1 and no longer
   *  started. */
  function NextPoint(s: Snapshot): (r: Snapshot)
    requires SnapValid(s)
    ensures SnapValid(r) && |r.points| == |s.points| && r.paused == s.paused
  {
    if |s.points| == 0 then s
    else if s.index < |s.points| - 1 then
      var n := s.points[s.index + 1];
      s.(index := s.index + 1, progress := 0.0, points := s.points[s.index + 1 := n.(currentlyReversed := n.startReversed)])
    else s.(progress := 1.0, started := false)
  }

  /** HandleCallbacks on a snapshot: at the end of a pass of a running
   *  tween the point completes when its count has reached its budget, and
   *  otherwise restarts, turned round when it yoyos. */
  function Handled(s: Snapshot): (r: Snapshot)
    requires SnapValid(s) && |s.points| > 0
    ensures SnapValid(r) && |r.points| == |s.points| && r.paused == s.paused
  {
    if !Running(s) || s.progress < 1.0 then s
    else
      var c := s.points[s.index];
      if c.currentRepeat == c.totalRepeats then NextPoint(s)
      else s.(progress := 0.0, points := s.points[s.index := c.(currentlyReversed := c.currentlyReversed != c.yoyo)])
  }

  /** UpdateImpl on a snapshot: count a finished pass, then handle it. */
  function Updated(s: Snapshot): (r: Snapshot)
    requires SnapValid(s) && |s.points| > 0
    ensures SnapValid(r) && |r.points| == |s.points| && r.paused == s.paused
  {
    Handled(s.(points := s.points[s.index := Counted(s.points[s.index], s.progress)]))
  }

  /** SetDuration on a snapshot: the point's duration changes and the
   *  tween is updated. */
  function Retimed(s: Snapshot, durationMs: int, i: nat): (r: Snapshot)
    requires SnapValid(s) && durationMs >= 0 && i < |s.points|
    ensures SnapValid(r) && |r.points| == |s.points| && r.paused == s.paused
  {
    Updated(s.(points := s.points[i := s.points[i].(durationMs := durationMs)]))
  }

  /** A duration set mid-pass changes that duration and nothing else. */
  lemma RetimedMidPass(s: Snapshot, durationMs: int, i: nat)
    requires SnapValid(s) && durationMs >= 0 && i < |s.points| && s.progress < 1.0
    ensures Retimed(s, durationMs, i) == s.(points := s.points[i := s.points[i].(durationMs := durationMs)])
  {
    var t := s.(points := s.points[i := s.points[i].(durationMs := durationMs)]);
    assert t.points[t.index := Counted(t.points[t.index], t.progress)] == t.points;
  }

  /** What UpdateImpl reports: 1 once the tween has finished. */
  function UpdateResult(t: Snapshot): real
    requires SnapValid(t)
  {
    if !t.started && t.progress == 1.0 then 1.0 else ProgressOf(t)
  }

  /** AccumulateProgress's loop with k of its passes to go: each pass ends
   *  the current pass of the point, and the loop stops with 1 as soon as
   *  the tween completes; after the last pass the fractional part of np
   *  is left. */
  function AccLoop(s: Snapshot, k: int, np: real): (r: (Snapshot, real))
    requires SnapValid(s) && |s.points| > 0 && np >= 0.0
    ensures SnapValid(r.0) && |r.0.points| == |s.points| && r.0.paused == s.paused
    ensures 0.0 <= r.1 <= 1.0
    decreases k
  {
    if k <= 0 then (s, np - np.Floor as real)
    else
      var t := Updated(s.(progress := 1.0));
      if Finished(t) then (t, 1.0) else AccLoop(t, k - 1, np)
  }

  /** One pass of AccLoop. */
  lemma AccLoopUnfold(s: Snapshot, k: int, np: real)
    requires SnapValid(s) && |s.points| > 0 && np >= 0.0 && k > 0
    ensures var t := Updated(s.(progress := 1.0));
            Finished(t) ==> AccLoop(s, k, np).0 == t && AccLoop(s, k, np).1 == 1.0
    ensures var t := Updated(s.(progress := 1.0));
            !Finished(t) ==> AccLoop(s, k, np).0 == AccLoop(t, k - 1, np).0 && AccLoop(s, k, np).1 == AccLoop(t, k - 1, np).1
  {
  }

  /** AccumulateProgress on a snapshot. */
  function Accumulated(s: Snapshot, np: real): (r: (Snapshot, real))
    requires SnapValid(s) && np >= 0.0
    requires np >= 1.0 && Running(s) ==> |s.points| > 0
    ensures SnapValid(r.0) && |r.0.points| == |s.points| && 0.0 <= r.1 <= 1.0
  {
    if np < 1.0 then (s, np)
    else if !Running(s) then (s, ProgressOf(s))
    else AccLoop(s, np.Floor, np)
  }

  /** SeekImpl on a snapshot: a running tween jumps to progress p and
   *  updates. */
  function Sought(s: Snapshot, p: real): (r: (Snapshot, real))
    requires SnapValid(s) && 0.0 <= p <= 1.0
  {
    if !Running(s) || |s.points| == 0 then (s, ProgressOf(s))
    else
      var t := Updated(s.(progress := p));
      (t, UpdateResult(t))
  }

  /** Seek on a snapshot: accumulate to the progress, then jump there. */
  function Seeked(s: Snapshot, np: real): (r: (Snapshot, real))
    requires SnapValid(s)
    requires Running(s) && |s.points| > 0 ==> np >= 0.0
  {
    if !Running(s) || |s.points| == 0 then (s, ProgressOf(s))
    else
      var a := Accumulated(s, np);
      Sought(a.0, a.1)
  }

  /** Step on a snapshot: a running, unfinished tween seeks to its progress
   *  dt seconds later. */
  function Stepped(s: Snapshot, dt: real): (r: (Snapshot, real))
    requires SnapValid(s)
    requires Running(s) && |s.points| > 0 && !Finished(s) ==> NewProgress(s, dt) >= 0.0
  {
    if !Running(s) || |s.points| == 0 || Finished(s) then (s, ProgressOf(s))
    else Seeked(s, NewProgress(s, dt))
  }

  /** The repeat count after n finished passes from c. */
  function CountPasses(c: int, total: int, n: nat): int
    decreases n
  {
    if n == 0 then c else CountPasses(CountPass(c, total), total, n - 1)
  }

  /** While the current point does not complete within k passes, the
   *  accumulation stays on it, running, counts k passes and leaves the
   *  fractional part of np. */
  lemma {:induction false} AccLoopStays(s: Snapshot, k: nat, np: real)
    requires SnapValid(s) && |s.points| > 0 && np >= 0.0 && Running(s)
    requires !Completes(s.points[s.index].currentRepeat, s.points[s.index].totalRepeats, k)
    ensures var r := AccLoop(s, k, np);
            r.1 == np - np.Floor as real && r.0.index == s.index && Running(r.0) &&
            r.0.points[s.index].totalRepeats == s.points[s.index].totalRepeats &&
            r.0.points[s.index].currentRepeat ==
              CountPasses(s.points[s.index].currentRepeat, s.points[s.index].totalRepeats, k)
    decreases k
  {
    if k > 0 {
      var c := s.points[s.index];
      var t := Updated(s.(progress := 1.0));
      assert CountPass(c.currentRepeat, c.totalRepeats) != c.totalRepeats;
      assert t.index == s.index && t.progress == 0.0 && Running(t);
      assert t.points[s.index].currentRepeat == CountPass(c.currentRepeat, c.totalRepeats);
      assert t.points[s.index].totalRepeats == c.totalRepeats;
      AccLoopStays(t, k - 1, np);
    }
  }

  /** On the last point, when it completes within k passes, the
   *  accumulation ends with 1 and a completed tween. */
  lemma {:induction false} AccLoopCompletes(s: Snapshot, k: nat, np: real)
    requires SnapValid(s) && |s.points| > 0 && np >= 0.0 && Running(s)
    requires s.index == |s.points| - 1
    requires Completes(s.points[s.index].currentRepeat, s.points[s.index].totalRepeats, k)
    ensures AccLoop(s, k, np).1 == 1.0 && Finished(AccLoop(s, k, np).0)
    decreases k
  {
    var c := s.points[s.index];
    var t := Updated(s.(progress := 1.0));
    if CountPass(c.currentRepeat, c.totalRepeats) == c.totalRepeats {
      assert Finished(t);
    } else {
      assert t.index == s.index && t.progress == 0.0 && Running(t);
      assert t.points[s.index].currentRepeat == CountPass(c.currentRepeat, c.totalRepeats);
      assert t.points[s.index].totalRepeats == c.totalRepeats;
      AccLoopCompletes(t, k - 1, np);
    }
  }

  /** Accumulating a progress of at least 1 on a running tween whose
   *  current point does not complete within floor(np) passes counts
   *  floor(np) passes and leaves the fractional part. */
  lemma AccumulateCountsPasses(s: Snapshot, np: real)
    requires SnapValid(s) && |s.points| > 0 && Running(s) && np >= 1.0
    requires !Completes(s.points[s.index].currentRepeat, s.points[s.index].totalRepeats, np.Floor as nat)
    ensures var r := Accumulated(s, np);
            r.1 == np - np.Floor as real && r.0.index == s.index &&
            r.0.points[s.index].currentRepeat ==
              CountPasses(s.points[s.index].currentRepeat, s.points[s.index].totalRepeats, np.Floor as nat)
  {
    AccLoopStays(s, np.Floor as nat, np);
  }

  /** A point repeated forever is never left by an accumulation, however
   *  large the progress. */
  lemma AccumulateForever(s: Snapshot, np: real)
    requires SnapValid(s) && |s.points| > 0 && Running(s) && np >= 1.0
    requires s.points[s.index].totalRepeats == -1
    ensures Accumulated(s, np).1 == np - np.Floor as real && Accumulated(s, np).0.index == s.index
  {
    ForeverNeverCompletes(s.points[s.index].currentRepeat, np.Floor as nat);
    AccumulateCountsPasses(s, np);
  }

  /** A last point with Repeat(n) from a rewound start: n passes keep it
   *  running on it, and n + 1 complete the tween. */
  lemma AccumulateRepeat(s: Snapshot, n: nat, np: real)
    requires SnapValid(s) && |s.points| > 0 && Running(s) && n > 0 && np >= 0.0
    requires s.index == |s.points| - 1
    requires s.points[s.index].currentRepeat == 0 && s.points[s.index].totalRepeats == n + 1
    ensures AccLoop(s, n, np).0.index == s.index && Running(AccLoop(s, n, np).0)
    ensures AccLoop(s, n + 1, np).1 == 1.0 && Finished(AccLoop(s, n + 1, np).0)
  {
    RepeatRunsPasses(n);
    AccLoopStays(s, n, np);
    AccLoopCompletes(s, n + 1, np);
  }

  /** Seeking a running tween to a progress below 1 lands on that progress
   *  of the same point, with the points unchanged. */
  lemma SoughtLands(s: Snapshot, p: real)
    requires SnapValid(s) && |s.points| > 0 && Running(s) && 0.0 <= p < 1.0
    ensures Sought(s, p).0 == s.(progress := p)
    ensures Sought(s, p).1 == ProgressOf(s.(progress := p))
  {
    assert s.points[s.index := Counted(s.points[s.index], p)] == s.points;
  }

  /** Seek to a progress below 1 lands there. */
  lemma SeekedLands(s: Snapshot, p: real)
    requires SnapValid(s) && |s.points| > 0 && Running(s) && 0.0 <= p < 1.0
    ensures Seeked(s, p).0 == s.(progress := p)
    ensures Seeked(s, p).1 == ProgressOf(s.(progress := p))
  {
    SoughtLands(s, p);
  }

  /** A step inside the current pass of a positive-length point adds
   *  dt / duration to the progress and ends on the same point. */
  lemma StepWithinPass(s: Snapshot, dt: real)
    requires SnapValid(s) && |s.points| > 0 && Running(s) && !Finished(s)
    requires s.points[s.index].durationMs > 0
    requires var np := s.progress + dt / (s.points[s.index].durationMs as real / 1000.0);
             0.0 <= np < 1.0
    ensures var np := s.progress + dt / (s.points[s.index].durationMs as real / 1000.0);
            Stepped(s, dt).0 == s.(progress := np) && Stepped(s, dt).1 == ProgressOf(s.(progress := np))
  {
    var np := s.progress + dt / (s.points[s.index].durationMs as real / 1000.0);
    assert NewProgress(s, dt) == np;
    SeekedLands(s, np);
  }
}
