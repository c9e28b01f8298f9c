/**
 * The handle-based tween of src/utility/tween.cpp and the tween manager's
 * per-frame update.
 *
 * A Tween here is the handle together with the instance it refers to:
 * `alive` is the handle's validity (Destroy clears it, Create gives an
 * invalid handle a fresh instance), and the remaining fields are the
 * instance's. Operations that go through Get() require a valid handle.
 * Copies of a handle are the same object, so a tween stored in the
 * manager twice is stepped twice, as in the source. Callbacks are taken
 * to leave the tween as it is, and the ease function is left out.
 */
module TweenHandles {
  import TweeningTween

  datatype TweenPoint = TweenPoint(
    durationMs: int,
    totalRepeats: int,
    currentRepeat: int,
    yoyo: bool,
    reversed: bool)

  function NewPoint(durationMs: int): (r: TweenPoint)
    ensures r.durationMs == durationMs && r.currentRepeat == 0 && !r.reversed
    ensures TweeningTween.Completes(r.currentRepeat, r.totalRepeats, 1)
  {
    TweenPoint(durationMs, 0, 0, false, false)
  }

  /** Reset clears every repeat count and keeps each direction. */
  function ClearedRepeats(s: seq<TweenPoint>): (r: seq<TweenPoint>)
    ensures |r| == |s|
    ensures forall i :: 0 <= i < |s| ==> r[i] == s[i].(currentRepeat := 0)
  {
    seq(|s|, i requires 0 <= i < |s| => s[i].(currentRepeat := 0))
  }

  /** Point durations, which only During, SetDuration and Clear change. */
  predicate SameDurations(a: seq<TweenPoint>, b: seq<TweenPoint>)
  {
    |a| == |b| && forall i :: 0 <= i < |a| ==> a[i].durationMs == b[i].durationMs
  }

  class Tween {
    var alive: bool
    var progress: real
    var index: nat
    var points: seq<TweenPoint>
    var paused: bool
    var started: bool
    var destroyOnComplete: bool
    var managerTween: bool

    ghost predicate Valid()
      reads this
    {
      0.0 <= progress <= 1.0 &&
      (index < |points| || (index == 0 && |points| == 0)) &&
      forall i :: 0 <= i < |points| ==> points[i].currentRepeat >= 0 && points[i].durationMs >= 0
    }

    /** A default (invalid) handle. */
    constructor ()
      ensures Valid() && !alive
    {
      alive := false;
      progress := 0.0;
      index := 0;
      points := [];
      paused := false;
      started := false;
      destroyOnComplete := true;
      managerTween := false;
    }

    /** Tween(milliseconds): a handle with a fresh instance holding one
     *  point of the given duration, stopped at progress 0. */
    constructor OfDuration(durationMs: int)
      requires durationMs >= 0
      ensures Valid() && alive && points == [NewPoint(durationMs)]
      ensures progress == 0.0 && index == 0 && !paused && !started && destroyOnComplete && !managerTween
    {
      alive := true;
      progress := 0.0;
      index := 0;
      points := [NewPoint(durationMs)];
      paused := false;
      started := false;
      destroyOnComplete := true;
      managerTween := false;
    }

    /** A handle is valid while it refers to an instance. */
    function IsValid(): (r: bool)
      reads this
      ensures r <==> alive
    {
      alive
    }

    /** Only a valid handle can be completed: at full progress on the
     *  last point, or at full progress once stopped. */
    function IsCompleted(): (r: bool)
      reads this
      ensures r ==> IsValid() && |points| > 0 && progress >= 1.0
      ensures r && IsStarted() ==> index >= |points| - 1
    {
      alive && |points| > 0 && progress >= 1.0 && (index >= |points| - 1 || !started)
    }

    /** Running: valid, started and not paused. */
    function IsRunning(): (r: bool)
      reads this
      ensures r ==> IsValid() && started
      ensures r <==> IsStarted() && !IsPaused()
    {
      alive && started && !paused
    }

    function IsStarted(): (r: bool)
      reads this
      ensures r ==> IsValid()
      ensures r <==> alive && started
    {
      alive && started
    }

    function IsPaused(): (r: bool)
      reads this
      ensures r ==> IsValid()
      ensures r <==> alive && paused
    {
      alive && paused
    }

    function Current(): TweenPoint
      requires Valid() && |points| > 0
      reads this
    {
      points[index]
    }

    /** The handle and instance fields as one value. */
    function Snap(): Snapshot
      reads this
    {
      Snapshot(alive, progress, index, points, paused, started, destroyOnComplete, managerTween)
    }

    /** GetRepeats: the repeat count of the current point. */
    function GetRepeats(): (r: int)
      requires Valid() && alive && |points| > 0
      reads this
      ensures r >= 0 && r == points[index].currentRepeat
    {
      Current().currentRepeat
    }

    /** GetNewProgress: progress after `time` more seconds of the current
     *  point; 1 when the point has no duration. */
    function GetNewProgress(time: real): (r: real)
      requires Valid() && alive && |points| > 0
      reads this
      ensures Current().durationMs == 0 ==> r == 1.0
      ensures Current().durationMs != 0 ==>
                (r - progress) * (Current().durationMs as real / 1000.0) == time
    {
      var d := Current().durationMs as real / 1000.0;
      if d == 0.0 then 1.0 else progress + time / d
    }

    /** GetProgress without the ease: mirrored on a reversed point. */
    function GetProgress(): (r: real)
      requires Valid() && alive && |points| > 0
      reads this
      ensures 0.0 <= r <= 1.0
      ensures !Current().reversed ==> r == progress
      ensures Current().reversed ==> r + progress == 1.0
    {
      if Current().reversed then 1.0 - progress else progress
    }

    /** Create: an invalid handle gets a fresh default instance. */
    method Create()
      requires Valid()
      modifies this
      ensures Valid() && alive
      ensures old(alive) ==> unchanged(this)
      ensures !old(alive) ==> progress == 0.0 && index == 0 && points == [] && !paused && !started
    {
      if alive {
        return;
      }
      alive := true;
      progress := 0.0;
      index := 0;
      points := [];
      paused := false;
      started := false;
      destroyOnComplete := true;
      managerTween := false;
    }

    method Destroy()
      modifies this`alive
      ensures !alive
    {
      alive := false;
    }

    /** During: create the instance if needed and append a point of the
     *  given non-negative duration. */
    method During(durationMs: int)
      requires Valid() && durationMs >= 0
      modifies this
      ensures Valid() && alive
      ensures old(alive) ==> points == old(points) + [NewPoint(durationMs)]
      ensures !old(alive) ==> points == [NewPoint(durationMs)]
    {
      Create();
      points := points + [NewPoint(durationMs)];
    }

    /** KeepAlive: a kept-alive tween is not destroyed on completion. */
    method KeepAlive(keepAlive: bool)
      requires Valid()
      modifies this
      ensures Valid() && alive && destroyOnComplete == !keepAlive
      ensures old(alive) ==> points == old(points) && progress == old(progress)
    {
      Create();
      destroyOnComplete := !keepAlive;
    }

    /** Repeat(n > 0) gives the last point n + 1 passes; -1 is forever. */
    method Repeat(repeats: int)
      requires Valid() && alive && (repeats == -1 || repeats > 0) && |points| > 0
      modifies this`points
      ensures Valid()
      ensures points == old(points)[|old(points)| - 1 := old(points)[|old(points)| - 1].(totalRepeats := if repeats == -1 then -1 else repeats + 1)]
    {
      var total := repeats;
      if total != -1 {
        total := total + 1;
      }
      points := points[|points| - 1 := points[|points| - 1].(totalRepeats := total)];
    }

    method Reverse(reversed: bool)
      requires Valid() && alive && |points| > 0
      modifies this`points
      ensures Valid()
      ensures points == old(points)[|old(points)| - 1 := old(points)[|old(points)| - 1].(reversed := reversed)]
    {
      points := points[|points| - 1 := points[|points| - 1].(reversed := reversed)];
    }

    method Yoyo(yoyo: bool)
      requires Valid() && alive && |points| > 0
      modifies this`points
      ensures Valid()
      ensures points == old(points)[|old(points)| - 1 := old(points)[|old(points)| - 1].(yoyo := yoyo)]
    {
      points := points[|points| - 1 := points[|points| - 1].(yoyo := yoyo)];
    }

    method Pause()
      requires alive
      modifies this`paused
      ensures paused
    {
      if !paused {
        paused := true;
      }
    }

    method Resume()
      requires alive
      modifies this`paused
      ensures !paused
    {
      if paused {
        paused := false;
      }
    }

    method Stop()
      requires alive
      modifies this`started
      ensures !started
    {
      if started {
        started := false;
      }
    }

    /** Reset: index, progress and flags cleared and every repeat count
     *  zeroed; the directions are kept. */
    method Reset()
      requires Valid() && alive
      modifies this`index, this`progress, this`started, this`paused, this`points
      ensures Valid()
      ensures index == 0 && progress == 0.0 && !started && !paused
      ensures points == ClearedRepeats(old(points))
    {
      index := 0;
      progress := 0.0;
      started := false;
      paused := false;
      var i := 0;
      while i < |points|
        invariant 0 <= i <= |points| == |old(points)|
        invariant index == 0 && progress == 0.0 && !started && !paused
        invariant forall j :: 0 <= j < i ==> points[j] == old(points)[j].(currentRepeat := 0)
        invariant forall j :: i <= j < |points| ==> points[j] == old(points)[j]
      {
        points := points[i := points[i].(currentRepeat := 0)];
        i := i + 1;
      }
    }

    /** Start: always a Reset followed by started, paused left false. */
    method Start()
      requires Valid() && alive
      modifies this`index, this`progress, this`started, this`paused, this`points
      ensures Valid() && IsRunning()
      ensures index == 0 && progress == 0.0 && points == ClearedRepeats(old(points))
    {
      Reset();
      started := true;
    }

    /** Clear: Reset, then drop every point. */
    method Clear()
      requires Valid() && alive
      modifies this`index, this`progress, this`started, this`paused, this`points
      ensures Valid()
      ensures points == [] && index == 0 && progress == 0.0 && !started && !paused
    {
      Reset();
      points := [];
    }

    /** PointCompleted: move to the next point at progress 0, or on the
     *  last point end with progress 1 and not started, destroying a tween
     *  that is neither managed nor kept alive. */
    method PointCompleted()
      requires Valid() && alive
      modifies this`index, this`progress, this`started, this`alive
      ensures Snap() == NextPoint(old(Snap()))
      ensures SameDurations(points, old(points))
      ensures Valid() && points == old(points) && paused == old(paused)
      ensures |points| == 0 ==> unchanged(this)
      ensures |points| > 0 && old(index) < |points| - 1 ==>
                index == old(index) + 1 && progress == 0.0 && started == old(started) && alive
      ensures |points| > 0 && old(index) >= |points| - 1 ==>
                progress == 1.0 && !started && index == old(index) &&
                (alive <==> managerTween || !destroyOnComplete) &&
                (alive ==> IsCompleted())
    {
      if |points| == 0 {
        return;
      }
      if index < |points| - 1 {
        index := index + 1;
        progress := 0.0;
      } else {
        progress := 1.0;
        started := false;
        if !managerTween && destroyOnComplete {
          Destroy();
        }
      }
    }

    /** HandleCallbacks: at the end of a pass of a running tween, complete
     *  the point when its repeats are used up; otherwise turn a yoyo point
     *  round and start the pass again. */
    method HandleCallbacks()
      requires Valid() && |points| > 0
      modifies this`index, this`progress, this`started, this`alive, this`points
      ensures Snap() == Handled(old(Snap()))
      ensures SameDurations(points, old(points))
      ensures Valid() && |points| == |old(points)| && paused == old(paused)
      ensures !old(IsRunning()) || old(progress) < 1.0 ==> unchanged(this)
      ensures old(IsRunning()) && old(progress) >= 1.0 && old(Current().currentRepeat == Current().totalRepeats) ==>
                points == old(points) &&
                (old(index) < |points| - 1 ==> index == old(index) + 1 && progress == 0.0 && started && alive) &&
                (old(index) >= |points| - 1 ==> progress == 1.0 && !started && (alive <==> managerTween || !destroyOnComplete))
      ensures old(IsRunning()) && old(progress) >= 1.0 && old(Current().currentRepeat != Current().totalRepeats) ==>
                progress == 0.0 && index == old(index) && started && alive &&
                points == old(points)[index := old(Current()).(reversed := old(Current().reversed) != old(Current().yoyo))]
    {
      if !IsStarted() || IsPaused() {
        return;
      }
      if progress < 1.0 {
        return;
      }
      var current := points[index];
      if current.currentRepeat == current.totalRepeats {
        PointCompleted();
        return;
      }
      if current.yoyo {
        points := points[index := current.(reversed := !current.reversed)];
      }
      progress := 0.0;
    }

    /** UpdateImpl: count the finished pass, handle it, and report the
     *  progress, or 1 once the tween has been destroyed. */
    method UpdateImpl() returns (r: real)
      requires Valid() && alive && |points| > 0
      modifies this`index, this`progress, this`started, this`alive, this`points
      ensures Snap() == Updated(old(Snap())) && r == UpdateResult(Snap())
      ensures SameDurations(points, old(points))
      ensures Valid() && |points| == |old(points)| && paused == old(paused)
      ensures 0.0 <= r <= 1.0
      ensures !alive ==> r == 1.0
      ensures alive ==> r == GetProgress()
      ensures old(started) && !started ==> !alive || IsCompleted()
      ensures !old(IsRunning()) || old(progress) < 1.0 ==>
                alive && progress == old(progress) && index == old(index) && started == old(started) &&
                points == old(points)[index := old(Current()).(currentRepeat := if old(progress) >= 1.0 then TweeningTween.CountPass(old(Current().currentRepeat), old(Current().totalRepeats)) else old(Current().currentRepeat))]
      ensures old(IsRunning()) && old(progress) >= 1.0 ==>
                (TweeningTween.Completes(old(Current().currentRepeat), old(Current().totalRepeats), 1) <==>
                 index == old(index) + 1 || !started)
    {
      ghost var s0 := Snap();
      points := points[index := CountedPoint(points[index], progress)];
      assert Snap() == s0.(points := s0.points[s0.index := CountedPoint(s0.points[s0.index], s0.progress)]);
      HandleCallbacks();
      if !IsValid() {
        return 1.0;
      }
      return GetProgress();
    }

    /** AccumulateProgress: progress below 1 passes through; otherwise one
     *  pass completion runs per whole unit, stopping with 1 as soon as the
     *  tween completes or is destroyed, and the fractional part is left. */
    method AccumulateProgress(newProgress: real) returns (r: real)
      requires Valid() && newProgress >= 0.0
      requires newProgress >= 1.0 ==> alive && |points| > 0
      modifies this`index, this`progress, this`started, this`alive, this`points
      ensures Snap() == Accumulated(old(Snap()), newProgress).0 && r == Accumulated(old(Snap()), newProgress).1
      ensures SameDurations(points, old(points))
      ensures Valid() && |points| == |old(points)| && paused == old(paused)
      ensures 0.0 <= r <= 1.0
      ensures newProgress < 1.0 ==> r == newProgress && unchanged(this)
      ensures newProgress >= 1.0 && !old(IsRunning()) ==> r == old(GetProgress()) && unchanged(this)
      ensures newProgress >= 1.0 && old(IsRunning()) ==>
                (r == 1.0 && (!alive || IsCompleted())) ||
                (r == newProgress - newProgress.Floor as real && r < 1.0 && alive && started)
    {
      if newProgress < 1.0 {
        return newProgress;
      }
      if !started || paused {
        return GetProgress();
      }
      ghost var start := Snap();
      AccLoopEnds(start, newProgress.Floor, newProgress);
      r := RunPasses(newProgress.Floor, newProgress);
    }

    /** AccumulateProgress's loop: up to `loops` passes, stopping with 1
     *  as soon as the tween is destroyed or completed, otherwise leaving
     *  the fractional part of np. */
    method RunPasses(loops: int, np: real) returns (r: real)
      requires Valid() && |points| > 0 && IsRunning() && np >= 0.0
      modifies this`index, this`progress, this`started, this`alive, this`points
      ensures Snap() == AccLoop(old(Snap()), loops, np).0 && r == AccLoop(old(Snap()), loops, np).1
      ensures Valid() && |points| == |old(points)| && paused == old(paused)
      ensures SameDurations(points, old(points))
    {
      ghost var goal := AccLoop(Snap(), loops, np);
      var i := 0;
      while i < loops
        invariant 0 <= i <= loops || (loops <= 0 && i == 0)
        invariant Valid() && alive && started && |points| == |old(points)| && paused == old(paused)
        invariant SameDurations(points, old(points))
        invariant AccLoop(Snap(), loops - i, np) == goal
        decreases loops - i
      {
        ghost var before := points;
        var done := PassTurn(loops - i, np, goal);
        assert SameDurations(points, before);
        if done {
          return 1.0;
        }
        i := i + 1;
      }
      return np - np.Floor as real;
    }

    /** One turn of RunPasses with `k` passes left towards `goal`, the
     *  tween and result the remaining passes lead to. */
    method PassTurn(k: int, np: real, ghost goal: (Snapshot, real)) returns (done: bool)
      requires Valid() && |points| > 0 && IsRunning() && np >= 0.0 && k > 0
      requires AccLoop(Snap(), k, np) == goal
      modifies this`index, this`progress, this`started, this`alive, this`points
      ensures Valid() && |points| == |old(points)| && paused == old(paused)
      ensures SameDurations(points, old(points))
      ensures done ==> Snap() == goal.0 && goal.1 == 1.0
      ensures !done ==> alive && started && AccLoop(Snap(), k - 1, np) == goal
    {
      ghost var before := Snap();
      done := EndPass();
      AccLoopUnfold(before, k, np);
    }

    /** One pass of AccumulateProgress's loop: the pass ends (progress 1)
     *  and is counted and handled; `done` says whether the tween was
     *  destroyed or completed. */
    method EndPass() returns (done: bool)
      requires Valid() && |points| > 0 && IsRunning()
      modifies this`index, this`progress, this`started, this`alive, this`points
      ensures Snap() == Updated(old(Snap()).(progress := 1.0)) && done == (!IsValid() || IsCompleted())
      ensures Valid() && |points| == |old(points)| && paused == old(paused)
      ensures SameDurations(points, old(points))
      ensures !done ==> alive && started
    {
      progress := 1.0;
      var ignored := UpdateImpl();
      done := !IsValid() || IsCompleted();
    }

    /** SeekImpl: 1 for a destroyed tween, the progress of a tween that is
     *  not running, and otherwise a jump to the given progress handled
     *  like the end of an update. */
    method SeekImpl(newProgress: real) returns (r: real)
      requires Valid() && 0.0 <= newProgress <= 1.0
      requires alive ==> |points| > 0
      modifies this`index, this`progress, this`started, this`alive, this`points
      ensures Snap() == Sought(old(Snap()), newProgress).0 && r == Sought(old(Snap()), newProgress).1
      ensures SameDurations(points, old(points))
      ensures Valid() && |points| == |old(points)| && paused == old(paused)
      ensures 0.0 <= r <= 1.0
      ensures !old(alive) ==> r == 1.0 && unchanged(this)
      ensures old(alive) && !old(IsRunning()) ==> r == old(GetProgress()) && unchanged(this)
    {
      if !IsValid() {
        return 1.0;
      }
      if !started || paused {
        return GetProgress();
      }
      progress := newProgress;
      r := UpdateImpl();
    }

    /** Step: advance dt seconds through AccumulateProgress and SeekImpl. */
    method Step(dt: real) returns (r: real)
      requires Valid() && alive && |points| > 0 && GetNewProgress(dt) >= 0.0
      modifies this`index, this`progress, this`started, this`alive, this`points
      ensures Snap() == Stepped(old(Snap()), dt).0 && r == Stepped(old(Snap()), dt).1
      ensures SameDurations(points, old(points))
      ensures Valid() && |points| == |old(points)| && paused == old(paused)
      ensures 0.0 <= r <= 1.0
      ensures !old(IsRunning()) ==> unchanged(this)
    {
      ghost var s := Snap();
      var newProgress := GetNewProgress(dt);
      assert newProgress == NewProgress(s, dt) && Stepped(s, dt) == Seeked(s, newProgress);
      var accumulated := AccumulateProgress(newProgress);
      ghost var a := Accumulated(s, newProgress);
      assert Snap() == a.0 && accumulated == a.1;
      r := SeekImpl(accumulated);
    }

    /** Seek to a progress value. A progress below 1 is not accumulated,
     *  so it needs no instance; SeekImpl then reports 1 for a handle
     *  without one. */
    method Seek(newProgress: real) returns (r: real)
      requires Valid() && newProgress >= 0.0 && (alive ==> |points| > 0)
      requires newProgress >= 1.0 ==> alive
      modifies this`index, this`progress, this`started, this`alive, this`points
      ensures Snap() == Seeked(old(Snap()), newProgress).0 && r == Seeked(old(Snap()), newProgress).1
      ensures SameDurations(points, old(points))
      ensures Valid() && |points| == |old(points)| && paused == old(paused)
      ensures 0.0 <= r <= 1.0
      ensures !old(IsRunning()) ==> unchanged(this)
      ensures !old(alive) ==> r == 1.0
    {
      var accumulated := AccumulateProgress(newProgress);
      r := SeekImpl(accumulated);
    }

    /** Complete: seek to the end of the current point's direction. */
    method Complete()
      requires Valid() && alive && |points| > 0
      modifies this`index, this`progress, this`started, this`alive, this`points
      ensures Snap() == Completed(old(Snap()))
      ensures SameDurations(points, old(points))
      ensures Valid() && |points| == |old(points)|
      ensures !old(IsRunning()) ==> unchanged(this)
    {
      var ignored := Seek(if points[index].reversed then 0.0 else 1.0);
    }

    /** SetDuration: change one point's duration and re-run UpdateImpl. */
    method SetDuration(durationMs: int, i: nat)
      requires Valid() && alive && durationMs >= 0 && i < |points|
      modifies this`index, this`progress, this`started, this`alive, this`points
      ensures Snap() == Retimed(old(Snap()), durationMs, i)
      ensures Valid() && SameDurations(points, old(points)[i := old(points)[i].(durationMs := durationMs)])
    {
      points := points[i := points[i].(durationMs := durationMs)];
      var ignored := UpdateImpl();
    }
  }

  /** The manager's erase condition on a tween's state: the handle is
   *  invalid, or the tween is destroyed on completion and has completed. */
  predicate Drops(s: Snapshot)
  {
    !s.alive || (s.destroyOnComplete && Done(s))
  }

  /** The erase condition as the manager tests it, through the handle. */
  function Finished(t: Tween): (r: bool)
    reads t
    ensures r <==> Drops(t.Snap())
  {
    !t.IsValid() || (t.destroyOnComplete && t.IsCompleted())
  }

  /** The tweens of `s` that survive the erase pass, in their order, when
   *  each one stands as `at` says. */
  function Unfinished(s: seq<Tween>, at: map<Tween, Snapshot>): (r: seq<Tween>)
    requires forall t :: t in s ==> t in at
    ensures |r| <= |s|
  {
    if |s| == 0 then []
    else if Drops(at[s[0]]) then Unfinished(s[1..], at)
    else [s[0]] + Unfinished(s[1..], at)
  }

  /** A tween is kept exactly when it was in the list and is not finished. */
  lemma {:induction false} UnfinishedMembers(s: seq<Tween>, at: map<Tween, Snapshot>, t: Tween)
    requires forall u :: u in s ==> u in at
    ensures t in Unfinished(s, at) <==> t in s && !Drops(at[t])
  {
    if |s| > 0 {
      UnfinishedMembers(s[1..], at, t);
      assert s == [s[0]] + s[1..];
    }
  }

  /** A list with a finished tween loses it. */
  lemma {:induction false} UnfinishedDrops(s: seq<Tween>, at: map<Tween, Snapshot>, i: int)
    requires forall t :: t in s ==> t in at
    requires 0 <= i < |s| && Drops(at[s[i]])
    ensures |Unfinished(s, at)| < |s|
  {
    if i > 0 {
      UnfinishedDrops(s[1..], at, i - 1);
    }
  }

  /** A list with nothing finished is kept whole. */
  lemma {:induction false} UnfinishedKeeps(s: seq<Tween>, at: map<Tween, Snapshot>)
    requires forall t :: t in s ==> t in at
    requires forall i :: 0 <= i < |s| ==> !Drops(at[s[i]])
    ensures Unfinished(s, at) == s
  {
    if |s| > 0 {
      UnfinishedKeeps(s[1..], at);
    }
  }

  /** The entries of `m` that survive the erase pass, when each tween
   *  stands as `at` says. */
  function UnfinishedKeyed(m: map<int, Tween>, at: map<Tween, Snapshot>): (r: map<int, Tween>)
    requires forall k :: k in m ==> m[k] in at
    ensures forall k :: k in r <==> k in m && !Drops(at[m[k]])
    ensures forall k :: k in r ==> r[k] == m[k]
  {
    map k | k in m && !Drops(at[m[k]]) :: m[k]
  }

  /** How each tween of `objects` stands once stepped by dt as often as
   *  `counts` says. */
  ghost function AfterSteps(objects: set<Tween>, dt: real, counts: multiset<Tween>): map<Tween, Snapshot>
    requires Steppable(objects) && dt >= 0.0
    reads objects
  {
    map t | t in objects :: SteppedTimes(t.Snap(), dt, counts[t])
  }

  /** Every tween reachable from a list and a keyed map. */
  function Objects(s: seq<Tween>, m: map<int, Tween>): set<Tween>
  {
    (set t | t in s) + m.Values
  }

  /** Each stored tween keeps its invariant and a valid one has points,
   *  which stepping it needs. */
  ghost predicate Steppable(objects: set<Tween>)
    reads objects
  {
    forall t :: t in objects ==> t.Valid() && (t.alive ==> |t.points| > 0)
  }

  /** Step one stored tween when its handle is valid. */
  method StepTween(t: Tween, dt: real, ghost objects: set<Tween>)
    requires t in objects && Steppable(objects) && dt >= 0.0
    modifies t
    ensures Steppable(objects)
    ensures t.Snap() == SteppedHandle(old(t.Snap()), dt)
    ensures !old(t.alive) || !old(t.IsRunning()) ==> unchanged(t)
  {
    if t.IsValid() {
      var ignored := t.Step(dt);
    }
  }

  /** The snapshots the stored tweens started the step from, each one a
   *  valid steppable snapshot. */
  predicate StartValid(objects: set<Tween>, start: map<Tween, Snapshot>, dt: real)
  {
    dt >= 0.0 &&
    forall t :: t in objects ==> t in start && SnapValid(start[t]) && (start[t].alive ==> |start[t].points| > 0)
  }

  /** How the stored tweens stand once stepped as often as `counts` says,
   *  from `start`. */
  ghost predicate SteppedBy(objects: set<Tween>, start: map<Tween, Snapshot>, dt: real, counts: multiset<Tween>)
    requires StartValid(objects, start, dt)
    reads objects
  {
    forall t :: t in objects ==> t.Snap() == SteppedTimes(start[t], dt, counts[t])
  }

  /** The step loop over one container: each tween of `s` is stepped in
   *  turn, after those of `before`. */
  method StepEach(s: seq<Tween>, dt: real, ghost objects: set<Tween>, ghost start: map<Tween, Snapshot>, ghost before: seq<Tween>)
    requires (forall t :: t in s ==> t in objects) && Steppable(objects) && StartValid(objects, start, dt)
    requires SteppedBy(objects, start, dt, multiset(before))
    modifies objects
    ensures Steppable(objects) && SteppedBy(objects, start, dt, multiset(before + s))
  {
    var i := 0;
    PrefixGrows(before, s, 0);
    while i < |s|
      invariant 0 <= i <= |s|
      invariant Steppable(objects) && SteppedBy(objects, start, dt, multiset(before + s[..i]))
    {
      StepNext(s[i], dt, objects, start, before + s[..i]);
      PrefixGrows(before, s, i + 1);
      i := i + 1;
    }
    PrefixGrows(before, s, i);
    assert multiset(before + s[..i]) == multiset(before + s);
  }

  /** The prefixes StepEach walks through: `before + s[..i]` grows by `s[i]`
   *  at each turn, starts at `before` and ends at `before + s`. */
  lemma PrefixGrows(before: seq<Tween>, s: seq<Tween>, i: int)
    requires 0 <= i <= |s|
    ensures i == 0 ==> before + s[..i] == before
    ensures i > 0 ==> before + s[..i - 1] + [s[i - 1]] == before + s[..i]
    ensures i == |s| ==> before + s[..i] == before + s
  {
    if i > 0 {
      assert s[..i] == s[..i - 1] + [s[i - 1]];
    }
  }

  /** One turn of StepEach: the tween `u` is stepped once more, after
   *  those of `done`. */
  method StepNext(u: Tween, dt: real, ghost objects: set<Tween>, ghost start: map<Tween, Snapshot>, ghost done: seq<Tween>)
    requires u in objects && Steppable(objects) && StartValid(objects, start, dt)
    requires SteppedBy(objects, start, dt, multiset(done))
    modifies u
    ensures Steppable(objects) && SteppedBy(objects, start, dt, multiset(done + [u]))
  {
    ghost var counts := multiset(done);
    ghost var after := multiset(done + [u]);
    assert after == counts + multiset{u};
    assert after[u] == counts[u] + 1;
    assert u.Snap() == SteppedTimes(start[u], dt, counts[u]);
    StepTween(u, dt, objects);
    assert u.Snap() == SteppedTimes(start[u], dt, after[u]);
    forall t: Tween | t in objects
      ensures t.Snap() == SteppedTimes(start[t], dt, after[t])
    {
      if t != u {
        assert after[t] == counts[t];
        assert t.Snap() == old(t.Snap());
      }
    }
  }

  /** The keyed map's tweens in its iteration order. */
  function ValuesInOrder(m: map<int, Tween>, order: seq<int>): (r: seq<Tween>)
    requires forall j :: 0 <= j < |order| ==> order[j] in m
    ensures |r| == |order| && forall j :: 0 <= j < |order| ==> r[j] == m[order[j]]
  {
    seq(|order|, j requires 0 <= j < |order| => m[order[j]])
  }

  predicate DistinctKeys(s: seq<int>)
  {
    forall i, j :: 0 <= i < j < |s| ==> s[i] != s[j]
  }

  /** `order` lists exactly the keys of `m`. */
  predicate KeysListed(m: map<int, Tween>, order: seq<int>)
  {
    (forall j :: 0 <= j < |order| ==> order[j] in m) && forall k :: k in m ==> k in order
  }

  /** The per-frame TweenManager update: every tween of the nameless list
   *  and of the keyed map is stepped by the frame time, and then the
   *  finished ones are erased. `order` is the keyed map's iteration
   *  order, which the source leaves to the hash map. */
  class TweenManager {
    var tweens: seq<Tween>
    var keyed: map<int, Tween>
    var order: seq<int>

    ghost predicate Valid()
      reads this
    {
      DistinctKeys(order) && KeysListed(keyed, order)
    }

    constructor ()
      ensures Valid() && tweens == [] && keyed == map[]
    {
      tweens := [];
      keyed := map[];
      order := [];
    }

    /** Step every tween of the list, in order, then every tween of the
     *  map, in its iteration order. A tween stored more than once (the
     *  list and the map share their handles' instances) is stepped once
     *  per copy. */
    method StepAll(dt: real)
      requires Valid() && dt >= 0.0 && Steppable(Objects(tweens, keyed))
      modifies Objects(tweens, keyed)
      ensures Steppable(Objects(tweens, keyed))
      ensures forall t :: t in Objects(tweens, keyed) ==>
                t.Snap() == SteppedTimes(old(t.Snap()), dt, multiset(tweens + ValuesInOrder(keyed, order))[t])
    {
      ghost var objects := Objects(tweens, keyed);
      ghost var start := map t | t in objects :: t.Snap();
      assert StartValid(objects, start, dt);
      var v := tweens;
      StepEach(v, dt, objects, start, []);
      var m := keyed;
      OrderedValuesStored(v, m, order);
      StepEach(ValuesInOrder(m, order), dt, objects, start, v);
    }

    /** Update as written: the erase passes run over local copies of the
     *  list and the map, so the manager keeps every tween it had. */
    method UpdateAsWritten(dt: real)
      requires Valid() && dt >= 0.0 && Steppable(Objects(tweens, keyed))
      modifies Objects(tweens, keyed)
      ensures Valid() && tweens == old(tweens) && keyed == old(keyed) && order == old(order)
      ensures Steppable(Objects(tweens, keyed))
      ensures forall t :: t in Objects(tweens, keyed) ==>
                t.Snap() == SteppedTimes(old(t.Snap()), dt, multiset(tweens + ValuesInOrder(keyed, order))[t])
    {
      ghost var objects, after := StepTracked(dt);
      var v, m := ErasedCopies(objects, after);
    }

    /** Update with the erase passes applied to the manager's own list and
     *  map: afterwards it holds exactly the tweens that are not finished
     *  once stepped, in their old order. */
    method Update(dt: real)
      requires Valid() && dt >= 0.0 && Steppable(Objects(tweens, keyed))
      modifies this, Objects(tweens, keyed)
      ensures Valid() && Steppable(old(Objects(tweens, keyed)))
      ensures forall t :: t in old(Objects(tweens, keyed)) ==>
                t.Snap() == SteppedTimes(old(t.Snap()), dt, old(multiset(tweens + ValuesInOrder(keyed, order))[t]))
      ensures tweens == Unfinished(old(tweens), old(AfterSteps(Objects(tweens, keyed), dt, multiset(tweens + ValuesInOrder(keyed, order)))))
      ensures keyed == UnfinishedKeyed(old(keyed), old(AfterSteps(Objects(tweens, keyed), dt, multiset(tweens + ValuesInOrder(keyed, order)))))
    {
      ghost var objects, after := StepTracked(dt);
      EraseFinished(objects, after);
    }

    /** StepAll, also naming the stored tweens and how each one now stands. */
    method StepTracked(dt: real) returns (ghost objects: set<Tween>, ghost after: map<Tween, Snapshot>)
      requires Valid() && dt >= 0.0 && Steppable(Objects(tweens, keyed))
      modifies Objects(tweens, keyed)
      ensures objects == Objects(tweens, keyed) && Steppable(objects)
      ensures after == old(AfterSteps(Objects(tweens, keyed), dt, multiset(tweens + ValuesInOrder(keyed, order))))
      ensures forall t :: t in objects ==> t in after && t.Snap() == after[t]
    {
      objects := Objects(tweens, keyed);
      ghost var counts := multiset(tweens + ValuesInOrder(keyed, order));
      ghost var start := map t | t in objects :: t.Snap();
      assert StartValid(objects, start, dt);
      after := map t | t in objects :: SteppedTimes(start[t], dt, counts[t]);
      assert after == AfterSteps(objects, dt, counts);
      StepAll(dt);
      assert SteppedBy(objects, start, dt, counts);
    }

    /** The erase passes on the manager's own containers, whose tweens
     *  stand as `at` says. */
    method EraseFinished(ghost objects: set<Tween>, ghost at: map<Tween, Snapshot>)
      requires Valid() && Objects(tweens, keyed) <= objects
      requires forall t :: t in objects ==> t in at && at[t] == t.Snap()
      requires Steppable(objects)
      modifies this`tweens, this`keyed, this`order
      ensures Valid() && Steppable(objects)
      ensures forall t :: t in objects ==> t.Snap() == at[t]
      ensures tweens == Unfinished(old(tweens), at)
      ensures keyed == UnfinishedKeyed(old(keyed), at)
    {
      var kept, keptKeyed := ErasedCopies(objects, at);
      var listed := Listed(order, keptKeyed);
      ListedAfterErase(order, keyed, keptKeyed);
      tweens, keyed, order := kept, keptKeyed, listed;
    }

    /** The erase passes on copies of the list and the map, whose tweens
     *  stand as `at` says: the copies are returned and the manager is left
     *  as it is. */
    method ErasedCopies(ghost objects: set<Tween>, ghost at: map<Tween, Snapshot>) returns (v: seq<Tween>, m: map<int, Tween>)
      requires Valid() && Objects(tweens, keyed) <= objects
      requires forall t :: t in objects ==> t in at && at[t] == t.Snap()
      ensures v == Unfinished(tweens, at)
      ensures m == UnfinishedKeyed(keyed, at)
    {
      v := KeptAfterErase(tweens, at);
      m := KeptKeyedAfterErase(keyed, order, at);
    }
  }

  /** The keyed map's tweens in iteration order are stored tweens. */
  lemma OrderedValuesStored(s: seq<Tween>, m: map<int, Tween>, order: seq<int>)
    requires forall j :: 0 <= j < |order| ==> order[j] in m
    ensures forall t :: t in ValuesInOrder(m, order) ==> t in Objects(s, m)
  {
    forall t | t in ValuesInOrder(m, order)
      ensures t in Objects(s, m)
    {
      var j :| 0 <= j < |order| && ValuesInOrder(m, order)[j] == t;
      assert t == m[order[j]];
    }
  }

  /** The erased map's keys, listed in the old order, are distinct and
   *  exactly its keys. */
  lemma ListedAfterErase(order: seq<int>, m: map<int, Tween>, kept: map<int, Tween>)
    requires DistinctKeys(order) && KeysListed(m, order) && kept.Keys <= m.Keys
    ensures DistinctKeys(Listed(order, kept)) && KeysListed(kept, Listed(order, kept))
  {
  }

  /** The keys of `order` that remain in `m`, in order. */
  function Listed(order: seq<int>, m: map<int, Tween>): (r: seq<int>)
    ensures forall k :: k in r <==> k in order && k in m
    ensures DistinctKeys(order) ==> DistinctKeys(r)
    ensures forall k :: k in m && k in order ==> k in r
  {
    if |order| == 0 then []
    else if order[0] in m then [order[0]] + Listed(order[1..], m)
    else Listed(order[1..], m)
  }

  /** The erase loop over a list: invalid tweens and completed
   *  destroy-on-complete tweens are erased, the rest kept in order. */
  method KeptAfterErase(v: seq<Tween>, ghost at: map<Tween, Snapshot>) returns (r: seq<Tween>)
    requires forall t :: t in v ==> t in at && at[t] == t.Snap()
    ensures r == Unfinished(v, at)
  {
    r := [];
    var i := 0;
    while i < |v|
      invariant 0 <= i <= |v|
      invariant r + Unfinished(v[i..], at) == Unfinished(v, at)
    {
      UnfinishedStep(v, i, at);
      assert at[v[i]] == v[i].Snap();
      if !Finished(v[i]) {
        assert (r + [v[i]]) + Unfinished(v[i + 1..], at) == r + ([v[i]] + Unfinished(v[i + 1..], at));
        r := r + [v[i]];
      }
      i := i + 1;
    }
    assert v[i..] == [];
  }

  /** One step of the erase loop over a list. */
  lemma UnfinishedStep(v: seq<Tween>, i: int, at: map<Tween, Snapshot>)
    requires 0 <= i < |v| && forall t :: t in v ==> t in at
    ensures Drops(at[v[i]]) ==> Unfinished(v[i..], at) == Unfinished(v[i + 1..], at)
    ensures !Drops(at[v[i]]) ==> Unfinished(v[i..], at) == [v[i]] + Unfinished(v[i + 1..], at)
  {
    assert v[i..][1..] == v[i + 1..];
  }

  /** The erase loop over a map, visiting its keys in iteration order. */
  method KeptKeyedAfterErase(m: map<int, Tween>, order: seq<int>, ghost at: map<Tween, Snapshot>) returns (r: map<int, Tween>)
    requires KeysListed(m, order)
    requires forall k :: k in m ==> m[k] in at && at[m[k]] == m[k].Snap()
    ensures r == UnfinishedKeyed(m, at)
  {
    r := m;
    var i := 0;
    while i < |order|
      invariant 0 <= i <= |order|
      invariant forall k :: k in r <==> k in m && (!Drops(at[m[k]]) || k !in order[..i])
      invariant forall k :: k in r ==> r[k] == m[k]
    {
      var k := order[i];
      assert order[..i + 1] == order[..i] + [k];
      if Finished(m[k]) {
        r := r - {k};
      }
      i := i + 1;
    }
    assert order[..i] == order;
    ghost var expected := UnfinishedKeyed(m, at);
    assert forall k :: k in r <==> k in expected;
    assert forall k :: k in r ==> r[k] == expected[k];
  }

  /** The handle and instance fields as a value: what the time-advancing
   *  operations' specifications speak of. */
  datatype Snapshot = Snapshot(
    alive: bool,
    progress: real,
    index: nat,
    points: seq<TweenPoint>,
    paused: bool,
    started: bool,
    destroyOnComplete: bool,
    managerTween: bool)

  /** The class's Valid, on a snapshot. */
  predicate SnapValid(s: Snapshot)
  {
    0.0 <= s.progress <= 1.0 &&
    (s.index < |s.points| || (s.index == 0 && |s.points| == 0)) &&
    forall i :: 0 <= i < |s.points| ==> s.points[i].currentRepeat >= 0 && s.points[i].durationMs >= 0
  }

  /** IsRunning on a snapshot. */
  predicate Running(s: Snapshot)
  {
    s.alive && s.started && !s.paused
  }

  /** IsCompleted on a snapshot. */
  predicate Done(s: Snapshot)
  {
    s.alive && |s.points| > 0 && s.progress >= 1.0 && (s.index >= |s.points| - 1 || !s.started)
  }

  /** GetProgress on a snapshot, without the ease. */
  function ProgressOf(s: Snapshot): (r: real)
    requires SnapValid(s)
    ensures 0.0 <= r <= 1.0
  {
    if |s.points| > 0 && s.points[s.index].reversed then 1.0 - s.progress else s.progress
  }

  /** GetNewProgress on a snapshot. */
  function NewProgress(s: Snapshot, time: real): real
    requires SnapValid(s) && |s.points| > 0
  {
    var d := s.points[s.index].durationMs as real / 1000.0;
    if d == 0.0 then 1.0 else s.progress + time / d
  }

  /** PointCompleted on a snapshot: the next point from progress 0, or on
   *  the last point progress 1 and not started, the handle surviving only
   *  for a managed or kept-alive tween. */
  function NextPoint(s: Snapshot): (r: Snapshot)
    requires SnapValid(s)
    ensures SnapValid(r) && r.points == s.points && r.paused == s.paused
  {
    if |s.points| == 0 then s
    else if s.index < |s.points| - 1 then s.(index := s.index + 1, progress := 0.0)
    else s.(progress := 1.0, started := false, alive := s.alive && (s.managerTween || !s.destroyOnComplete))
  }

  /** HandleCallbacks on a snapshot. */
  function Handled(s: Snapshot): (r: Snapshot)
    requires SnapValid(s) && |s.points| > 0
    ensures SnapValid(r) && |r.points| == |s.points| && SameDurations(r.points, s.points) && r.paused == s.paused
  {
    if !Running(s) || s.progress < 1.0 then s
    else
      var c := s.points[s.index];
      if c.currentRepeat == c.totalRepeats then NextPoint(s)
      else s.(progress := 0.0, points := s.points[s.index := c.(reversed := c.reversed != c.yoyo)])
  }

  /** The current point after a pass: one more repeat counted when the
   *  pass has ended and the budget allows it. */
  function CountedPoint(c: TweenPoint, progress: real): (r: TweenPoint)
    ensures r == c.(currentRepeat := r.currentRepeat)
    ensures progress >= 1.0 ==> r.currentRepeat == TweeningTween.CountPass(c.currentRepeat, c.totalRepeats)
    ensures progress < 1.0 ==> r == c
  {
    if progress >= 1.0 && (c.currentRepeat < c.totalRepeats || c.totalRepeats == -1)
    then c.(currentRepeat := c.currentRepeat + 1) else c
  }

  /** UpdateImpl on a snapshot. */
  function Updated(s: Snapshot): (r: Snapshot)
    requires SnapValid(s) && |s.points| > 0
    ensures SnapValid(r) && |r.points| == |s.points| && SameDurations(r.points, s.points) && r.paused == s.paused
  {
    Handled(s.(points := s.points[s.index := CountedPoint(s.points[s.index], s.progress)]))
  }

  /** What UpdateImpl reports: 1 once the handle is gone. */
  function UpdateResult(t: Snapshot): real
    requires SnapValid(t)
  {
    if !t.alive then 1.0 else ProgressOf(t)
  }

  /** AccumulateProgress's loop with k passes to go. */
  function AccLoop(s: Snapshot, k: int, np: real): (r: (Snapshot, real))
    requires SnapValid(s) && |s.points| > 0 && np >= 0.0
    ensures SnapValid(r.0) && |r.0.points| == |s.points| && SameDurations(r.0.points, s.points)
    ensures r.0.paused == s.paused && 0.0 <= r.1 <= 1.0
    decreases k
  {
    if k <= 0 then (s, np - np.Floor as real)
    else
      var t := Updated(s.(progress := 1.0));
      if !t.alive || Done(t) then (t, 1.0) else AccLoop(t, k - 1, np)
  }

  /** One pass of AccLoop. */
  lemma AccLoopUnfold(s: Snapshot, k: int, np: real)
    requires SnapValid(s) && |s.points| > 0 && np >= 0.0 && k > 0
    ensures var t := Updated(s.(progress := 1.0));
            !t.alive || Done(t) ==> AccLoop(s, k, np).0 == t && AccLoop(s, k, np).1 == 1.0
    ensures var t := Updated(s.(progress := 1.0));
            t.alive && !Done(t) ==> AccLoop(s, k, np).0 == AccLoop(t, k - 1, np).0 && AccLoop(s, k, np).1 == AccLoop(t, k - 1, np).1
  {
  }

  /** AccLoop from a running tween ends with 1 on a destroyed or completed
   *  tween, or with the fractional part on a running one. */
  lemma {:induction false} AccLoopEnds(s: Snapshot, k: int, np: real)
    requires SnapValid(s) && |s.points| > 0 && np >= 0.0 && Running(s)
    ensures var r := AccLoop(s, k, np);
            (r.1 == 1.0 && (!r.0.alive || Done(r.0))) || (r.1 == np - np.Floor as real && Running(r.0))
    decreases k
  {
    if k > 0 {
      var t := Updated(s.(progress := 1.0));
      if t.alive && !Done(t) {
        assert Running(t);
        AccLoopEnds(t, k - 1, np);
      }
    }
  }

  /** AccumulateProgress on a snapshot. */
  function Accumulated(s: Snapshot, np: real): (r: (Snapshot, real))
    requires SnapValid(s) && np >= 0.0
    requires np >= 1.0 ==> s.alive && |s.points| > 0
    ensures SnapValid(r.0) && |r.0.points| == |s.points| && SameDurations(r.0.points, s.points)
    ensures r.0.paused == s.paused && 0.0 <= r.1 <= 1.0
  {
    if np < 1.0 then (s, np)
    else if !Running(s) then (s, ProgressOf(s))
    else AccLoop(s, np.Floor, np)
  }

  /** SeekImpl on a snapshot. */
  function Sought(s: Snapshot, p: real): (r: (Snapshot, real))
    requires SnapValid(s) && 0.0 <= p <= 1.0
    requires s.alive ==> |s.points| > 0
    ensures SnapValid(r.0) && |r.0.points| == |s.points| && SameDurations(r.0.points, s.points)
  {
    if !s.alive then (s, 1.0)
    else if !Running(s) then (s, ProgressOf(s))
    else
      var t := Updated(s.(progress := p));
      (t, UpdateResult(t))
  }

  /** Seek on a snapshot: accumulate, then jump to what is left. */
  function Seeked(s: Snapshot, np: real): (r: (Snapshot, real))
    requires SnapValid(s) && np >= 0.0 && (s.alive ==> |s.points| > 0)
    requires np >= 1.0 ==> s.alive
    ensures SnapValid(r.0) && |r.0.points| == |s.points| && SameDurations(r.0.points, s.points)
    ensures !s.alive ==> r == (s, 1.0)
  {
    var a := Accumulated(s, np);
    Sought(a.0, a.1)
  }

  /** Step on a snapshot: seek to the progress dt seconds later. */
  function Stepped(s: Snapshot, dt: real): (r: (Snapshot, real))
    requires SnapValid(s) && s.alive && |s.points| > 0 && NewProgress(s, dt) >= 0.0
    ensures SnapValid(r.0) && |r.0.points| == |s.points| && SameDurations(r.0.points, s.points)
  {
    Seeked(s, NewProgress(s, dt))
  }

  /** The manager's step of one stored tween: a valid handle is stepped,
   *  an invalid one is left alone. */
  function SteppedHandle(s: Snapshot, dt: real): (r: Snapshot)
    requires SnapValid(s) && (s.alive ==> |s.points| > 0) && dt >= 0.0
    ensures SnapValid(r) && |r.points| == |s.points|
    ensures !s.alive ==> r == s
  {
    if s.alive then (NewProgressAhead(s, dt); Stepped(s, dt).0) else s
  }

  /** Time never moves a tween back: dt seconds on from a valid snapshot
   *  the progress is not negative. */
  lemma NewProgressAhead(s: Snapshot, dt: real)
    requires SnapValid(s) && |s.points| > 0 && dt >= 0.0
    ensures NewProgress(s, dt) >= s.progress
  {
    var d := s.points[s.index].durationMs as real / 1000.0;
    if d != 0.0 {
      assert d > 0.0;
      assert dt / d >= 0.0;
    }
  }

  /** A tween stored n times is stepped n times in a frame. */
  function SteppedTimes(s: Snapshot, dt: real, n: nat): (r: Snapshot)
    requires SnapValid(s) && (s.alive ==> |s.points| > 0) && dt >= 0.0
    ensures SnapValid(r) && |r.points| == |s.points|
    ensures !s.alive ==> r == s
  {
    if n == 0 then s else SteppedHandle(SteppedTimes(s, dt, n - 1), dt)
  }

  /** SetDuration on a snapshot: the point's duration changes and the
   *  tween is updated. */
  function Retimed(s: Snapshot, durationMs: int, i: nat): (r: Snapshot)
    requires SnapValid(s) && durationMs >= 0 && i < |s.points|
    ensures SnapValid(r) && |r.points| == |s.points|
    ensures SameDurations(r.points, s.points[i := s.points[i].(durationMs := durationMs)])
  {
    Updated(s.(points := s.points[i := s.points[i].(durationMs := durationMs)]))
  }

  /** A duration set mid-pass changes that duration and nothing else. */
  lemma RetimedMidPass(s: Snapshot, durationMs: int, i: nat)
    requires SnapValid(s) && durationMs >= 0 && i < |s.points| && s.progress < 1.0
    ensures Retimed(s, durationMs, i) == s.(points := s.points[i := s.points[i].(durationMs := durationMs)])
  {
    var t := s.(points := s.points[i := s.points[i].(durationMs := durationMs)]);
    assert t.points[t.index := CountedPoint(t.points[t.index], t.progress)] == t.points;
  }

  /** A tween stored twice (once in the list, once in the map) advances
   *  twice as far in one manager step while it stays within its pass. */
  lemma SharedStepsTwice(s: Snapshot, dt: real)
    requires SnapValid(s) && |s.points| > 0 && Running(s) && dt >= 0.0
    requires s.points[s.index].durationMs > 0
    requires s.progress + 2.0 * dt / (s.points[s.index].durationMs as real / 1000.0) < 1.0
    ensures SteppedTimes(s, dt, 2) == s.(progress := s.progress + 2.0 * dt / (s.points[s.index].durationMs as real / 1000.0))
  {
    var d := s.points[s.index].durationMs as real / 1000.0;
    assert d > 0.0;
    assert dt / d >= 0.0;
    assert 2.0 * dt / d == dt / d + dt / d;
    StepWithinPass(s, dt);
    var s1 := s.(progress := s.progress + dt / d);
    assert SteppedTimes(s, dt, 1) == s1;
    StepWithinPass(s1, dt);
  }

  /** Complete on a snapshot: seek to the end of the current point's
   *  direction. */
  function Completed(s: Snapshot): (r: Snapshot)
    requires SnapValid(s) && s.alive && |s.points| > 0
  {
    Seeked(s, if s.points[s.index].reversed then 0.0 else 1.0).0
  }

  /** While the current point does not complete within k passes, the
   *  accumulation stays on it, alive and running, counts k passes and
   *  leaves the fractional part of np. */
  lemma {:induction false} AccLoopStays(s: Snapshot, k: nat, np: real)
    requires SnapValid(s) && |s.points| > 0 && np >= 0.0 && Running(s)
    requires !TweeningTween.Completes(s.points[s.index].currentRepeat, s.points[s.index].totalRepeats, k)
    ensures var r := AccLoop(s, k, np);
            r.1 == np - np.Floor as real && r.0.index == s.index && Running(r.0) &&
            r.0.points[s.index].totalRepeats == s.points[s.index].totalRepeats &&
            r.0.points[s.index].currentRepeat ==
              TweeningTween.CountPasses(s.points[s.index].currentRepeat, s.points[s.index].totalRepeats, k)
    decreases k
  {
    if k > 0 {
      var c := s.points[s.index];
      var t := Updated(s.(progress := 1.0));
      assert TweeningTween.CountPass(c.currentRepeat, c.totalRepeats) != c.totalRepeats;
      assert t.index == s.index && t.progress == 0.0 && Running(t);
      assert t.points[s.index].currentRepeat == TweeningTween.CountPass(c.currentRepeat, c.totalRepeats);
      assert t.points[s.index].totalRepeats == c.totalRepeats;
      AccLoopStays(t, k - 1, np);
    }
  }

  /** On the last point, when it completes within k passes, the
   *  accumulation ends with 1, not started, and the handle survives
   *  exactly when the tween is managed or kept alive, then completed. */
  lemma {:induction false} AccLoopCompletes(s: Snapshot, k: nat, np: real)
    requires SnapValid(s) && |s.points| > 0 && np >= 0.0 && Running(s)
    requires s.index == |s.points| - 1
    requires TweeningTween.Completes(s.points[s.index].currentRepeat, s.points[s.index].totalRepeats, k)
    ensures var r := AccLoop(s, k, np);
            r.1 == 1.0 && !r.0.started && (r.0.alive <==> s.managerTween || !s.destroyOnComplete) &&
            (r.0.alive ==> Done(r.0))
    decreases k
  {
    var c := s.points[s.index];
    var t := Updated(s.(progress := 1.0));
    if TweeningTween.CountPass(c.currentRepeat, c.totalRepeats) == c.totalRepeats {
      assert t == NextPoint(t.(progress := 1.0, started := true, alive := true));
    } else {
      assert t.index == s.index && t.progress == 0.0 && Running(t);
      assert t.points[s.index].currentRepeat == TweeningTween.CountPass(c.currentRepeat, c.totalRepeats);
      assert t.points[s.index].totalRepeats == c.totalRepeats;
      assert t.managerTween == s.managerTween && t.destroyOnComplete == s.destroyOnComplete;
      AccLoopCompletes(t, k - 1, np);
    }
  }

  /** A point repeated forever is never left by a seek, however far. */
  lemma AccumulateForever(s: Snapshot, np: real)
    requires SnapValid(s) && |s.points| > 0 && Running(s) && np >= 1.0
    requires s.points[s.index].totalRepeats == -1
    ensures Accumulated(s, np).1 == np - np.Floor as real && Accumulated(s, np).0.index == s.index
    ensures Running(Accumulated(s, np).0)
  {
    TweeningTween.ForeverNeverCompletes(s.points[s.index].currentRepeat, np.Floor as nat);
    AccLoopStays(s, np.Floor as nat, np);
  }

  /** A last point with Repeat(n) from a rewound start runs n passes and
   *  completes on the (n + 1)th. */
  lemma AccumulateRepeat(s: Snapshot, n: nat, np: real)
    requires SnapValid(s) && |s.points| > 0 && Running(s) && n > 0 && np >= 0.0
    requires s.index == |s.points| - 1
    requires s.points[s.index].currentRepeat == 0 && s.points[s.index].totalRepeats == n + 1
    ensures AccLoop(s, n, np).0.index == s.index && Running(AccLoop(s, n, np).0)
    ensures AccLoop(s, n + 1, np).1 == 1.0 && !AccLoop(s, n + 1, np).0.started
  {
    TweeningTween.RepeatRunsPasses(n);
    AccLoopStays(s, n, np);
    AccLoopCompletes(s, n + 1, np);
  }

  /** Seeking a running tween to a progress below 1 lands on that progress
   *  of the same point, with the points unchanged. */
  lemma SoughtLands(s: Snapshot, p: real)
    requires SnapValid(s) && |s.points| > 0 && Running(s) && 0.0 <= p < 1.0
    ensures Sought(s, p).0 == s.(progress := p)
    ensures Sought(s, p).1 == ProgressOf(s.(progress := p))
  {
    assert s.points[s.index := CountedPoint(s.points[s.index], p)] == s.points;
  }

  /** A step inside the current pass of a positive-length point adds
   *  dt / duration to the progress and stays on the point. */
  lemma StepWithinPass(s: Snapshot, dt: real)
    requires SnapValid(s) && |s.points| > 0 && Running(s)
    requires s.points[s.index].durationMs > 0
    requires var np := s.progress + dt / (s.points[s.index].durationMs as real / 1000.0);
             0.0 <= np < 1.0
    ensures var np := s.progress + dt / (s.points[s.index].durationMs as real / 1000.0);
            Stepped(s, dt).0 == s.(progress := np) && Stepped(s, dt).1 == ProgressOf(s.(progress := np))
  {
    var np := s.progress + dt / (s.points[s.index].durationMs as real / 1000.0);
    assert NewProgress(s, dt) == np;
    SoughtLands(s, np);
  }

  /** Complete on a reversed point rewinds its progress to 0, which reads
   *  as 1 in its direction, and stays on the point. */
  lemma CompleteReversed(s: Snapshot)
    requires SnapValid(s) && |s.points| > 0 && Running(s) && s.points[s.index].reversed
    ensures Completed(s) == s.(progress := 0.0)
    ensures ProgressOf(Completed(s)) == 1.0
  {
    SoughtLands(s, 0.0);
  }

  /** Complete on the last, forward point whose pass ends its budget
   *  completes the tween: progress 1, not started, the handle kept only
   *  for a managed or kept-alive tween. */
  lemma CompleteLastPass(s: Snapshot)
    requires SnapValid(s) && |s.points| > 0 && Running(s) && !s.points[s.index].reversed
    requires s.index == |s.points| - 1
    requires TweeningTween.CountPass(s.points[s.index].currentRepeat, s.points[s.index].totalRepeats) == s.points[s.index].totalRepeats
    ensures Completed(s).progress == 1.0 && !Completed(s).started
    ensures Completed(s).alive <==> s.managerTween || !s.destroyOnComplete
  {
    var a := Accumulated(s, 1.0);
    AccLoopUnfold(s, 1, 1.0);
    assert a.1 == 1.0 && !a.0.started;
  }

  /** Complete on a forward point before the last whose pass ends its
   *  budget moves only to the next point, at progress 0. */
  lemma CompleteMidPoint(s: Snapshot)
    requires SnapValid(s) && |s.points| > 0 && Running(s) && !s.points[s.index].reversed
    requires s.index < |s.points| - 1
    requires TweeningTween.CountPass(s.points[s.index].currentRepeat, s.points[s.index].totalRepeats) == s.points[s.index].totalRepeats
    ensures Completed(s).index == s.index + 1 && Completed(s).progress == 0.0 && Running(Completed(s))
  {
    var a := Accumulated(s, 1.0);
    AccLoopUnfold(s, 1, 1.0);
    assert a.1 == 0.0 && a.0.index == s.index + 1 && Running(a.0);
    SoughtLands(a.0, 0.0);
  }
}
