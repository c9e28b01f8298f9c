/**
 * The scene manager of engine/src/world/scene/scene_manager.h, an earlier
 * form of the one in engine/src/scene: the same operations, transition runs
 * and compaction, but SwitchTo and Overlay push straight onto the queue,
 * a flush processes the queue once and then clears it, and no Enter or Exit
 * call is made on the scenes. Its state is therefore the shared Stage with
 * an empty call log, and every result is the shared one made Silent.
 */
module WorldScene {

  import opened Wrappers
  import opened SceneCore
  import opened SceneOps

  class SceneManager {
    var entries: seq<SceneEntry>
    var queue: seq<Operation>
    var runs: seq<TransitionRun>
    var pendingOverlayZ: int
    var nextId: nat

    function State(): Stage
      reads this
    {
      Stage(entries, runs, nextId, [])
    }

    ghost predicate Valid()
      reads this
    {
      ValidStage(State())
    }

    constructor ()
      ensures Valid()
      ensures entries == [] && queue == [] && runs == [] && pendingOverlayZ == 0 && nextId == 1
    {
      entries := [];
      queue := [];
      runs := [];
      pendingOverlayZ := 0;
      nextId := 1;
    }

    method SwitchTo(key: nat, transition: Option<Transition>)
      modifies this`queue
      ensures queue == old(queue) + [Operation(Switch, transition, true, key)]
    {
      queue := queue + [Operation(Switch, transition, true, key)];
    }

    /** Queues an overlay; the z is kept aside for the next flush. */
    method Overlay(key: nat, transition: Option<Transition>, z: int)
      modifies this`queue, this`pendingOverlayZ
      ensures queue == old(queue) + [Operation(OperationKind.Overlay, transition, true, key)]
      ensures pendingOverlayZ == z
    {
      queue := queue + [Operation(OperationKind.Overlay, transition, true, key)];
      pendingOverlayZ := z;
    }

    method PopTop(key: nat, transition: Option<Transition>)
      modifies this`queue
      ensures queue == old(queue) + [Operation(Pop, transition, true, key)]
    {
      queue := queue + [Operation(Pop, transition, true, key)];
    }

    /** Has: a live entry with the key exists. */
    predicate Has(key: nat)
      reads this
    {
      SceneCore.Has(entries, key)
    }

    /** Get: the index of the first live entry with the key. */
    method Get(key: nat) returns (r: Option<nat>)
      ensures r == FindLive(entries, key)
      ensures r.Some? <==> Has(key)
    {
      var i := 0;
      while i < |entries|
        invariant 0 <= i <= |entries|
        invariant forall j :: 0 <= j < i ==> !Live(entries[j], key)
      {
        if entries[i].key == key && !entries[i].phase.Dead? {
          return Some(i);
        }
        i := i + 1;
      }
      return None;
    }

    method TopRunningIndex() returns (r: Option<nat>)
      ensures r == TopRunning(entries)
    {
      var i := |entries|;
      while i > 0
        invariant 0 <= i <= |entries|
        invariant forall j :: i <= j < |entries| ==> !entries[j].phase.Running?
      {
        i := i - 1;
        if entries[i].phase.Running? {
          return Some(i);
        }
      }
      return None;
    }

    method IndexById(id: nat) returns (r: Option<nat>)
      ensures r == IndexOfId(entries, id)
    {
      var i := 0;
      while i < |entries|
        invariant 0 <= i <= |entries|
        invariant forall j :: 0 <= j < i ==> entries[j].id != id
      {
        if entries[i].id == id {
          return Some(i);
        }
        i := i + 1;
      }
      return None;
    }

    /** The is_scene_locked lambda of FlushOps: some run starts or ends at the index. */
    method IsSceneLocked(index: nat) returns (b: bool)
      ensures b == Locked(runs, index)
    {
      var k := 0;
      while k < |runs|
        invariant 0 <= k <= |runs|
        invariant forall m :: 0 <= m < k ==> runs[m].fromIndex != index && runs[m].toIndex != index
      {
        if runs[k].fromIndex == index || runs[k].toIndex == index {
          return true;
        }
        k := k + 1;
      }
      return false;
    }

    /** ApplyPoliciesOnStart: `from` turns Exiting, `to` Entering; no Exit call. */
    method ApplyPoliciesOnStart(from: nat, to: nat)
      requires from < |entries| && to < |entries|
      modifies this`entries
      ensures entries == StartPhases(old(entries), from, to)
    {
      entries := entries[from := entries[from].(phase := Exiting)];
      entries := entries[to := entries[to].(phase := Entering)];
    }

    method ProcessSwitchOp(op: Operation)
      modifies this`entries, this`runs, this`nextId
      ensures State() == Silent(ProcessSwitch(old(State()), op))
    {
      var from := TopRunningIndex();
      var hasFrom := from.Some?;
      if hasFrom {
        var locked := IsSceneLocked(from.value);
        if locked {
          return;
        }
      }
      var to := NewEntry(if hasFrom then Entering else Running, SwitchZ(entries), nextId, op.key);
      nextId := nextId + 1;
      entries := entries + [to];
      var toIndex := |entries| - 1;
      if hasFrom && op.transition.Some? {
        runs := runs + [TransitionRun(from.value, toIndex, op.transition.value, 0.0, op.killFromOnEnd)];
        ApplyPoliciesOnStart(from.value, toIndex);
      } else if !hasFrom {
        entries := entries[toIndex := entries[toIndex].(phase := Running)];
      } else {
        entries := entries[from.value := entries[from.value].(phase := Dead)];
        entries := entries[toIndex := entries[toIndex].(phase := Running)];
      }
    }

    method ProcessOverlayOp(op: Operation)
      modifies this`entries, this`runs, this`nextId
      ensures State() == Silent(ProcessOverlay(old(State()), op, pendingOverlayZ))
    {
      ghost var st := State();
      var toIndex := AddOverlayEntry(op.key);
      ghost var es := entries;
      if toIndex.None? {
        assert State() == Silent(ProcessOverlay(st, op, pendingOverlayZ)) by {
          assert ProcessOverlay(st, op, pendingOverlayZ) == Stage(es, st.runs, st.nextId + 1, st.calls);
        }
        return;
      }
      var ti := toIndex.value;
      runs := ShiftRuns(runs, ti);
      EnterOverlay(st, op, ti);
      assert State() == Silent(ProcessOverlay(st, op, pendingOverlayZ)) by {
        assert ProcessOverlay(st, op, pendingOverlayZ) == OverlayAt(st, op, es, ti, ShiftRuns(st.runs, ti));
      }
    }

    /** The new Entering entry at the pending z, the resort, and IndexById of the new id. */
    method AddOverlayEntry(key: nat) returns (toIndex: Option<nat>)
      modifies this`entries, this`nextId
      ensures nextId == old(nextId) + 1
      ensures entries == SortByZ(old(entries) + [NewEntry(Entering, pendingOverlayZ, old(nextId), key)])
      ensures toIndex == IndexOfId(entries, old(nextId))
      ensures toIndex.Some? ==> toIndex.value < |entries|
    {
      var to := NewEntry(Entering, pendingOverlayZ, nextId, key);
      nextId := nextId + 1;
      entries := entries + [to];
      entries := SortByZ(entries);  // ResortByZ
      toIndex := IndexById(to.id);
    }

    /** The Overlay branch once the new entry sits at ti of the resorted list. */
    method EnterOverlay(ghost st: Stage, op: Operation, ti: nat)
      requires ti < |entries| && nextId == st.nextId + 1
      modifies this`entries, this`runs
      ensures State() == Silent(OverlayAt(st, op, old(entries), ti, old(runs)))
    {
      var from := OverlaySource(|entries|, ti);
      if op.transition.Some? && from.Some? {
        runs := runs + [TransitionRun(from.value, ti, op.transition.value, 0.0, false)];
        ApplyPoliciesOnStart(from.value, ti);
      } else {
        entries := entries[ti := entries[ti].(phase := Running)];
      }
    }

    method ProcessPopOp(op: Operation)
      modifies this`entries, this`runs
      ensures State() == Silent(ProcessPop(old(State()), op))
    {
      var from := TopIndex(entries);
      if from.None? {
        return;
      }
      var locked := IsSceneLocked(from.value);
      if locked {
        return;
      }
      var toIndex := if from.value > 0 then from.value - 1 else from.value;
      if op.transition.Some? {
        runs := runs + [TransitionRun(from.value, toIndex, op.transition.value, 0.0, true)];
        ApplyPoliciesOnStart(from.value, toIndex);
      } else {
        entries := entries[from.value := entries[from.value].(phase := Dead)];
        entries := entries[toIndex := entries[toIndex].(phase := Running)];
      }
    }

    method ProcessOperation(op: Operation)
      modifies this`entries, this`runs, this`nextId
      ensures State() == Silent(ProcessOp(old(State()), op, pendingOverlayZ))
    {
      match op.kind
      case Switch => ProcessSwitchOp(op);
      case Replace => ProcessSwitchOp(op);
      case Overlay => ProcessOverlayOp(op);
      case Pop => ProcessPopOp(op);
      case Push =>
    }

    /** Compact: drops the Dead entries in order; the runs follow their entries (corrected). */
    method Compact()
      requires RunsInRange(entries, runs)
      modifies this`entries, this`runs
      ensures State() == CompactStage(old(State()))
    {
      var kept: seq<SceneEntry> := [];
      for i := 0 to |entries|
        invariant kept == NonDead(entries[..i])
      {
        assert entries[..i + 1][..i] == entries[..i];
        if !entries[i].phase.Dead? {
          kept := kept + [entries[i]];
        }
      }
      assert entries[..|entries|] == entries;
      runs := CompactRuns(entries, runs);
      entries := kept;
    }

    /** FlushOps: the queue is processed once in order, cleared, then compacted. */
    method FlushOps()
      requires Valid()
      modifies this`entries, this`runs, this`nextId, this`queue
      ensures Valid() && queue == []
      ensures State() == if old(queue) == [] then old(State())
        else Silent(CompactStage(ProcessOps(old(State()), old(queue), pendingOverlayZ)))
    {
      if queue == [] {
        return;
      }
      ghost var s0 := State();
      for i := 0 to |queue|
        invariant queue == old(queue)
        invariant State() == Silent(ProcessOps(s0, queue[..i], pendingOverlayZ))
      {
        assert queue[..i + 1][..i] == queue[..i];
        ghost var prev := ProcessOps(s0, queue[..i], pendingOverlayZ);
        ProcessOpSilent(prev, queue[i], pendingOverlayZ);
        ProcessOperation(queue[i]);
      }
      assert queue[..|queue|] == queue;
      queue := [];
      Compact();
    }

    /** The first loop of StepTransitions: every run is stepped and the finished ones collected. */
    method StepRuns(dt: real) returns (done: seq<nat>)
      modifies this`runs
      ensures runs == AdvanceRuns(old(runs), dt)
      ensures done == FinishedIndices(runs, |runs|)
    {
      var rs := runs;
      done := [];
      for i := 0 to |rs|
        invariant |rs| == |old(runs)|
        invariant forall j :: 0 <= j < i ==> rs[j] == AdvanceRun(old(runs)[j], dt)
        invariant forall j :: i <= j < |rs| ==> rs[j] == old(runs)[j]
        invariant done == FinishedIndices(rs, i)
      {
        ghost var prev := rs;
        rs := rs[i := AdvanceRun(rs[i], dt)];
        FinishedIndicesAgree(prev, rs, i);
        if Finished(rs[i]) {
          done := done + [i];
        }
      }
      runs := rs;
    }

    /** The second loop of StepTransitions: finished runs, last index first, are completed and erased. */
    method FinishDone(done: seq<nat>)
      requires RunsInRange(entries, runs) && FinishedList(runs, done)
      modifies this`entries, this`runs
      ensures entries == FinishFrom(old(State()), old(runs), 0).entries && runs == Unfinished(old(runs))
    {
      ghost var rs := runs;
      ghost var st0 := State();
      var i := |done|;
      ghost var q := |rs|;
      assert rs[q..] == [] && rs[..q] == rs;
      while i > 0
        invariant 0 <= i <= |done| && q <= |rs|
        invariant q == (if i == |done| then |rs| else done[i])
        invariant entries == FinishFrom(st0, rs, q).entries
        invariant runs == rs[..q] + Unfinished(rs[q..])
      {
        i := i - 1;
        DoneGap(rs, done, i, q);
        FinishAt(done[i], st0, rs, q);
        q := done[i];
      }
      FinishedPrefix(st0, rs, done, q);
    }

    /** One pass of the second loop: the finished run at p completes and is erased. */
    method FinishAt(p: nat, ghost st0: Stage, ghost rs: seq<TransitionRun>, ghost q: nat)
      requires p < q <= |rs| && RunsInRange(st0.entries, rs) && Finished(rs[p])
      requires forall j :: p < j < q ==> !Finished(rs[j])
      requires entries == FinishFrom(st0, rs, q).entries
      requires runs == rs[..q] + Unfinished(rs[q..])
      modifies this`entries, this`runs
      ensures entries == FinishFrom(st0, rs, p).entries
      ensures runs == rs[..p] + Unfinished(rs[p..])
    {
      FinishFromSkip(st0, rs, p + 1, q);
      assert runs[p] == rs[p];
      ghost var s := FinishFrom(st0, rs, q);
      CompleteRun(runs[p], s);
      EraseFinished(rs, p, q);
      runs := runs[..p] + runs[p + 1..];
    }

    /** A finished run's `to` turns Running; its `from` turns Dead, or Paused. */
    method CompleteRun(run: TransitionRun, ghost s: Stage)
      requires run.fromIndex < |entries| && run.toIndex < |entries| && s.entries == entries
      modifies this`entries
      ensures entries == FinishRun(s, run).entries
    {
      entries := entries[run.toIndex := entries[run.toIndex].(phase := Running)];
      if run.killFromOnEnd {
        entries := entries[run.fromIndex := entries[run.fromIndex].(phase := Dead)];
      } else {
        entries := entries[run.fromIndex := entries[run.fromIndex].(phase := Paused)];
      }
    }

    /** StepTransitions: every run advances by dt, the finished ones complete, then Compact. */
    method StepTransitions(dt: real)
      requires RunsInRange(entries, runs)
      modifies this`entries, this`runs
      ensures State() == Silent(StepStage(old(State()), dt))
    {
      ghost var st := State();
      var done := StepRuns(dt);
      ghost var rs := runs;
      FinishFromIgnoresRuns(st, rs, 0, rs);
      FinishDone(done);
      UnfinishedInRange(rs, entries);
      Compact();
    }

    /** Update as far as the scene list goes: FlushOps, then StepTransitions. */
    method Update(dt: real)
      requires Valid()
      modifies this`entries, this`runs, this`nextId, this`queue
      ensures Valid() && queue == []
      ensures old(queue) == [] ==> State() == Silent(StepStage(old(State()), dt))
      ensures old(queue) != [] ==>
        State() == Silent(StepStage(Silent(CompactStage(ProcessOps(old(State()), old(queue), pendingOverlayZ))), dt))
    {
      FlushOps();
      StepTransitions(dt);
    }
  }
}
