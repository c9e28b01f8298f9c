/**
 * The scene manager of engine/src/scene/scene_manager.h: SwitchTo, Overlay
 * and PopTop queue operations; a flush processes the queue at the frame
 * boundary, deferring whatever is enqueued while it runs; transition runs
 * are stepped and finished; Dead entries are compacted away.
 *
 * Scene objects are represented by their entries; the calls the manager
 * makes on them (Enter, Exit) are appended to `calls`. The scene key is
 * taken already hashed.
 */
module EngineScene {

  import opened Wrappers
  import opened SceneCore
  import opened SceneOps

  class SceneManager {
    var entries: seq<SceneEntry>
    var queue: seq<Operation>
    var deferredQueue: seq<Operation>
    var isFlushing: bool
    var runs: seq<TransitionRun>
    var pendingOverlayZ: int
    var nextId: nat
    /** The Enter and Exit calls made on scenes so far. */
    var calls: seq<SceneCall>

    function State(): Stage
      reads this
    {
      Stage(entries, runs, nextId, calls)
    }

    /** The stage invariant; between frames no flush runs and nothing is deferred. */
    ghost predicate Valid()
      reads this
    {
      ValidStage(State()) && !isFlushing && deferredQueue == []
    }

    constructor ()
      ensures Valid()
      ensures entries == [] && queue == [] && deferredQueue == [] && runs == [] && calls == []
      ensures !isFlushing && pendingOverlayZ == 0 && nextId == 1
    {
      entries := [];
      queue := [];
      deferredQueue := [];
      isFlushing := false;
      runs := [];
      pendingOverlayZ := 0;
      nextId := 1;
      calls := [];
    }

    /** An operation waits in the queue, or in the deferred queue while a flush runs. */
    method Enqueue(op: Operation)
      modifies this`queue, this`deferredQueue
      ensures isFlushing ==> deferredQueue == old(deferredQueue) + [op] && queue == old(queue)
      ensures !isFlushing ==> queue == old(queue) + [op] && deferredQueue == old(deferredQueue)
    {
      if isFlushing {
        deferredQueue := deferredQueue + [op];
      } else {
        queue := queue + [op];
      }
    }

    method SwitchTo(key: nat, transition: Option<Transition>)
      modifies this`queue, this`deferredQueue
      ensures var op := Operation(Switch, transition, true, key);
        (isFlushing ==> deferredQueue == old(deferredQueue) + [op] && queue == old(queue))
        && (!isFlushing ==> queue == old(queue) + [op] && deferredQueue == old(deferredQueue))
    {
      Enqueue(Operation(Switch, transition, true, key));
    }

    /** Queues an overlay; the z is kept aside for the next flush. */
    method Overlay(key: nat, transition: Option<Transition>, z: int)
      modifies this`queue, this`deferredQueue, this`pendingOverlayZ
      ensures var op := Operation(OperationKind.Overlay, transition, true, key);
        (isFlushing ==> deferredQueue == old(deferredQueue) + [op] && queue == old(queue))
        && (!isFlushing ==> queue == old(queue) + [op] && deferredQueue == old(deferredQueue))
      ensures pendingOverlayZ == z
    {
      Enqueue(Operation(OperationKind.Overlay, transition, true, key));
      pendingOverlayZ := z;
    }

    /** Queues a pop straight onto the queue, bypassing the deferral. */
    method PopTop(key: nat, transition: Option<Transition>)
      modifies this`queue
      ensures queue == old(queue) + [Operation(Pop, transition, true, key)]
    {
      queue := queue + [Operation(Pop, transition, true, key)];
    }

    /** Has: a live entry with the key exists. */
    predicate Has(key: nat)
      reads this
    {
      SceneCore.Has(entries, key)
    }

    /** Get: the index of the first live entry with the key. */
    method Get(key: nat) returns (r: Option<nat>)
      ensures r == FindLive(entries, key)
      ensures r.Some? <==> Has(key)
    {
      var i := 0;
      while i < |entries|
        invariant 0 <= i <= |entries|
        invariant forall j :: 0 <= j < i ==> !Live(entries[j], key)
      {
        if entries[i].key == key && !entries[i].phase.Dead? {
          return Some(i);
        }
        i := i + 1;
      }
      return None;
    }

    method TopRunningIndex() returns (r: Option<nat>)
      ensures r == TopRunning(entries)
    {
      var i := |entries|;
      while i > 0
        invariant 0 <= i <= |entries|
        invariant forall j :: i <= j < |entries| ==> !entries[j].phase.Running?
      {
        i := i - 1;
        if entries[i].phase.Running? {
          return Some(i);
        }
      }
      return None;
    }

    method IndexById(id: nat) returns (r: Option<nat>)
      ensures r == IndexOfId(entries, id)
    {
      var i := 0;
      while i < |entries|
        invariant 0 <= i <= |entries|
        invariant forall j :: 0 <= j < i ==> entries[j].id != id
      {
        if entries[i].id == id {
          return Some(i);
        }
        i := i + 1;
      }
      return None;
    }

    /** is_scene_locked: some run starts or ends at the index. */
    method IsSceneLocked(index: nat) returns (b: bool)
      ensures b == Locked(runs, index)
    {
      var k := 0;
      while k < |runs|
        invariant 0 <= k <= |runs|
        invariant forall m :: 0 <= m < k ==> runs[m].fromIndex != index && runs[m].toIndex != index
      {
        if runs[k].fromIndex == index || runs[k].toIndex == index {
          return true;
        }
        k := k + 1;
      }
      return false;
    }

    method ApplyPoliciesOnStart(from: nat, to: nat)
      requires from < |entries| && to < |entries|
      modifies this`entries, this`calls
      ensures entries == StartPhases(old(entries), from, to)
      ensures calls == old(calls) + [Exit(old(entries)[from].id)]
    {
      entries := entries[from := entries[from].(phase := Exiting)];
      calls := calls + [Exit(entries[from].id)];
      entries := entries[to := entries[to].(phase := Entering)];
    }

    method ProcessSwitchOp(op: Operation)
      modifies this`entries, this`runs, this`nextId, this`calls
      ensures State() == ProcessSwitch(old(State()), op)
    {
      var from := TopRunningIndex();
      var hasFrom := from.Some?;
      if hasFrom {
        var locked := IsSceneLocked(from.value);
        if locked {
          return;
        }
      }
      var to := NewEntry(if hasFrom then Entering else Running, SwitchZ(entries), nextId, op.key);
      nextId := nextId + 1;
      entries := entries + [to];
      var toIndex := |entries| - 1;
      if hasFrom && op.transition.Some? {
        runs := runs + [TransitionRun(from.value, toIndex, op.transition.value, 0.0, op.killFromOnEnd)];
        ApplyPoliciesOnStart(from.value, toIndex);
      } else if !hasFrom {
        entries := entries[toIndex := entries[toIndex].(phase := Running)];
        calls := calls + [Enter(entries[toIndex].id)];
      } else {
        calls := calls + [Exit(entries[from.value].id)];
        entries := entries[from.value := entries[from.value].(phase := Dead)];
        calls := calls + [Enter(entries[toIndex].id)];
        entries := entries[toIndex := entries[toIndex].(phase := Running)];
      }
    }

    method ProcessOverlayOp(op: Operation)
      modifies this`entries, this`runs, this`nextId, this`calls
      ensures State() == ProcessOverlay(old(State()), op, pendingOverlayZ)
    {
      ghost var st := State();
      var toIndex := AddOverlayEntry(op.key);
      ghost var es := entries;
      if toIndex.None? {
        assert State() == ProcessOverlay(st, op, pendingOverlayZ) by {
          assert ProcessOverlay(st, op, pendingOverlayZ) == Stage(es, st.runs, st.nextId + 1, st.calls);
        }
        return;
      }
      var ti := toIndex.value;
      runs := ShiftRuns(runs, ti);
      EnterOverlay(st, op, ti);
      assert State() == ProcessOverlay(st, op, pendingOverlayZ) by {
        assert ProcessOverlay(st, op, pendingOverlayZ) == OverlayAt(st, op, es, ti, ShiftRuns(st.runs, ti));
      }
    }

    /** The new Entering entry at the pending z, the resort, and IndexById of the new id. */
    method AddOverlayEntry(key: nat) returns (toIndex: Option<nat>)
      modifies this`entries, this`nextId
      ensures nextId == old(nextId) + 1
      ensures entries == SortByZ(old(entries) + [NewEntry(Entering, pendingOverlayZ, old(nextId), key)])
      ensures toIndex == IndexOfId(entries, old(nextId))
      ensures toIndex.Some? ==> toIndex.value < |entries|
    {
      var to := NewEntry(Entering, pendingOverlayZ, nextId, key);
      nextId := nextId + 1;
      entries := entries + [to];
      entries := SortByZ(entries);  // ResortByZ
      toIndex := IndexById(to.id);
    }

    /** The Overlay branch once the new entry sits at ti of the resorted list. */
    method EnterOverlay(ghost st: Stage, op: Operation, ti: nat)
      requires ti < |entries| && nextId == st.nextId + 1 && calls == st.calls
      modifies this`entries, this`runs, this`calls
      ensures State() == OverlayAt(st, op, old(entries), ti, old(runs))
    {
      var from := OverlaySource(|entries|, ti);
      if op.transition.Some? && from.Some? {
        runs := runs + [TransitionRun(from.value, ti, op.transition.value, 0.0, false)];
        ApplyPoliciesOnStart(from.value, ti);
      } else {
        entries := entries[ti := entries[ti].(phase := Running)];
      }
    }

    method ProcessPopOp(op: Operation)
      modifies this`entries, this`runs, this`calls
      ensures State() == ProcessPop(old(State()), op)
    {
      var from := TopIndex(entries);
      if from.None? {
        return;
      }
      var locked := IsSceneLocked(from.value);
      if locked {
        return;
      }
      var toIndex := if from.value > 0 then from.value - 1 else from.value;
      if op.transition.Some? {
        runs := runs + [TransitionRun(from.value, toIndex, op.transition.value, 0.0, true)];
        ApplyPoliciesOnStart(from.value, toIndex);
      } else {
        entries := entries[from.value := entries[from.value].(phase := Dead)];
        entries := entries[toIndex := entries[toIndex].(phase := Running)];
      }
    }

    method ProcessOperation(op: Operation)
      modifies this`entries, this`runs, this`nextId, this`calls
      ensures State() == ProcessOp(old(State()), op, pendingOverlayZ)
    {
      match op.kind
      case Switch => ProcessSwitchOp(op);
      case Replace => ProcessSwitchOp(op);
      case Overlay => ProcessOverlayOp(op);
      case Pop => ProcessPopOp(op);
      case Push =>
    }

    method ProcessOperations(ops: seq<Operation>)
      modifies this`entries, this`runs, this`nextId, this`calls
      ensures State() == ProcessOps(old(State()), ops, pendingOverlayZ)
    {
      for i := 0 to |ops|
        invariant State() == ProcessOps(old(State()), ops[..i], pendingOverlayZ)
      {
        assert ops[..i + 1][..i] == ops[..i];
        ProcessOperation(ops[i]);
      }
      assert ops[..|ops|] == ops;
    }

    /** Compact: drops the Dead entries in order; the runs follow their entries (corrected). */
    method Compact()
      requires RunsInRange(entries, runs)
      modifies this`entries, this`runs
      ensures State() == CompactStage(old(State()))
    {
      var kept: seq<SceneEntry> := [];
      for i := 0 to |entries|
        invariant kept == NonDead(entries[..i])
      {
        assert entries[..i + 1][..i] == entries[..i];
        if !entries[i].phase.Dead? {
          kept := kept + [entries[i]];
        }
      }
      assert entries[..|entries|] == entries;
      runs := CompactRuns(entries, runs);
      entries := kept;
    }

    /**
     * FlushOps. The operations that scene code (factories, Enter, Exit)
     * enqueues while the flush runs are `reentrant`: they land in the
     * deferred queue and become the queue once the flush ends.
     */
    method FlushOps(reentrant: seq<Operation>)
      requires Valid()
      modifies this`entries, this`runs, this`nextId, this`calls, this`queue, this`deferredQueue, this`isFlushing
      ensures Valid()
      ensures old(queue) == [] ==> State() == old(State()) && queue == []
      ensures old(queue) != [] ==>
        State() == CompactStage(ProcessOps(old(State()), old(queue), old(pendingOverlayZ)))
        && queue == reentrant && deferredQueue == []
      ensures !isFlushing && pendingOverlayZ == old(pendingOverlayZ)
    {
      if queue == [] {
        return;
      }
      ghost var flushed := ProcessOps(old(State()), old(queue), pendingOverlayZ);
      assert ValidStage(flushed);
      isFlushing := true;
      DrainQueue();
      EnqueueAll(reentrant);
      isFlushing := false;
      if deferredQueue != [] {
        queue := deferredQueue;
        deferredQueue := [];
      }
      assert State() == flushed;
      Compact();
      assert ValidStage(CompactStage(flushed));
    }

    /** The loop of FlushOps: the queue is taken and processed until it stays empty. */
    method DrainQueue()
      modifies this`queue, this`entries, this`runs, this`nextId, this`calls
      ensures queue == [] && State() == ProcessOps(old(State()), old(queue), pendingOverlayZ)
    {
      while queue != []
        invariant (queue == old(queue) && State() == old(State()))
          || (queue == [] && State() == ProcessOps(old(State()), old(queue), pendingOverlayZ))
        decreases |queue|
      {
        var current := queue;
        queue := [];
        ProcessOperations(current);
      }
      if old(queue) == [] {
        assert State() == ProcessOps(old(State()), old(queue), pendingOverlayZ);
      }
    }

    /** Operations enqueued one by one, in order. */
    method EnqueueAll(ops: seq<Operation>)
      modifies this`queue, this`deferredQueue
      ensures isFlushing ==> deferredQueue == old(deferredQueue) + ops && queue == old(queue)
      ensures !isFlushing ==> queue == old(queue) + ops && deferredQueue == old(deferredQueue)
    {
      for i := 0 to |ops|
        invariant isFlushing ==> deferredQueue == old(deferredQueue) + ops[..i] && queue == old(queue)
        invariant !isFlushing ==> queue == old(queue) + ops[..i] && deferredQueue == old(deferredQueue)
      {
        assert ops[..i + 1] == ops[..i] + [ops[i]];
        Enqueue(ops[i]);
      }
      assert ops[..|ops|] == ops;
    }

    /** The first loop of StepTransitions: every run is stepped and the finished ones collected. */
    method StepRuns(dt: real) returns (done: seq<nat>)
      modifies this`runs
      ensures runs == AdvanceRuns(old(runs), dt)
      ensures done == FinishedIndices(runs, |runs|)
    {
      var rs := runs;
      done := [];
      for i := 0 to |rs|
        invariant |rs| == |old(runs)|
        invariant forall j :: 0 <= j < i ==> rs[j] == AdvanceRun(old(runs)[j], dt)
        invariant forall j :: i <= j < |rs| ==> rs[j] == old(runs)[j]
        invariant done == FinishedIndices(rs, i)
      {
        ghost var prev := rs;
        rs := rs[i := AdvanceRun(rs[i], dt)];
        FinishedIndicesAgree(prev, rs, i);
        if Finished(rs[i]) {
          done := done + [i];
        }
      }
      runs := rs;
    }

    /** The second loop of StepTransitions: finished runs, last index first, are completed and erased. */
    method FinishDone(done: seq<nat>)
      requires RunsInRange(entries, runs) && FinishedList(runs, done)
      modifies this`entries, this`runs, this`calls
      ensures var f := FinishFrom(old(State()), old(runs), 0);
        entries == f.entries && calls == f.calls && runs == Unfinished(old(runs))
    {
      ghost var rs := runs;
      ghost var st0 := State();
      var i := |done|;
      ghost var q := |rs|;
      assert rs[q..] == [] && rs[..q] == rs;
      while i > 0
        invariant 0 <= i <= |done| && q <= |rs|
        invariant q == (if i == |done| then |rs| else done[i])
        invariant entries == FinishFrom(st0, rs, q).entries && calls == FinishFrom(st0, rs, q).calls
        invariant runs == rs[..q] + Unfinished(rs[q..])
      {
        i := i - 1;
        DoneGap(rs, done, i, q);
        FinishAt(done[i], st0, rs, q);
        q := done[i];
      }
      FinishedPrefix(st0, rs, done, q);
    }

    /** One pass of the second loop: the finished run at p completes and is erased. */
    method FinishAt(p: nat, ghost st0: Stage, ghost rs: seq<TransitionRun>, ghost q: nat)
      requires p < q <= |rs| && RunsInRange(st0.entries, rs) && Finished(rs[p])
      requires forall j :: p < j < q ==> !Finished(rs[j])
      requires entries == FinishFrom(st0, rs, q).entries && calls == FinishFrom(st0, rs, q).calls
      requires runs == rs[..q] + Unfinished(rs[q..])
      modifies this`entries, this`runs, this`calls
      ensures entries == FinishFrom(st0, rs, p).entries && calls == FinishFrom(st0, rs, p).calls
      ensures runs == rs[..p] + Unfinished(rs[p..])
    {
      FinishFromSkip(st0, rs, p + 1, q);
      assert runs[p] == rs[p];
      CompleteRun(runs[p]);
      EraseFinished(rs, p, q);
      runs := runs[..p] + runs[p + 1..];
    }

    /** A finished run's `to` enters and runs; its `from` exits and dies, or pauses. */
    method CompleteRun(run: TransitionRun)
      requires run.fromIndex < |entries| && run.toIndex < |entries|
      modifies this`entries, this`calls
      ensures entries == FinishRun(old(State()), run).entries && calls == FinishRun(old(State()), run).calls
    {
      calls := calls + [Enter(entries[run.toIndex].id)];
      entries := entries[run.toIndex := entries[run.toIndex].(phase := Running)];
      if run.killFromOnEnd {
        calls := calls + [Exit(entries[run.fromIndex].id)];
        entries := entries[run.fromIndex := entries[run.fromIndex].(phase := Dead)];
      } else {
        entries := entries[run.fromIndex := entries[run.fromIndex].(phase := Paused)];
      }
    }

    /** StepTransitions: every run advances by dt, the finished ones complete, then Compact. */
    method StepTransitions(dt: real)
      requires RunsInRange(entries, runs)
      modifies this`entries, this`runs, this`calls
      ensures State() == StepStage(old(State()), dt)
    {
      ghost var st := State();
      var done := StepRuns(dt);
      ghost var rs := runs;
      FinishFromIgnoresRuns(st, rs, 0, rs);
      FinishDone(done);
      UnfinishedInRange(rs, entries);
      Compact();
    }

    /** Update as far as the scene list goes: FlushOps, then StepTransitions. */
    method Update(dt: real, reentrant: seq<Operation>)
      requires Valid()
      modifies this`entries, this`runs, this`nextId, this`calls, this`queue, this`deferredQueue, this`isFlushing
      ensures Valid()
      ensures old(queue) == [] ==> State() == StepStage(old(State()), dt)
      ensures old(queue) != [] ==>
        State() == StepStage(CompactStage(ProcessOps(old(State()), old(queue), old(pendingOverlayZ))), dt)
        && queue == reentrant
    {
      FlushOps(reentrant);
      StepTransitions(dt);
    }
  }
}
