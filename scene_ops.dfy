/**
 * What one flush and one transition step do to a scene manager's state,
 * shared by engine/src/scene/scene_manager.h and
 * engine/src/world/scene/scene_manager.h: processing Switch, Replace,
 * Overlay, Pop and Push operations, starting and finishing transition runs,
 * and compaction.
 *
 * Two corrections are built in (see the Findings of the README): an Overlay
 * addresses the entry it created rather than the top entry, and the indices
 * held by transition runs follow their entries when the list is resorted or
 * compacted. The code as written is kept beside them as
 * ProcessOverlayAsWritten and StepStageAsWritten.
 */
module SceneOps {

  import opened Wrappers
  import opened SceneCore

  /** The manager state a flush and a step change; `calls` logs Enter and Exit. */
  datatype Stage = Stage(
    entries: seq<SceneEntry>,
    runs: seq<TransitionRun>,
    nextId: nat,
    calls: seq<SceneCall>)

  /** The invariant the managers keep: ordered by z, ids unique and below next_id_, runs in range. */
  predicate ValidStage(st: Stage)
  {
    SortedByZ(st.entries) && IdsDistinct(st.entries) && IdsBelow(st.entries, st.nextId)
    && RunsInRange(st.entries, st.runs)
  }

  /** Two lists that differ at most in phases. */
  predicate SameShape(a: seq<SceneEntry>, b: seq<SceneEntry>)
  {
    |a| == |b| && forall i :: 0 <= i < |a| ==> a[i].z == b[i].z && a[i].id == b[i].id
  }

  lemma SameShapeKeeps(a: seq<SceneEntry>, b: seq<SceneEntry>, runs: seq<TransitionRun>, n: nat)
    requires SameShape(a, b)
    ensures SortedByZ(a) ==> SortedByZ(b)
    ensures IdsDistinct(a) ==> IdsDistinct(b)
    ensures IdsBelow(a, n) ==> IdsBelow(b, n)
    ensures RunsInRange(a, runs) ==> RunsInRange(b, runs)
  {
  }

  /** The entry at i with its phase replaced. */
  function WithPhase(e: seq<SceneEntry>, i: nat, ph: Phase): (r: seq<SceneEntry>)
    requires i < |e|
    ensures SameShape(e, r)
    ensures r[i] == e[i].(phase := ph)
    ensures forall j :: 0 <= j < |e| && j != i ==> r[j] == e[j]
  {
    e[i := e[i].(phase := ph)]
  }

  /** ApplyPoliciesOnStart: `from` turns Exiting, then `to` turns Entering. */
  function StartPhases(e: seq<SceneEntry>, from: nat, to: nat): (r: seq<SceneEntry>)
    requires from < |e| && to < |e|
    ensures SameShape(e, r)
    ensures r[to].phase.Entering?
    ensures from != to ==> r[from].phase.Exiting?
    ensures forall j :: 0 <= j < |e| && j != from && j != to ==> r[j] == e[j]
  {
    WithPhase(WithPhase(e, from, Exiting), to, Entering)
  }

  // ---------------------------------------------------------------------
  // Switch and Replace

  /** A Switch is skipped when its source, the top running entry, is locked in a run. */
  predicate SwitchBlocked(st: Stage)
  {
    var from := TopRunning(st.entries);
    from.Some? && Locked(st.runs, from.value)
  }

  /** The z of a switched-to entry: one above the last entry, or 0 for the first. */
  function SwitchZ(e: seq<SceneEntry>): int
  {
    if |e| == 0 then 0 else e[|e| - 1].z + 1
  }

  function ProcessSwitch(st: Stage, op: Operation): (r: Stage)
    ensures SwitchBlocked(st) ==> r == st
    ensures !SwitchBlocked(st) ==>
      |r.entries| == |st.entries| + 1 && r.nextId == st.nextId + 1
      && r.entries[|st.entries|].id == st.nextId && r.entries[|st.entries|].key == op.key
      && r.entries[|st.entries|].z == SwitchZ(st.entries)
    ensures !SwitchBlocked(st) && TopRunning(st.entries).None? ==>
      r.entries[|st.entries|].phase.Running? && r.runs == st.runs
      && r.entries[..|st.entries|] == st.entries && r.calls == st.calls + [Enter(st.nextId)]
    ensures !SwitchBlocked(st) && TopRunning(st.entries).Some? && op.transition.None? ==>
      var f := TopRunning(st.entries).value;
      r.entries[f].phase.Dead? && r.entries[|st.entries|].phase.Running? && r.runs == st.runs
      && (forall j :: 0 <= j < |st.entries| && j != f ==> r.entries[j] == st.entries[j])
      && r.calls == st.calls + [Exit(st.entries[f].id), Enter(st.nextId)]
    ensures !SwitchBlocked(st) && TopRunning(st.entries).Some? && op.transition.Some? ==>
      var f := TopRunning(st.entries).value;
      r.entries[f].phase.Exiting? && r.entries[|st.entries|].phase.Entering?
      && (forall j :: 0 <= j < |st.entries| && j != f ==> r.entries[j] == st.entries[j])
      && r.runs == st.runs + [TransitionRun(f, |st.entries|, op.transition.value, 0.0, op.killFromOnEnd)]
      && r.calls == st.calls + [Exit(st.entries[f].id)]
  {
    var from := TopRunning(st.entries);
    if from.Some? && Locked(st.runs, from.value) then st
    else
      var to := NewEntry(if from.Some? then Entering else Running, SwitchZ(st.entries), st.nextId, op.key);
      var es := st.entries + [to];
      var ti := |es| - 1;
      if from.Some? && op.transition.Some? then
        Stage(StartPhases(es, from.value, ti),
              st.runs + [TransitionRun(from.value, ti, op.transition.value, 0.0, op.killFromOnEnd)],
              st.nextId + 1, st.calls + [Exit(es[from.value].id)])
      else if from.None? then
        Stage(WithPhase(es, ti, Running), st.runs, st.nextId + 1, st.calls + [Enter(to.id)])
      else
        Stage(WithPhase(WithPhase(es, from.value, Dead), ti, Running), st.runs, st.nextId + 1,
              st.calls + [Exit(es[from.value].id), Enter(to.id)])
  }

  lemma ProcessSwitchValid(st: Stage, op: Operation)
    requires ValidStage(st)
    ensures ValidStage(ProcessSwitch(st, op))
  {
    if !SwitchBlocked(st) {
      var r := ProcessSwitch(st, op);
      var from := TopRunning(st.entries);
      var to := NewEntry(if from.Some? then Entering else Running, SwitchZ(st.entries), st.nextId, op.key);
      var es := st.entries + [to];
      assert SameShape(es, r.entries);
      AppendKeepsValid(st.entries, to);
      assert RunsInRange(es, r.runs);
      SameShapeKeeps(es, r.entries, r.runs, st.nextId + 1);
    }
  }

  /** Appending an entry with a fresh id and the largest z keeps the list ordered with distinct ids. */
  lemma AppendKeepsValid(e: seq<SceneEntry>, to: SceneEntry)
    requires SortedByZ(e) && IdsDistinct(e) && IdsBelow(e, to.id)
    requires |e| > 0 ==> e[|e| - 1].z <= to.z
    ensures SortedByZ(e + [to]) && IdsDistinct(e + [to]) && IdsBelow(e + [to], to.id + 1)
  {
    var es := e + [to];
    forall i, j | 0 <= i < j < |es|
      ensures es[i].z <= es[j].z && es[i].id != es[j].id
    {
      assert es[i] == e[i];
      if j < |e| {
        assert es[j] == e[j];
      } else {
        assert e[i].z <= e[|e| - 1].z;
      }
    }
  }

  // ---------------------------------------------------------------------
  // Overlay

  /** Where a run index moves when an entry is inserted at p. */
  function Shift(i: nat, p: nat): (r: nat)
    ensures r == i || r == i + 1
    ensures r >= p <==> i >= p
  {
    if i >= p then i + 1 else i
  }

  /** The runs with their indices following an insertion at p. */
  function ShiftRuns(runs: seq<TransitionRun>, p: nat): (r: seq<TransitionRun>)
    ensures |r| == |runs|
    ensures forall k :: 0 <= k < |runs| ==>
      r[k] == runs[k].(fromIndex := Shift(runs[k].fromIndex, p), toIndex := Shift(runs[k].toIndex, p))
  {
    seq(|runs|, k requires 0 <= k < |runs| =>
      runs[k].(fromIndex := Shift(runs[k].fromIndex, p), toIndex := Shift(runs[k].toIndex, p)))
  }

  /** The entry below the overlay: to_index - 1 for two or more entries, where 0 - 1 wraps to SIZE_MAX. */
  function OverlaySource(count: nat, ti: nat): (r: Option<nat>)
    ensures r.Some? <==> count >= 2 && ti > 0
    ensures r.Some? ==> r.value == ti - 1
  {
    if count >= 2 then (if ti == 0 then None else Some(ti - 1)) else None
  }

  /** The Overlay branch once the new entry's index ti in the resorted list es is known. */
  function OverlayAt(st: Stage, op: Operation, es: seq<SceneEntry>, ti: nat, runs: seq<TransitionRun>): (r: Stage)
    requires ti < |es|
    ensures |r.entries| == |es| && SameShape(es, r.entries) && r.nextId == st.nextId + 1
    ensures op.transition.Some? && OverlaySource(|es|, ti).Some? ==>
      r.entries[ti].phase.Entering? && r.entries[ti - 1].phase.Exiting?
      && (forall j :: 0 <= j < |es| && j != ti && j != ti - 1 ==> r.entries[j] == es[j])
      && r.runs == runs + [TransitionRun(ti - 1, ti, op.transition.value, 0.0, false)]
      && r.calls == st.calls + [Exit(es[ti - 1].id)]
    ensures !(op.transition.Some? && OverlaySource(|es|, ti).Some?) ==>
      r.entries == es[ti := es[ti].(phase := Running)] && r.runs == runs && r.calls == st.calls
  {
    var from := OverlaySource(|es|, ti);
    if op.transition.Some? && from.Some? then
      Stage(StartPhases(es, from.value, ti),
            runs + [TransitionRun(from.value, ti, op.transition.value, 0.0, false)],
            st.nextId + 1, st.calls + [Exit(es[from.value].id)])
    else
      Stage(WithPhase(es, ti, Running), runs, st.nextId + 1, st.calls)
  }

  /** The Overlay branch, addressing the entry it created (corrected; see OverlayEntersNewScene). */
  function ProcessOverlay(st: Stage, op: Operation, z: int): (r: Stage)
    ensures r.nextId == st.nextId + 1
    ensures |r.entries| == |st.entries| + 1
  {
    var to := NewEntry(Entering, z, st.nextId, op.key);
    var es := SortByZ(st.entries + [to]);
    match IndexOfId(es, to.id)
    case None => Stage(es, st.runs, st.nextId + 1, st.calls)
    case Some(ti) => OverlayAt(st, op, es, ti, ShiftRuns(st.runs, ti))
  }

  /** The new overlay entry lands at its insertion point; it is Entering with the entry below it
      Exiting when there is a transition and an entry below, and Running otherwise. */
  lemma OverlayEntersNewScene(st: Stage, op: Operation, z: int)
    requires ValidStage(st)
    ensures var p := InsertPos(st.entries, NewEntry(Entering, z, st.nextId, op.key));
      var r := ProcessOverlay(st, op, z);
      p <= |st.entries| && r.entries[p].id == st.nextId && r.entries[p].key == op.key && r.entries[p].z == z
    ensures var p := InsertPos(st.entries, NewEntry(Entering, z, st.nextId, op.key));
      var r := ProcessOverlay(st, op, z);
      op.transition.Some? && p > 0 ==>
        r.entries[p].phase.Entering? && r.entries[p - 1].phase.Exiting?
        && r.runs == ShiftRuns(st.runs, p) + [TransitionRun(p - 1, p, op.transition.value, 0.0, false)]
        && r.calls == st.calls + [Exit(st.entries[p - 1].id)]
    ensures var p := InsertPos(st.entries, NewEntry(Entering, z, st.nextId, op.key));
      var r := ProcessOverlay(st, op, z);
      !(op.transition.Some? && p > 0) ==>
        r.entries[p].phase.Running? && r.runs == ShiftRuns(st.runs, p) && r.calls == st.calls
    ensures var p := InsertPos(st.entries, NewEntry(Entering, z, st.nextId, op.key));
      var r := ProcessOverlay(st, op, z);
      forall j :: 0 <= j < |st.entries| ==>
        r.entries[Shift(j, p)].id == st.entries[j].id
        && (j + 1 != p || op.transition.None? ==> r.entries[Shift(j, p)] == st.entries[j])
  {
    var e := st.entries;
    var to := NewEntry(Entering, z, st.nextId, op.key);
    var p := OverlayInsertsAt(e, to);
    var es := SortByZ(e + [to]);
    InsertShifts(e, p, to);
    var runs := ShiftRuns(st.runs, p);
    var r := ProcessOverlay(st, op, z);
    assert r == OverlayAt(st, op, es, p, runs);
    assert es[p] == to;
    if p > 0 {
      assert es[p - 1] == e[p - 1] by {
        assert es[Shift(p - 1, p)] == e[p - 1];
      }
    }
    forall j | 0 <= j < |e|
      ensures r.entries[Shift(j, p)].id == e[j].id
      ensures j + 1 != p || op.transition.None? ==> r.entries[Shift(j, p)] == e[j]
    {
      assert es[Shift(j, p)] == e[j];
    }
  }

  /** Inserting at p moves every entry from p on one place back. */
  lemma InsertShifts(e: seq<SceneEntry>, p: nat, to: SceneEntry)
    requires p <= |e|
    ensures forall j :: 0 <= j < |e| ==> (e[..p] + [to] + e[p..])[Shift(j, p)] == e[j]
    ensures (e[..p] + [to] + e[p..])[p] == to
  {
    var es := e[..p] + [to] + e[p..];
    forall j | 0 <= j < |e|
      ensures es[Shift(j, p)] == e[j]
    {
      if j < p {
        assert es[j] == e[..p][j];
      } else {
        assert es[j + 1] == e[p..][j - p];
      }
    }
  }

  /** Inserting an entry with a fresh id keeps the ids distinct and below the next id. */
  lemma InsertDistinct(e: seq<SceneEntry>, p: nat, to: SceneEntry)
    requires p <= |e| && IdsDistinct(e) && IdsBelow(e, to.id)
    ensures IdsDistinct(e[..p] + [to] + e[p..]) && IdsBelow(e[..p] + [to] + e[p..], to.id + 1)
  {
    var es := e[..p] + [to] + e[p..];
    InsertAtIndex(e, p, to);
    InsertedKeepsIds(e, p, to, es);
  }

  /** Where each entry of e sits after inserting `to` at p. */
  lemma InsertAtIndex(e: seq<SceneEntry>, p: nat, to: SceneEntry)
    requires p <= |e|
    ensures |e[..p] + [to] + e[p..]| == |e| + 1 && (e[..p] + [to] + e[p..])[p] == to
    ensures forall i :: 0 <= i < p ==> (e[..p] + [to] + e[p..])[i] == e[i]
    ensures forall i :: p < i <= |e| ==> (e[..p] + [to] + e[p..])[i] == e[i - 1]
  {
  }

  lemma InsertedKeepsIds(e: seq<SceneEntry>, p: nat, to: SceneEntry, es: seq<SceneEntry>)
    requires p <= |e| && IdsDistinct(e) && IdsBelow(e, to.id)
    requires |es| == |e| + 1 && es[p] == to
    requires forall i :: 0 <= i < p ==> es[i] == e[i]
    requires forall i :: p < i <= |e| ==> es[i] == e[i - 1]
    ensures IdsDistinct(es) && IdsBelow(es, to.id + 1)
  {
    forall i, j | 0 <= i < j < |es|
      ensures es[i].id != es[j].id
    {
      if i == p {
        assert es[j] == e[j - 1];
      } else if j == p {
        assert es[i] == e[i];
      } else {
        var a := if i < p then i else i - 1;
        var b := if j < p then j else j - 1;
        assert es[i] == e[a] && es[j] == e[b] && a < b;
      }
    }
  }

  /** After the resort, the new entry is at InsertPos and IndexById finds it there. */
  lemma OverlayInsertsAt(e: seq<SceneEntry>, to: SceneEntry) returns (p: nat)
    requires SortedByZ(e) && IdsBelow(e, to.id)
    ensures p == InsertPos(e, to) && p <= |e|
    ensures SortByZ(e + [to]) == e[..p] + [to] + e[p..]
    ensures IndexOfId(SortByZ(e + [to]), to.id) == Some(p)
  {
    p := InsertPos(e, to);
    SortAppendIsInsert(e, to);
    InsertedIdFound(e[..p], to, e[p..]);
  }

  lemma InsertedIdFound(front: seq<SceneEntry>, to: SceneEntry, back: seq<SceneEntry>)
    requires forall j :: 0 <= j < |front| ==> front[j].id < to.id
    ensures IndexOfId(front + [to] + back, to.id) == Some(|front|)
  {
    var es := front + [to] + back;
    assert es[|front|] == to;
    forall j | 0 <= j < |front|
      ensures es[j].id != to.id
    {
      assert es[j] == front[j];
    }
  }

  lemma ProcessOverlayValid(st: Stage, op: Operation, z: int)
    requires ValidStage(st)
    ensures ValidStage(ProcessOverlay(st, op, z))
  {
    var to := NewEntry(Entering, z, st.nextId, op.key);
    var p := OverlayInsertsAt(st.entries, to);
    var es := SortByZ(st.entries + [to]);
    SortByZSorted(st.entries + [to]);
    InsertDistinct(st.entries, p, to);
    assert IdsDistinct(es);
    var runs := ShiftRuns(st.runs, p);
    assert RunsInRange(es, runs);
    var r := ProcessOverlay(st, op, z);
    assert r == OverlayAt(st, op, es, p, runs);
    assert RunsInRange(es, r.runs);
    SameShapeKeeps(es, r.entries, r.runs, st.nextId + 1);
    assert ValidStage(r);
  }

  /** The Overlay branch as written: IndexById(entries_.back().id) after the resort, runs unchanged. */
  function ProcessOverlayAsWritten(st: Stage, op: Operation, z: int): (r: Stage)
    ensures r.nextId == st.nextId + 1
    ensures |r.entries| == |st.entries| + 1
  {
    var to := NewEntry(Entering, z, st.nextId, op.key);
    var es := SortByZ(st.entries + [to]);
    match IndexOfId(es, es[|es| - 1].id)
    case None => Stage(es, st.runs, st.nextId + 1, st.calls)
    case Some(ti) => OverlayAt(st, op, es, ti, st.runs)
  }

  /** An overlay below the running scene, without a transition: as written it is left Entering
      and the scene above it is set Running instead; corrected, the overlay is Running. */
  lemma OverlayBelowTopAsWritten()
    ensures var a := NewEntry(Running, 0, 1, 7);
      var st := Stage([a], [], 2, [Enter(1)]);
      var op := Operation(Overlay, None, true, 9);
      ProcessOverlayAsWritten(st, op, -1).entries == [NewEntry(Entering, -1, 2, 9), a]
      && ProcessOverlay(st, op, -1).entries == [NewEntry(Running, -1, 2, 9), a]
  {
    var a := NewEntry(Running, 0, 1, 7);
    var o := NewEntry(Entering, -1, 2, 9);
    assert [a] + [o] == [a, o];
    assert [a, o][..1] == [a];
    assert [a][..0] == [];
    assert SortByZ([a]) == [a];
    assert InsertByZ([a], o) == [o, a];
    assert SortByZ([a, o]) == [o, a];
    assert IndexOfId([o, a], 1) == Some(1) by {
      assert [o, a][1..] == [a];
    }
    assert IndexOfId([o, a], 2) == Some(0);
  }

  // ---------------------------------------------------------------------
  // Pop

  function ProcessPop(st: Stage, op: Operation): (r: Stage)
    ensures |st.entries| == 0 || Locked(st.runs, |st.entries| - 1) ==> r == st
    ensures r.nextId == st.nextId && |r.entries| == |st.entries|
    ensures |st.entries| >= 2 && !Locked(st.runs, |st.entries| - 1) && op.transition.None? ==>
      var top := |st.entries| - 1;
      r.entries[top].phase.Dead? && r.entries[top - 1].phase.Running?
      && (forall j :: 0 <= j < top - 1 ==> r.entries[j] == st.entries[j])
      && r.runs == st.runs && r.calls == st.calls
    ensures |st.entries| == 1 && !Locked(st.runs, 0) && op.transition.None? ==>
      r.entries == [st.entries[0].(phase := Running)] && r.runs == st.runs
    ensures |st.entries| >= 1 && !Locked(st.runs, |st.entries| - 1) && op.transition.Some? ==>
      var top := |st.entries| - 1;
      var to := if top > 0 then top - 1 else top;
      r.entries[to].phase.Entering? && (top > 0 ==> r.entries[top].phase.Exiting?)
      && (forall j :: 0 <= j < |st.entries| && j != top && j != to ==> r.entries[j] == st.entries[j])
      && r.runs == st.runs + [TransitionRun(top, to, op.transition.value, 0.0, true)]
      && r.calls == st.calls + [Exit(st.entries[top].id)]
  {
    match TopIndex(st.entries)
    case None => st
    case Some(from) =>
      if Locked(st.runs, from) then st
      else
        var to := if from > 0 then from - 1 else from;
        if op.transition.Some? then
          Stage(StartPhases(st.entries, from, to),
                st.runs + [TransitionRun(from, to, op.transition.value, 0.0, true)],
                st.nextId, st.calls + [Exit(st.entries[from].id)])
        else
          Stage(WithPhase(WithPhase(st.entries, from, Dead), to, Running), st.runs, st.nextId, st.calls)
  }

  lemma ProcessPopValid(st: Stage, op: Operation)
    requires ValidStage(st)
    ensures ValidStage(ProcessPop(st, op))
  {
    var r := ProcessPop(st, op);
    if |st.entries| > 0 && !Locked(st.runs, |st.entries| - 1) {
      SameShapeKeeps(st.entries, r.entries, st.runs, st.nextId);
    }
  }

  // ---------------------------------------------------------------------
  // Operations

  /** One operation of ProcessOperations; Replace is handled as Switch and Push is ignored. */
  function ProcessOp(st: Stage, op: Operation, overlayZ: int): (r: Stage)
    ensures op.kind.Push? ==> r == st
    ensures op.kind.Switch? || op.kind.Replace? ==> r == ProcessSwitch(st, op)
    ensures op.kind.Overlay? ==> r == ProcessOverlay(st, op, overlayZ)
    ensures op.kind.Pop? ==> r == ProcessPop(st, op)
  {
    match op.kind
    case Switch => ProcessSwitch(st, op)
    case Replace => ProcessSwitch(st, op)
    case Overlay => ProcessOverlay(st, op, overlayZ)
    case Pop => ProcessPop(st, op)
    case Push => st
  }

  lemma ProcessOpValid(st: Stage, op: Operation, overlayZ: int)
    ensures ValidStage(st) ==> ValidStage(ProcessOp(st, op, overlayZ))
  {
    if ValidStage(st) {
      match op.kind
      case Switch => ProcessSwitchValid(st, op);
      case Replace => ProcessSwitchValid(st, op);
      case Overlay => ProcessOverlayValid(st, op, overlayZ);
      case Pop => ProcessPopValid(st, op);
      case Push =>
    }
  }

  /** The operations of one queue in order, all seeing the same pending overlay z. */
  function ProcessOps(st: Stage, ops: seq<Operation>, overlayZ: int): (r: Stage)
    ensures ValidStage(st) ==> ValidStage(r)
    ensures st.nextId <= r.nextId
    decreases |ops|
  {
    if |ops| == 0 then st
    else
      var prev := ProcessOps(st, ops[..|ops| - 1], overlayZ);
      ProcessOpValid(prev, ops[|ops| - 1], overlayZ);
      ProcessOp(prev, ops[|ops| - 1], overlayZ)
  }

  /** A stage with its call log dropped: the state of the world variant, which makes no calls. */
  function Silent(st: Stage): (r: Stage)
    ensures r.calls == [] && r.entries == st.entries && r.runs == st.runs && r.nextId == st.nextId
  {
    st.(calls := [])
  }

  /** What an operation does to the scene list does not depend on the calls logged before it. */
  lemma ProcessOpSilent(st: Stage, op: Operation, overlayZ: int)
    ensures Silent(ProcessOp(Silent(st), op, overlayZ)) == Silent(ProcessOp(st, op, overlayZ))
  {
    match op.kind
    case Switch => SwitchSilent(st, op);
    case Replace => SwitchSilent(st, op);
    case Overlay => OverlaySilent(st, op, overlayZ);
    case Pop => PopSilent(st, op);
    case Push =>
  }

  lemma SwitchSilent(st: Stage, op: Operation)
    ensures Silent(ProcessSwitch(Silent(st), op)) == Silent(ProcessSwitch(st, op))
  {
  }

  lemma PopSilent(st: Stage, op: Operation)
    ensures Silent(ProcessPop(Silent(st), op)) == Silent(ProcessPop(st, op))
  {
  }

  lemma OverlaySilent(st: Stage, op: Operation, z: int)
    ensures Silent(ProcessOverlay(Silent(st), op, z)) == Silent(ProcessOverlay(st, op, z))
  {
    var to := NewEntry(Entering, z, st.nextId, op.key);
    var es := SortByZ(st.entries + [to]);
    var found := IndexOfId(es, to.id);
    if found.Some? {
      var ti := found.value;
      assert ProcessOverlay(st, op, z) == OverlayAt(st, op, es, ti, ShiftRuns(st.runs, ti));
      assert ProcessOverlay(Silent(st), op, z) == OverlayAt(Silent(st), op, es, ti, ShiftRuns(st.runs, ti));
      OverlayAtSilent(st, op, es, ti, ShiftRuns(st.runs, ti));
    }
  }

  lemma OverlayAtSilent(st: Stage, op: Operation, es: seq<SceneEntry>, ti: nat, runs: seq<TransitionRun>)
    requires ti < |es|
    ensures Silent(OverlayAt(Silent(st), op, es, ti, runs)) == Silent(OverlayAt(st, op, es, ti, runs))
  {
  }

  // ---------------------------------------------------------------------
  // Transition steps

  /** The first loop of StepTransitions applied to every run. */
  function AdvanceRuns(runs: seq<TransitionRun>, dt: real): (r: seq<TransitionRun>)
    ensures |r| == |runs|
    ensures forall k :: 0 <= k < |runs| ==> r[k] == AdvanceRun(runs[k], dt)
  {
    seq(|runs|, k requires 0 <= k < |runs| => AdvanceRun(runs[k], dt))
  }

  /** A finished run: `to` enters and turns Running, then `from` exits and turns Dead, or turns Paused. */
  function FinishRun(st: Stage, run: TransitionRun): (r: Stage)
    requires run.fromIndex < |st.entries| && run.toIndex < |st.entries|
    ensures SameShape(st.entries, r.entries) && r.runs == st.runs && r.nextId == st.nextId
    ensures r.entries[run.fromIndex].phase == (if run.killFromOnEnd then Dead else Paused)
    ensures run.fromIndex != run.toIndex ==> r.entries[run.toIndex].phase.Running?
    ensures forall j :: 0 <= j < |st.entries| && j != run.fromIndex && j != run.toIndex ==>
      r.entries[j] == st.entries[j]
    ensures r.calls == st.calls + [Enter(st.entries[run.toIndex].id)]
      + (if run.killFromOnEnd then [Exit(st.entries[run.fromIndex].id)] else [])
  {
    var e1 := WithPhase(st.entries, run.toIndex, Running);
    var e2 := WithPhase(e1, run.fromIndex, if run.killFromOnEnd then Dead else Paused);
    Stage(e2, st.runs, st.nextId,
          st.calls + [Enter(st.entries[run.toIndex].id)]
          + (if run.killFromOnEnd then [Exit(st.entries[run.fromIndex].id)] else []))
  }

  /** The second loop of StepTransitions: the finished runs among rs[n..], last index first. */
  function FinishFrom(st: Stage, rs: seq<TransitionRun>, n: nat): (r: Stage)
    requires n <= |rs| && RunsInRange(st.entries, rs)
    ensures SameShape(st.entries, r.entries) && r.runs == st.runs && r.nextId == st.nextId
    decreases |rs| - n
  {
    if n == |rs| then st
    else
      var s := FinishFrom(st, rs, n + 1);
      if Finished(rs[n]) then FinishRun(s, rs[n]) else s
  }

  /** FinishFrom reads only the entries and calls of its stage. */
  lemma {:induction false} FinishFromIgnoresRuns(st: Stage, rs: seq<TransitionRun>, n: nat, other: seq<TransitionRun>)
    requires n <= |rs| && RunsInRange(st.entries, rs)
    ensures FinishFrom(st.(runs := other), rs, n) == FinishFrom(st, rs, n).(runs := other)
    decreases |rs| - n
  {
    if n < |rs| {
      FinishFromIgnoresRuns(st, rs, n + 1, other);
    }
  }

  /** Erasing the finished runs leaves the unfinished ones in order. */
  function Unfinished(rs: seq<TransitionRun>): (r: seq<TransitionRun>)
    ensures |r| <= |rs|
    ensures forall k :: 0 <= k < |r| ==> !Finished(r[k])
  {
    if |rs| == 0 then []
    else Unfinished(rs[..|rs| - 1]) + (if Finished(rs[|rs| - 1]) then [] else [rs[|rs| - 1]])
  }

  /** A run is kept exactly when it is one of the runs and has not finished. */
  lemma {:induction false} UnfinishedMembers(rs: seq<TransitionRun>, x: TransitionRun)
    ensures x in Unfinished(rs) <==> x in rs && !Finished(x)
    decreases |rs|
  {
    if |rs| > 0 {
      UnfinishedMembers(rs[..|rs| - 1], x);
      assert rs == rs[..|rs| - 1] + [rs[|rs| - 1]];
    }
  }

  /** The `done` list of StepTransitions: the indices below n of the finished runs, ascending. */
  function FinishedIndices(rs: seq<TransitionRun>, n: nat): (r: seq<nat>)
    requires n <= |rs|
    ensures forall k :: 0 <= k < |r| ==> r[k] < n && Finished(rs[r[k]])
    ensures forall k, l :: 0 <= k < l < |r| ==> r[k] < r[l]
    ensures forall j :: 0 <= j < n && Finished(rs[j]) ==> j in r
  {
    if n == 0 then []
    else FinishedIndices(rs, n - 1) + (if Finished(rs[n - 1]) then [n - 1] else [])
  }

  /** FinishedIndices below n reads only the first n runs. */
  lemma {:induction false} FinishedIndicesAgree(a: seq<TransitionRun>, b: seq<TransitionRun>, n: nat)
    requires n <= |a| && n <= |b| && forall j :: 0 <= j < n ==> a[j] == b[j]
    ensures FinishedIndices(a, n) == FinishedIndices(b, n)
  {
    if n > 0 {
      FinishedIndicesAgree(a, b, n - 1);
    }
  }

  /** Unfinished runs between a and b leave FinishFrom unchanged. */
  lemma {:induction false} FinishFromSkip(st: Stage, rs: seq<TransitionRun>, a: nat, b: nat)
    requires a <= b <= |rs| && RunsInRange(st.entries, rs)
    requires forall j :: a <= j < b ==> !Finished(rs[j])
    ensures FinishFrom(st, rs, a) == FinishFrom(st, rs, b)
    decreases b - a
  {
    if a < b {
      FinishFromSkip(st, rs, a + 1, b);
    }
  }

  lemma {:induction false} UnfinishedAppend(a: seq<TransitionRun>, b: seq<TransitionRun>)
    ensures Unfinished(a + b) == Unfinished(a) + Unfinished(b)
    decreases |b|
  {
    if |b| == 0 {
      assert a + b == a;
    } else {
      assert (a + b)[..|a + b| - 1] == a + b[..|b| - 1];
      UnfinishedAppend(a, b[..|b| - 1]);
    }
  }

  lemma {:induction false} UnfinishedOfLive(a: seq<TransitionRun>)
    requires forall k :: 0 <= k < |a| ==> !Finished(a[k])
    ensures Unfinished(a) == a
    decreases |a|
  {
    if |a| > 0 {
      UnfinishedOfLive(a[..|a| - 1]);
    }
  }

  /** Erasing the finished run at p from rs[..q] + Unfinished(rs[q..]), with none finished between. */
  lemma EraseFinished(rs: seq<TransitionRun>, p: nat, q: nat)
    requires p < q <= |rs| && Finished(rs[p])
    requires forall j :: p < j < q ==> !Finished(rs[j])
    ensures (rs[..q] + Unfinished(rs[q..]))[..p] + (rs[..q] + Unfinished(rs[q..]))[p + 1..]
      == rs[..p] + Unfinished(rs[p..])
  {
    var mid := rs[p + 1..q];
    var tail := Unfinished(rs[q..]);
    var cur := rs[..q] + tail;
    assert cur[..p] == rs[..p];
    assert cur[p + 1..] == mid + tail;
    forall k | 0 <= k < |mid|
      ensures !Finished(mid[k])
    {
      assert mid[k] == rs[p + 1 + k];
    }
    UnfinishedOfLive(mid);
    UnfinishedTail(rs, p, q);
  }

  lemma UnfinishedTail(rs: seq<TransitionRun>, p: nat, q: nat)
    requires p < q <= |rs| && Finished(rs[p])
    requires Unfinished(rs[p + 1..q]) == rs[p + 1..q]
    ensures Unfinished(rs[p..]) == rs[p + 1..q] + Unfinished(rs[q..])
  {
    assert rs[p..] == [rs[p]] + rs[p + 1..q] + rs[q..];
    UnfinishedSkipsHead(rs[p], rs[p + 1..q], rs[q..]);
  }

  lemma UnfinishedSkipsHead(x: TransitionRun, m: seq<TransitionRun>, t: seq<TransitionRun>)
    requires Finished(x) && Unfinished(m) == m
    ensures Unfinished([x] + m + t) == m + Unfinished(t)
  {
    var head := [x];
    assert Unfinished(head) == [] by {
      assert head[..0] == [];
    }
    UnfinishedAppend(head, m);
    assert Unfinished(head + m) == m;
    UnfinishedAppend(head + m, t);
  }

  /** `done` lists exactly the finished runs, ascending. */
  predicate FinishedList(rs: seq<TransitionRun>, done: seq<nat>)
  {
    (forall k :: 0 <= k < |done| ==> done[k] < |rs| && Finished(rs[done[k]]))
    && (forall k, l :: 0 <= k < l < |done| ==> done[k] < done[l])
    && (forall j :: 0 <= j < |rs| && Finished(rs[j]) ==> j in done)
  }

  /** No run between two consecutive entries of the ascending `done` list has finished. */
  lemma DoneGap(rs: seq<TransitionRun>, done: seq<nat>, i: int, q: nat)
    requires -1 <= i < |done| && FinishedList(rs, done)
    requires q == (if i + 1 == |done| then |rs| else done[i + 1])
    ensures q <= |rs|
    ensures i >= 0 ==> done[i] < q
    ensures forall j :: (if i >= 0 then done[i] + 1 else 0) <= j < q ==> !Finished(rs[j])
  {
    forall j | (if i >= 0 then done[i] + 1 else 0) <= j < q
      ensures !Finished(rs[j])
    {
      forall k | 0 <= k < |done|
        ensures done[k] != j
      {
        if k <= i {
          assert done[k] <= done[i];
        } else if i + 1 < |done| {
          assert done[i + 1] <= done[k];
        }
      }
    }
  }

  /** Below the first finished run nothing happens: FinishFrom and the erasure start from there. */
  lemma FinishedPrefix(st: Stage, rs: seq<TransitionRun>, done: seq<nat>, q: nat)
    requires RunsInRange(st.entries, rs) && FinishedList(rs, done)
    requires q == (if |done| == 0 then |rs| else done[0])
    ensures q <= |rs| && FinishFrom(st, rs, 0) == FinishFrom(st, rs, q)
    ensures rs[..q] + Unfinished(rs[q..]) == Unfinished(rs)
  {
    DoneGap(rs, done, -1, q);
    FinishFromSkip(st, rs, 0, q);
    LiveThenUnfinished(rs, q);
  }

  /** A prefix of runs none of which has finished survives the erasure whole. */
  lemma LiveThenUnfinished(rs: seq<TransitionRun>, q: nat)
    requires q <= |rs| && forall j :: 0 <= j < q ==> !Finished(rs[j])
    ensures rs[..q] + Unfinished(rs[q..]) == Unfinished(rs)
  {
    LivePrefix(rs, q);
    UnfinishedAppend(rs[..q], rs[q..]);
    PrefixSuffix(rs, q);
  }

  lemma LivePrefix(rs: seq<TransitionRun>, q: nat)
    requires q <= |rs| && forall j :: 0 <= j < q ==> !Finished(rs[j])
    ensures Unfinished(rs[..q]) == rs[..q]
  {
    var a := rs[..q];
    forall k | 0 <= k < |a| ensures !Finished(a[k]) {
      assert a[k] == rs[k];
    }
    UnfinishedOfLive(a);
  }

  lemma PrefixSuffix(rs: seq<TransitionRun>, q: nat)
    requires q <= |rs|
    ensures rs[..q] + rs[q..] == rs
  {
  }

  lemma UnfinishedInRange(rs: seq<TransitionRun>, e: seq<SceneEntry>)
    requires RunsInRange(e, rs)
    ensures RunsInRange(e, Unfinished(rs))
  {
    var kept := Unfinished(rs);
    forall k | 0 <= k < |kept|
      ensures kept[k].fromIndex < |e| && kept[k].toIndex < |e|
    {
      UnfinishedMembers(rs, kept[k]);
    }
  }

  // ---------------------------------------------------------------------
  // Compaction

  /** A run both of whose entries survive compaction. */
  predicate Survives(e: seq<SceneEntry>, run: TransitionRun)
    requires run.fromIndex < |e| && run.toIndex < |e|
  {
    !e[run.fromIndex].phase.Dead? && !e[run.toIndex].phase.Dead?
  }

  /** A run with its indices moved to where compaction puts its entries. */
  function RemapRun(e: seq<SceneEntry>, run: TransitionRun): (r: TransitionRun)
    requires run.fromIndex < |e| && run.toIndex < |e|
  {
    run.(fromIndex := Rank(e, run.fromIndex), toIndex := Rank(e, run.toIndex))
  }

  /** A remapped run designates the same entries in the compacted list and keeps its progress. */
  lemma RemapRunDesignatesSame(e: seq<SceneEntry>, run: TransitionRun)
    requires run.fromIndex < |e| && run.toIndex < |e| && Survives(e, run)
    ensures RemapRun(e, run).fromIndex < |NonDead(e)| && RemapRun(e, run).toIndex < |NonDead(e)|
    ensures NonDead(e)[RemapRun(e, run).fromIndex] == e[run.fromIndex]
    ensures NonDead(e)[RemapRun(e, run).toIndex] == e[run.toIndex]
    ensures RemapRun(e, run).progress == run.progress && RemapRun(e, run).transition == run.transition
    ensures RemapRun(e, run).killFromOnEnd == run.killFromOnEnd
  {
    RankFindsEntry(e, run.fromIndex);
    RankFindsEntry(e, run.toIndex);
  }

  /** The runs after compaction (corrected): surviving runs remapped, runs touching a Dead entry dropped. */
  function CompactRuns(e: seq<SceneEntry>, runs: seq<TransitionRun>): (r: seq<TransitionRun>)
    requires RunsInRange(e, runs)
    ensures RunsInRange(NonDead(e), r)
    ensures forall k :: 0 <= k < |runs| && Survives(e, runs[k]) ==> RemapRun(e, runs[k]) in r
    ensures forall x :: x in r ==>
      exists k :: 0 <= k < |runs| && Survives(e, runs[k]) && x == RemapRun(e, runs[k])
  {
    if |runs| == 0 then []
    else
      var rest := CompactRuns(e, runs[..|runs| - 1]);
      var run := runs[|runs| - 1];
      if Survives(e, run) then
        RemapRunDesignatesSame(e, run);
        rest + [RemapRun(e, run)]
      else rest
  }

  /** Compact (corrected): the Dead entries go, and the runs follow their entries. */
  function CompactStage(st: Stage): (r: Stage)
    requires RunsInRange(st.entries, st.runs)
    ensures r.entries == NonDead(st.entries) && r.nextId == st.nextId && r.calls == st.calls
    ensures forall i :: 0 <= i < |r.entries| ==> !r.entries[i].phase.Dead?
    ensures ValidStage(st) ==> ValidStage(r)
  {
    var r := Stage(NonDead(st.entries), CompactRuns(st.entries, st.runs), st.nextId, st.calls);
    CompactKeepsValid(st.entries, st.nextId);
    r
  }

  lemma CompactKeepsValid(e: seq<SceneEntry>, n: nat)
    ensures SortedByZ(e) ==> SortedByZ(NonDead(e))
    ensures IdsDistinct(e) ==> IdsDistinct(NonDead(e))
    ensures IdsBelow(e, n) ==> IdsBelow(NonDead(e), n)
  {
    if SortedByZ(e) {
      NonDeadSorted(e);
    }
    if IdsDistinct(e) {
      NonDeadDistinct(e);
    }
    NonDeadSubset(e);
  }

  /** Compact as written: the Dead entries go and the runs keep their old indices. */
  function CompactAsWritten(st: Stage): (r: Stage)
    ensures r.entries == NonDead(st.entries) && r.runs == st.runs
    ensures r.nextId == st.nextId && r.calls == st.calls
  {
    Stage(NonDead(st.entries), st.runs, st.nextId, st.calls)
  }

  /** StepTransitions (with the corrected compaction). */
  function StepStage(st: Stage, dt: real): (r: Stage)
    requires RunsInRange(st.entries, st.runs)
    ensures r.nextId == st.nextId
    ensures forall k :: 0 <= k < |r.runs| ==> !Finished(r.runs[k])
    ensures forall i :: 0 <= i < |r.entries| ==> !r.entries[i].phase.Dead?
    ensures ValidStage(st) ==> ValidStage(r)
  {
    var rs := AdvanceRuns(st.runs, dt);
    var f := FinishFrom(st, rs, 0);
    var kept := Unfinished(rs);
    forall k | 0 <= k < |kept|
      ensures kept[k].fromIndex < |f.entries| && kept[k].toIndex < |f.entries|
    {
      UnfinishedMembers(rs, kept[k]);
    }
    var s := Stage(f.entries, kept, f.nextId, f.calls);
    SameShapeKeeps(st.entries, f.entries, kept, st.nextId);
    var r := CompactStage(s);
    forall k | 0 <= k < |r.runs|
      ensures !Finished(r.runs[k])
    {
      assert r.runs[k] in r.runs;
    }
    r
  }

  /** StepTransitions as written: the runs keep their indices across the compaction. */
  function StepStageAsWritten(st: Stage, dt: real): (r: Stage)
    requires RunsInRange(st.entries, st.runs)
    ensures r.nextId == st.nextId
  {
    var rs := AdvanceRuns(st.runs, dt);
    var f := FinishFrom(st, rs, 0);
    CompactAsWritten(Stage(f.entries, Unfinished(rs), f.nextId, f.calls))
  }

  /** A Switch to A, a Switch to B with a short slide and an Overlay of O on top with a long slide,
      in one flush, then one step that finishes only the first run: as written, the surviving run's
      `to` index is past the end of the compacted list; with the correction every run stays in range. */
  lemma StaleRunAsWritten()
    ensures var st := ProcessOps(Stage([], [], 1, []), StaleRunOps(), 100);
      RunsInRange(st.entries, st.runs)
      && !RunsInRange(StepStageAsWritten(st, 0.5).entries, StepStageAsWritten(st, 0.5).runs)
      && RunsInRange(StepStage(st, 0.5).entries, StepStage(st, 0.5).runs)
  {
    StaleRunFlush();
    StaleRunStep();
  }

  /** The operations of the stale run example. */
  function StaleRunOps(): seq<Operation>
  {
    [Operation(Switch, None, true, 1),
     Operation(Switch, Some(SlideLeft(0.1, 0.0)), true, 2),
     Operation(Overlay, Some(SlideLeft(10.0, 0.0)), true, 3)]
  }

  /** The state after the flush of the stale run example. */
  function StaleRunFlushed(): Stage
  {
    Stage([NewEntry(Exiting, 0, 1, 1), NewEntry(Exiting, 1, 2, 2), NewEntry(Entering, 100, 3, 3)],
          [TransitionRun(0, 1, SlideLeft(0.1, 0.0), 0.0, true),
           TransitionRun(1, 2, SlideLeft(10.0, 0.0), 0.0, false)],
          4, [Enter(1), Exit(1), Exit(2)])
  }

  lemma StaleRunFlush()
    ensures ProcessOps(Stage([], [], 1, []), StaleRunOps(), 100) == StaleRunFlushed()
  {
    var ops := StaleRunOps();
    var s0 := Stage([], [], 1, []);
    assert ops[..2][..1] == [ops[0]] && [ops[0]][..0] == [];
    var a := NewEntry(Running, 0, 1, 1);
    var s1 := Stage([a], [], 2, [Enter(1)]);
    assert ProcessOps(s0, ops[..2][..1], 100) == s1;
    var s2 := StaleSecond(s1, ops[1]);
    assert ProcessOps(s0, ops[..2], 100) == s2;
    StaleThird(s2, ops[2]);
  }

  lemma StaleSecond(s1: Stage, op: Operation) returns (s2: Stage)
    requires s1 == Stage([NewEntry(Running, 0, 1, 1)], [], 2, [Enter(1)])
    requires op == Operation(Switch, Some(SlideLeft(0.1, 0.0)), true, 2)
    ensures ProcessOp(s1, op, 100) == s2
    ensures s2 == Stage([NewEntry(Exiting, 0, 1, 1), NewEntry(Entering, 1, 2, 2)],
                        [TransitionRun(0, 1, SlideLeft(0.1, 0.0), 0.0, true)], 3, [Enter(1), Exit(1)])
  {
    assert TopRunning(s1.entries) == Some(0);
    assert !Locked([], 0);
    s2 := ProcessOp(s1, op, 100);
  }

  lemma StaleThird(s2: Stage, op: Operation)
    requires s2 == Stage([NewEntry(Exiting, 0, 1, 1), NewEntry(Entering, 1, 2, 2)],
                        [TransitionRun(0, 1, SlideLeft(0.1, 0.0), 0.0, true)], 3, [Enter(1), Exit(1)])
    requires op == Operation(Overlay, Some(SlideLeft(10.0, 0.0)), true, 3)
    ensures ProcessOp(s2, op, 100) == StaleRunFlushed()
  {
    var o := NewEntry(Entering, 100, 3, 3);
    var es := s2.entries + [o];
    assert SortedByZ(es);
    SortByZOfSorted(es);
    InsertedIdFound(s2.entries, o, []);
    assert s2.entries + [o] + [] == es;
    assert ShiftRuns(s2.runs, 2) == s2.runs;
    assert ProcessOp(s2, op, 100) == OverlayAt(s2, op, es, 2, s2.runs);
  }

  lemma StaleRunStep()
    ensures var st := StaleRunFlushed();
      RunsInRange(st.entries, st.runs)
      && !RunsInRange(StepStageAsWritten(st, 0.5).entries, StepStageAsWritten(st, 0.5).runs)
  {
    var st := StaleRunFlushed();
    var rs := AdvanceRuns(st.runs, 0.5);
    var f := StaleRunFinished(st, rs);
    StaleRunCompacted(f.entries);
    StaleRunInRange(st);
    StaleWritten(st, rs, f);
  }

  lemma StaleRunInRange(st: Stage)
    requires st == StaleRunFlushed()
    ensures RunsInRange(st.entries, st.runs)
  {
    assert |st.entries| == 3 && |st.runs| == 2;
    assert st.runs[0].toIndex == 1 && st.runs[1].toIndex == 2;
  }

  /** The as-written step keeps the unfinished run with its old index. */
  lemma StaleWritten(st: Stage, rs: seq<TransitionRun>, f: Stage)
    requires RunsInRange(st.entries, st.runs) && rs == AdvanceRuns(st.runs, 0.5) && f == FinishFrom(st, rs, 0)
    requires |rs| == 2 && Unfinished(rs) == [rs[1]] && rs[1].toIndex == 2 && |NonDead(f.entries)| == 2
    ensures !RunsInRange(StepStageAsWritten(st, 0.5).entries, StepStageAsWritten(st, 0.5).runs)
  {
    var w := StepStageAsWritten(st, 0.5);
    assert w.runs == [rs[1]] && |w.entries| == 2;
    assert w.runs[0].toIndex >= |w.entries|;
  }

  lemma StaleRunCompacted(e: seq<SceneEntry>)
    requires e == [NewEntry(Dead, 0, 1, 1), NewEntry(Running, 1, 2, 2), NewEntry(Entering, 100, 3, 3)]
    ensures |NonDead(e)| == 2
  {
    var a := NewEntry(Dead, 0, 1, 1);
    var b := NewEntry(Running, 1, 2, 2);
    var o := NewEntry(Entering, 100, 3, 3);
    assert [a, b, o][..2] == [a, b] && [a, b][..1] == [a] && [a][..0] == [];
    assert NonDead([a]) == [];
    assert NonDead([a, b]) == [b];
  }

  lemma StaleRunFinished(st: Stage, rs: seq<TransitionRun>) returns (f: Stage)
    requires st == StaleRunFlushed() && rs == AdvanceRuns(st.runs, 0.5)
    ensures RunsInRange(st.entries, rs)
    ensures f == FinishFrom(st, rs, 0) && Unfinished(rs) == [rs[1]] && rs[1].toIndex == 2
    ensures f.entries == [NewEntry(Dead, 0, 1, 1), NewEntry(Running, 1, 2, 2), NewEntry(Entering, 100, 3, 3)]
  {
    assert Finished(rs[0]) && !Finished(rs[1]);
    assert Unfinished(rs) == [rs[1]] by {
      assert rs[..1] == [rs[0]] && [rs[0]][..0] == [];
    }
    assert FinishFrom(st, rs, 2) == st;
    assert FinishFrom(st, rs, 1) == st;
    f := FinishFrom(st, rs, 0);
    assert f == FinishRun(st, rs[0]);
  }
}
