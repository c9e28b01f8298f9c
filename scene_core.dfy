/**
 * The scene bookkeeping shared by the two scene managers,
 * engine/src/scene/scene_manager.h and engine/src/world/scene/scene_manager.h:
 * scene phases, scene entries, queued operations, transition runs, and the
 * lookups and rearrangements of the entry list (top running entry, entry by
 * id, live entry by key, stable sort by z, compaction).
 *
 * Scene objects are represented by their entry; the entry's `id` is the
 * stable handle the managers hand out.
 */
module SceneCore {

  import opened Wrappers

  datatype Phase = Entering | Running | Exiting | Paused | Dead

  /** A scene in the manager's list; a higher z draws on top. */
  datatype SceneEntry = SceneEntry(
    phase: Phase,
    z: int,
    blocksInput: bool,
    updates: bool,
    renders: bool,
    id: nat,
    key: nat)

  /** An entry as the managers create it: not modal, updating and rendering. */
  function NewEntry(phase: Phase, z: int, id: nat, key: nat): SceneEntry
  {
    SceneEntry(phase, z, false, true, true, id, key)
  }

  datatype OperationKind = Switch | Push | Pop | Replace | Overlay

  /** The slide-left transition: the one concrete transition both managers define. */
  datatype Transition = SlideLeft(duration: real, accumulated: real)

  /** A queued request; the scene factory is represented by the key of the scene it makes. */
  datatype Operation = Operation(
    kind: OperationKind,
    transition: Option<Transition>,
    killFromOnEnd: bool,
    key: nat)

  /** A transition in progress between the entries at two indices. */
  datatype TransitionRun = TransitionRun(
    fromIndex: nat,
    toIndex: nat,
    transition: Transition,
    progress: real,
    killFromOnEnd: bool)

  /** A call the engine manager makes on a scene, identified by its entry id. */
  datatype SceneCall = Enter(id: nat) | Exit(id: nat)

  // ---------------------------------------------------------------------
  // Transitions

  /** std::min(a, b): b when b < a, otherwise a. */
  function Min(a: real, b: real): (r: real)
    ensures r <= a && r <= b
    ensures r == a || r == b
  {
    if b < a then b else a
  }

  /** The progress SlideLeft::Step reports for its accumulated time. */
  function Progress(tr: Transition): (t: real)
    ensures t <= 1.0
    ensures tr.duration > 0.0 ==> (t == 1.0 <==> tr.accumulated >= tr.duration)
    ensures tr.duration > 0.0 && tr.accumulated >= 0.0 ==> 0.0 <= t
  {
    if tr.duration == 0.0 then 1.0
    else
      var q := tr.accumulated / tr.duration;
      assert tr.duration > 0.0 ==> (q >= 1.0 <==> tr.accumulated >= tr.duration) by {
        if tr.duration > 0.0 {
          assert q * tr.duration == tr.accumulated;
        }
      }
      Min(1.0, q)
  }

  /** One SlideLeft::Step: the run accumulates dt and records the new progress. */
  function AdvanceRun(run: TransitionRun, dt: real): (r: TransitionRun)
    ensures r.fromIndex == run.fromIndex && r.toIndex == run.toIndex
    ensures r.killFromOnEnd == run.killFromOnEnd
    ensures r.transition.duration == run.transition.duration
    ensures r.transition.accumulated == run.transition.accumulated + dt
    ensures r.progress <= 1.0
  {
    var tr := run.transition.(accumulated := run.transition.accumulated + dt);
    run.(transition := tr, progress := Progress(tr))
  }

  /** Step reports a run finished once its progress reaches 1. */
  predicate Finished(run: TransitionRun)
  {
    run.progress >= 1.0
  }

  /** A slide over a positive duration finishes exactly when its accumulated time reaches the duration. */
  lemma SlideFinishesAtDuration(run: TransitionRun, dt: real)
    requires run.transition.duration > 0.0
    ensures Finished(AdvanceRun(run, dt)) <==> run.transition.accumulated + dt >= run.transition.duration
    ensures Finished(AdvanceRun(run, dt)) ==> AdvanceRun(run, dt).progress == 1.0
  {
  }

  // ---------------------------------------------------------------------
  // Lookups

  /** TopRunningIndex: the highest index whose entry is Running, None for SIZE_MAX. */
  function TopRunning(e: seq<SceneEntry>): (r: Option<nat>)
    ensures r.Some? ==> r.value < |e| && e[r.value].phase.Running?
    ensures r.Some? ==> forall j :: r.value < j < |e| ==> !e[j].phase.Running?
    ensures r.None? <==> forall j :: 0 <= j < |e| ==> !e[j].phase.Running?
  {
    if |e| == 0 then None
    else if e[|e| - 1].phase.Running? then Some(|e| - 1)
    else TopRunning(e[..|e| - 1])
  }

  /** TopIndex: the last index, None for SIZE_MAX when there are no entries. */
  function TopIndex(e: seq<SceneEntry>): (r: Option<nat>)
    ensures r.None? <==> |e| == 0
    ensures r.Some? ==> r.value == |e| - 1
  {
    if |e| == 0 then None else Some(|e| - 1)
  }

  /** IndexById: the first index whose entry has the id, None for SIZE_MAX. */
  function IndexOfId(e: seq<SceneEntry>, id: nat): (r: Option<nat>)
    ensures r.Some? ==> r.value < |e| && e[r.value].id == id
    ensures r.Some? ==> forall j :: 0 <= j < r.value ==> e[j].id != id
    ensures r.None? <==> forall j :: 0 <= j < |e| ==> e[j].id != id
  {
    if |e| == 0 then None
    else if e[0].id == id then Some(0)
    else match IndexOfId(e[1..], id)
      case None => None
      case Some(k) => Some(k + 1)
  }

  /** An entry Has and Get accept for a key: that key and not Dead. */
  predicate Live(x: SceneEntry, key: nat)
  {
    x.key == key && !x.phase.Dead?
  }

  /** Has(key): some entry with the key is not Dead. */
  predicate Has(e: seq<SceneEntry>, key: nat)
  {
    exists i :: 0 <= i < |e| && Live(e[i], key)
  }

  /** Get(key): the first live entry with the key, None for nullptr. */
  function FindLive(e: seq<SceneEntry>, key: nat): (r: Option<nat>)
    ensures r.Some? ==> r.value < |e| && Live(e[r.value], key)
    ensures r.Some? ==> forall j :: 0 <= j < r.value ==> !Live(e[j], key)
    ensures r.Some? <==> Has(e, key)
  {
    if |e| == 0 then None
    else if Live(e[0], key) then Some(0)
    else
      match FindLive(e[1..], key)
      case None =>
        assert forall i :: 0 < i < |e| ==> e[i] == e[1..][i - 1];
        None
      case Some(k) => Some(k + 1)
  }

  /** The is_scene_locked test: some run starts or ends at the index. */
  predicate Locked(runs: seq<TransitionRun>, i: nat)
  {
    exists k :: 0 <= k < |runs| && (runs[k].fromIndex == i || runs[k].toIndex == i)
  }

  // ---------------------------------------------------------------------
  // Stable sort by z (ResortByZ)

  predicate SortedByZ(e: seq<SceneEntry>)
  {
    forall i, j :: 0 <= i < j < |e| ==> e[i].z <= e[j].z
  }

  /** Inserts x behind every entry of its z or lower, scanning from the back. */
  function InsertByZ(s: seq<SceneEntry>, x: SceneEntry): (r: seq<SceneEntry>)
    ensures |r| == |s| + 1
  {
    if |s| == 0 then [x]
    else if s[|s| - 1].z <= x.z then s + [x]
    else
      assert s == s[..|s| - 1] + [s[|s| - 1]];
      InsertByZ(s[..|s| - 1], x) + [s[|s| - 1]]
  }

  /** std::stable_sort by z, as an insertion sort from the front. */
  function SortByZ(s: seq<SceneEntry>): (r: seq<SceneEntry>)
    ensures |r| == |s|
  {
    if |s| == 0 then []
    else
      assert s == s[..|s| - 1] + [s[|s| - 1]];
      InsertByZ(SortByZ(s[..|s| - 1]), s[|s| - 1])
  }

  /** Inserting adds x and loses nothing. */
  lemma {:induction false} InsertByZPermutes(s: seq<SceneEntry>, x: SceneEntry)
    ensures multiset(InsertByZ(s, x)) == multiset(s) + multiset{x}
    decreases |s|
  {
    if |s| > 0 && s[|s| - 1].z > x.z {
      var front, last := s[..|s| - 1], s[|s| - 1];
      assert s == front + [last];
      assert InsertByZ(s, x) == InsertByZ(front, x) + [last];
      InsertByZPermutes(front, x);
    }
  }

  /** ResortByZ is a permutation of the entries. */
  lemma {:induction false} SortByZPermutes(s: seq<SceneEntry>)
    ensures multiset(SortByZ(s)) == multiset(s)
    decreases |s|
  {
    if |s| > 0 {
      var front, x := s[..|s| - 1], s[|s| - 1];
      assert s == front + [x];
      assert multiset(s) == multiset(front) + multiset{x};
      assert SortByZ(s) == InsertByZ(SortByZ(front), x);
      SortByZPermutes(front);
      InsertByZPermutes(SortByZ(front), x);
    }
  }

  /** The index at which InsertByZ places x. */
  function InsertPos(s: seq<SceneEntry>, x: SceneEntry): (p: nat)
    ensures p <= |s|
  {
    if |s| == 0 then 0
    else if s[|s| - 1].z <= x.z then |s|
    else InsertPos(s[..|s| - 1], x)
  }

  /** InsertByZ puts x at InsertPos and keeps everything else in order around it. */
  lemma {:induction false} InsertByZIsInsertAt(s: seq<SceneEntry>, x: SceneEntry)
    ensures InsertByZ(s, x) == s[..InsertPos(s, x)] + [x] + s[InsertPos(s, x)..]
    decreases |s|
  {
    if |s| == 0 {
    } else if s[|s| - 1].z <= x.z {
      assert s[..|s|] == s;
    } else {
      var s' := s[..|s| - 1];
      var p := InsertPos(s', x);
      InsertByZIsInsertAt(s', x);
      assert s'[..p] == s[..p];
      assert s'[p..] + [s[|s| - 1]] == s[p..];
    }
  }

  /** Everything in front of InsertPos has z at most x.z, everything behind it more. */
  lemma {:induction false} InsertPosSplits(s: seq<SceneEntry>, x: SceneEntry)
    requires SortedByZ(s)
    ensures forall i :: 0 <= i < InsertPos(s, x) ==> s[i].z <= x.z
    ensures forall i :: InsertPos(s, x) <= i < |s| ==> x.z < s[i].z
    decreases |s|
  {
    if |s| == 0 {
    } else if s[|s| - 1].z <= x.z {
    } else {
      InsertPosSplits(s[..|s| - 1], x);
    }
  }

  /** Inserting by z keeps a sorted list sorted. */
  lemma InsertByZSorted(s: seq<SceneEntry>, x: SceneEntry)
    requires SortedByZ(s)
    ensures SortedByZ(InsertByZ(s, x))
  {
    InsertByZIsInsertAt(s, x);
    InsertPosSplits(s, x);
    var p := InsertPos(s, x);
    var r := InsertByZ(s, x);
    forall i, j | 0 <= i < j < |r|
      ensures r[i].z <= r[j].z
    {
      if i < p && j < p {
        assert r[i] == s[i] && r[j] == s[j];
      } else if i < p && j == p {
        assert r[i] == s[i];
      } else if i < p {
        assert r[i] == s[i] && r[j] == s[j - 1];
      } else if i == p {
        assert r[j] == s[j - 1];
      } else {
        assert r[i] == s[i - 1] && r[j] == s[j - 1];
      }
    }
  }

  /** ResortByZ yields a list ordered by z. */
  lemma {:induction false} SortByZSorted(s: seq<SceneEntry>)
    ensures SortedByZ(SortByZ(s))
    decreases |s|
  {
    if |s| > 0 {
      SortByZSorted(s[..|s| - 1]);
      InsertByZSorted(SortByZ(s[..|s| - 1]), s[|s| - 1]);
    }
  }

  /** The entries of one z, in list order. */
  function WithZ(s: seq<SceneEntry>, z: int): (r: seq<SceneEntry>)
    ensures forall i :: 0 <= i < |r| ==> r[i].z == z
    ensures |r| <= |s|
  {
    if |s| == 0 then []
    else WithZ(s[..|s| - 1], z) + (if s[|s| - 1].z == z then [s[|s| - 1]] else [])
  }

  lemma {:induction false} WithZAppend(a: seq<SceneEntry>, b: seq<SceneEntry>, z: int)
    ensures WithZ(a + b, z) == WithZ(a, z) + WithZ(b, z)
    decreases |b|
  {
    if |b| == 0 {
      assert a + b == a;
    } else {
      assert (a + b)[..|a + b| - 1] == a + b[..|b| - 1];
      WithZAppend(a, b[..|b| - 1], z);
    }
  }

  /** Inserting x keeps the relative order of the entries of each z, with x behind its equals. */
  lemma InsertByZStable(s: seq<SceneEntry>, x: SceneEntry, z: int)
    requires SortedByZ(s)
    ensures WithZ(InsertByZ(s, x), z) == WithZ(s, z) + (if x.z == z then [x] else [])
  {
    var p := InsertPos(s, x);
    var front, back := s[..p], s[p..];
    if x.z == z {
      InsertPosSplits(s, x);
      assert forall i :: 0 <= i < |back| ==> back[i].z != z by {
        forall i | 0 <= i < |back|
          ensures back[i].z != z
        {
          assert back[i] == s[p + i];
        }
      }
      WithZNone(back, z);
    }
    InsertAtStable(s, x, z);
  }

  /** InsertAt form of the stability step, for a back part with no entry of the z when x has it. */
  lemma InsertAtStable(s: seq<SceneEntry>, x: SceneEntry, z: int)
    requires x.z == z ==> WithZ(s[InsertPos(s, x)..], z) == []
    ensures WithZ(InsertByZ(s, x), z) == WithZ(s, z) + (if x.z == z then [x] else [])
  {
    InsertByZIsInsertAt(s, x);
    var p := InsertPos(s, x);
    var front, back := s[..p], s[p..];
    WithZSplit(front, x, back, z);
    assert s == front + back;
    WithZAppend(front, back, z);
    if x.z == z {
      assert WithZ(back, z) == [];
      assert WithZ(InsertByZ(s, x), z) == WithZ(front, z) + [x] + [];
    }
  }

  /** The entries of one z around an inserted entry. */
  lemma WithZSplit(front: seq<SceneEntry>, x: SceneEntry, back: seq<SceneEntry>, z: int)
    ensures WithZ(front + [x] + back, z) == WithZ(front, z) + (if x.z == z then [x] else []) + WithZ(back, z)
  {
    WithZAppend(front + [x], back, z);
    WithZAppend(front, [x], z);
    assert [x][..0] == [];
  }

  /** No entry behind the insertion point has x's z, so those entries contribute nothing of that z. */
  lemma {:induction false} WithZNone(s: seq<SceneEntry>, z: int)
    requires forall i :: 0 <= i < |s| ==> s[i].z != z
    ensures WithZ(s, z) == []
    decreases |s|
  {
    if |s| > 0 {
      WithZNone(s[..|s| - 1], z);
    }
  }

  /** ResortByZ is stable: the entries of each z keep their relative order. */
  lemma {:induction false} SortByZStable(s: seq<SceneEntry>, z: int)
    ensures WithZ(SortByZ(s), z) == WithZ(s, z)
    decreases |s|
  {
    if |s| > 0 {
      var s' := s[..|s| - 1];
      SortByZStable(s', z);
      SortByZSorted(s');
      InsertByZStable(SortByZ(s'), s[|s| - 1], z);
    }
  }

  /** Sorting a list already ordered by z changes nothing. */
  lemma {:induction false} SortByZOfSorted(s: seq<SceneEntry>)
    requires SortedByZ(s)
    ensures SortByZ(s) == s
    decreases |s|
  {
    if |s| > 0 {
      var s' := s[..|s| - 1];
      SortByZOfSorted(s');
      assert s' + [s[|s| - 1]] == s;
    }
  }

  /** Appending to a sorted list and resorting inserts at InsertPos. */
  lemma SortAppendIsInsert(s: seq<SceneEntry>, x: SceneEntry)
    requires SortedByZ(s)
    ensures SortByZ(s + [x]) == s[..InsertPos(s, x)] + [x] + s[InsertPos(s, x)..]
  {
    assert (s + [x])[..|s|] == s;
    SortByZOfSorted(s);
    InsertByZIsInsertAt(s, x);
  }

  // ---------------------------------------------------------------------
  // Compaction

  /** Compact: the entries that are not Dead, in list order. */
  function NonDead(e: seq<SceneEntry>): (r: seq<SceneEntry>)
    ensures |r| <= |e|
    ensures forall i :: 0 <= i < |r| ==> !r[i].phase.Dead?
  {
    if |e| == 0 then []
    else NonDead(e[..|e| - 1]) + (if e[|e| - 1].phase.Dead? then [] else [e[|e| - 1]])
  }

  /** Compaction distributes over concatenation, so it keeps the entries in order. */
  lemma {:induction false} NonDeadAppend(a: seq<SceneEntry>, b: seq<SceneEntry>)
    ensures NonDead(a + b) == NonDead(a) + NonDead(b)
    decreases |b|
  {
    if |b| == 0 {
      assert a + b == a;
    } else {
      assert (a + b)[..|a + b| - 1] == a + b[..|b| - 1];
      NonDeadAppend(a, b[..|b| - 1]);
    }
  }

  /** An entry survives compaction exactly when it is in the list and not Dead. */
  lemma {:induction false} NonDeadMembers(e: seq<SceneEntry>, x: SceneEntry)
    ensures x in NonDead(e) <==> x in e && !x.phase.Dead?
    decreases |e|
  {
    if |e| > 0 {
      NonDeadMembers(e[..|e| - 1], x);
      assert e == e[..|e| - 1] + [e[|e| - 1]];
    }
  }

  /** Compacting twice is compacting once. */
  lemma {:induction false} NonDeadIdempotent(e: seq<SceneEntry>)
    ensures NonDead(NonDead(e)) == NonDead(e)
    decreases |e|
  {
    if |e| > 0 {
      var e' := e[..|e| - 1];
      NonDeadIdempotent(e');
      var tail := if e[|e| - 1].phase.Dead? then [] else [e[|e| - 1]];
      NonDeadAppend(NonDead(e'), tail);
      assert NonDead(tail) == tail by {
        if tail != [] {
          assert tail[..0] == [];
        }
      }
    }
  }

  /** A list without Dead entries is left as it is. */
  lemma {:induction false} NonDeadOfLive(e: seq<SceneEntry>)
    requires forall i :: 0 <= i < |e| ==> !e[i].phase.Dead?
    ensures NonDead(e) == e
    decreases |e|
  {
    if |e| > 0 {
      NonDeadOfLive(e[..|e| - 1]);
    }
  }

  /** The index an entry moves to when the entries in front of it are compacted. */
  function Rank(e: seq<SceneEntry>, i: nat): nat
    requires i <= |e|
  {
    |NonDead(e[..i])|
  }

  /** A surviving entry is found at its rank in the compacted list. */
  lemma RankFindsEntry(e: seq<SceneEntry>, i: nat)
    requires i < |e| && !e[i].phase.Dead?
    ensures Rank(e, i) < |NonDead(e)|
    ensures NonDead(e)[Rank(e, i)] == e[i]
  {
    assert e == e[..i] + ([e[i]] + e[i + 1..]);
    NonDeadAppend(e[..i], [e[i]] + e[i + 1..]);
    NonDeadAppend([e[i]], e[i + 1..]);
    assert NonDead([e[i]]) == [e[i]] by {
      assert [e[i]][..0] == [];
    }
  }

  /** Compaction preserves the order by z. */
  lemma {:induction false} NonDeadSorted(e: seq<SceneEntry>)
    requires SortedByZ(e)
    ensures SortedByZ(NonDead(e))
    decreases |e|
  {
    if |e| > 0 {
      var e' := e[..|e| - 1];
      NonDeadSorted(e');
      var r := NonDead(e);
      if !e[|e| - 1].phase.Dead? {
        forall i | 0 <= i < |NonDead(e')|
          ensures NonDead(e')[i].z <= e[|e| - 1].z
        {
          NonDeadMembers(e', NonDead(e')[i]);
        }
      }
    }
  }

  /** Compaction keeps a subset of the entries. */
  lemma NonDeadSubset(e: seq<SceneEntry>)
    ensures forall x :: x in NonDead(e) ==> x in e
  {
    forall x | x in NonDead(e)
      ensures x in e
    {
      NonDeadMembers(e, x);
    }
  }

  /** Compaction of a list with distinct ids keeps them distinct. */
  lemma {:induction false} NonDeadDistinct(e: seq<SceneEntry>)
    requires IdsDistinct(e)
    ensures IdsDistinct(NonDead(e))
    decreases |e|
  {
    if |e| > 0 {
      var e' := e[..|e| - 1];
      NonDeadDistinct(e');
      if !e[|e| - 1].phase.Dead? {
        forall i | 0 <= i < |NonDead(e')|
          ensures NonDead(e')[i].id != e[|e| - 1].id
        {
          NonDeadMembers(e', NonDead(e')[i]);
        }
      }
    }
  }

  predicate IdsDistinct(e: seq<SceneEntry>)
  {
    forall i, j :: 0 <= i < j < |e| ==> e[i].id != e[j].id
  }

  predicate IdsBelow(e: seq<SceneEntry>, n: nat)
  {
    forall i :: 0 <= i < |e| ==> e[i].id < n
  }

  predicate RunsInRange(e: seq<SceneEntry>, runs: seq<TransitionRun>)
  {
    forall k :: 0 <= k < |runs| ==> runs[k].fromIndex < |e| && runs[k].toIndex < |e|
  }
}
