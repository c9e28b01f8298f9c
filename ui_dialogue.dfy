/**
 * The dialogue of engine/src/ui/dialogue.cpp. A Dialogue is a list of
 * lines, each a list of pages; it picks its next line either in order or
 * at random, remembering which lines it has used in the current cycle. A
 * DialogueComponent holds the dialogues by name, the dialogue, line and
 * page being shown, and whether the text is open, scrolling and waiting
 * for the continue key.
 *
 * Randomness is a parameter: `draws` is the sequence of numbers the
 * random generator yields. Fonts, text layout and rendering are left out;
 * of SplitTextWithDuration only its split at manual newlines is modelled.
 */
module Dialogues {
  import Wrappers

  datatype DialoguePage = DialoguePage(content: string, scrollDurationMs: int)

  datatype DialogueLine = DialogueLine(pages: seq<DialoguePage>)

  datatype DialogueBehavior = Sequential | Random

  // ------------------------------------------------------------ line picking

  /** The used-line bookkeeping of a dialogue with n lines: used holds
   *  distinct lines, at most n of them. In order, they are the lines just
   *  before index (mod n); at random, the last one is index. */
  predicate PickingValid(n: nat, used: seq<nat>, index: nat, behavior: DialogueBehavior)
  {
    |used| <= n &&
    (forall k :: 0 <= k < |used| ==> used[k] < n) &&
    (forall a, b :: 0 <= a < b < |used| ==> used[a] != used[b]) &&
    (behavior == Sequential ==>
       |used| <= index && forall k :: 0 <= k < |used| ==> used[k] == (index - |used| + k) % n) &&
    (behavior == Random ==> (n == 0 || index < n) && (|used| > 0 ==> used[|used| - 1] == index))
  }

  lemma MulBounds(q: int, n: int)
    requires n > 0
    ensures q <= 0 ==> q * n <= 0
    ensures q >= 1 ==> q * n >= n
  {
  }

  lemma ModDistinct(a: int, b: int, n: int)
    requires n > 0 && 0 < a - b < n
    ensures a % n != b % n
  {
    var qa, qb := a / n, b / n;
    assert a == qa * n + a % n;
    assert b == qb * n + b % n;
    if a % n == b % n {
      assert a - b == qa * n - qb * n;
      assert qa * n - qb * n == (qa - qb) * n;
      MulBounds(qa - qb, n);
    }
  }

  /** In order, the next line index % n is not among the used lines while
   *  some line is unused. */
  lemma SequentialNextUnused(n: nat, used: seq<nat>, index: nat)
    requires PickingValid(n, used, index, Sequential) && |used| < n
    ensures index % n !in used
  {
    forall k | 0 <= k < |used|
      ensures used[k] != index % n
    {
      ModDistinct(index, index - |used| + k, n);
    }
  }

  /** The set of values in s. */
  function Elements(s: seq<nat>): set<nat>
  {
    set x | x in s
  }

  lemma SetOfSeqSize(s: seq<nat>)
    ensures |Elements(s)| <= |s|
  {
    if |s| > 0 {
      var tail := s[..|s| - 1];
      SetOfSeqSize(tail);
      var seen := Elements(tail);
      assert Elements(s) == seen + {s[|s| - 1]};
      if s[|s| - 1] in seen {
        assert seen + {s[|s| - 1]} == seen;
      } else {
        assert |seen + {s[|s| - 1]}| == |seen| + 1;
      }
    }
  }

  lemma {:induction false} DistinctSetSize(s: seq<nat>)
    requires forall a, b :: 0 <= a < b < |s| ==> s[a] != s[b]
    ensures |Elements(s)| == |s|
  {
    if |s| > 0 {
      var tail := s[..|s| - 1];
      DistinctSetSize(tail);
      var seen := Elements(tail);
      assert Elements(s) == seen + {s[|s| - 1]};
      assert s[|s| - 1] !in seen;
      assert |seen + {s[|s| - 1]}| == |seen| + 1;
    }
  }

  /** The indices 0 .. n-1 in order. */
  function Indices(n: nat): (r: seq<nat>)
    ensures |r| == n && forall k :: 0 <= k < n ==> r[k] == k
  {
    if n == 0 then [] else Indices(n - 1) + [n - 1]
  }

  /** The set of indices below n has n elements. */
  lemma IndexSetSize(n: nat)
    ensures |Elements(Indices(n))| == n
    ensures forall i: nat :: i in Indices(n) <==> i < n
  {
    var r := Indices(n);
    forall i: nat
      ensures i in r <==> i < n
    {
      if i < n {
        assert r[i] == i;
      }
    }
    DistinctSetSize(r);
  }

  /** Removing an element of a finite set makes it one smaller. */
  lemma SubsetSize(a: set<nat>, b: set<nat>)
    requires a <= b
    ensures |a| <= |b|
    decreases |b|
  {
    if a != {} {
      var x :| x in a;
      SubsetSize(a - {x}, b - {x});
    }
  }

  /** While fewer lines are used than there are, some line is unused. */
  lemma SomeLineUnused(used: seq<nat>, n: nat) returns (i: nat)
    requires |used| < n
    ensures i < n && i !in used
  {
    var range := Elements(Indices(n));
    var seen := Elements(used);
    IndexSetSize(n);
    SetOfSeqSize(used);
    if range <= seen {
      SubsetSize(range, seen);
      assert false;
    }
    var j :| j in range && j !in seen;
    i := j;
  }

  /** Once every line is used, the used lines are each line exactly once:
   *  a cycle shows every line. */
  lemma FullCycleUsesEveryLine(n: nat, used: seq<nat>, index: nat, behavior: DialogueBehavior)
    requires PickingValid(n, used, index, behavior) && |used| == n
    ensures forall i :: 0 <= i < n ==> i in used
  {
    var range := Elements(Indices(n));
    var seen := Elements(used);
    DistinctSetSize(used);
    IndexSetSize(n);
    assert seen <= range;
    forall i | 0 <= i < n
      ensures i in used
    {
      if i !in used {
        SubsetSize(seen, range - {i});
        assert false;
      }
    }
  }

  /** Picking index mod n in order keeps the bookkeeping. */
  lemma SequentialPickValid(n: nat, used: seq<nat>, index: nat)
    requires PickingValid(n, used, index, Sequential) && |used| < n
    ensures PickingValid(n, used + [index % n], index + 1, Sequential)
  {
    SequentialNextUnused(n, used, index);
    var next := used + [index % n];
    forall k | 0 <= k < |next|
      ensures next[k] == (index + 1 - |next| + k) % n
    {
    }
  }

  /** Picking an unused line at random keeps the bookkeeping. */
  lemma RandomPickValid(n: nat, used: seq<nat>, index: nat, c: nat)
    requires PickingValid(n, used, index, Random) && c < n && c !in used
    ensures PickingValid(n, used + [c], c, Random)
  {
    if |used| == n {
      FullCycleUsesEveryLine(n, used, index, Random);
    }
    var next := used + [c];
    forall a, b | 0 <= a < b < |next|
      ensures next[a] != next[b]
    {
      if b == |used| {
        assert next[a] == used[a];
      }
    }
  }

  /** The index LoadFromJson stores: clamped into the lines, 0 without any. */
  function ClampIndex(index: int, lineCount: nat): (r: nat)
    requires index >= 0
    ensures lineCount == 0 ==> r == 0
    ensures lineCount > 0 ==> r < lineCount
    ensures index < lineCount ==> r == index
    ensures lineCount > 0 && index >= lineCount ==> r == lineCount - 1
  {
    if lineCount == 0 then 0 else if index > lineCount - 1 then lineCount - 1 else index
  }

  class Dialogue {
    var lines: seq<DialogueLine>
    var used: seq<nat>
    var index: nat
    var repeatable: bool
    var behavior: DialogueBehavior
    var nextDialogue: string

    ghost predicate Valid()
      reads this
    {
      PickingValid(|lines|, used, index, behavior)
    }

    /** A dialogue as LoadFromJson builds it, its index clamped. */
    constructor (lines: seq<DialogueLine>, behavior: DialogueBehavior, repeatable: bool, nextDialogue: string, index: int)
      requires index >= 0
      ensures Valid() && this.lines == lines && used == [] && this.index == ClampIndex(index, |lines|)
      ensures this.behavior == behavior && this.repeatable == repeatable && this.nextDialogue == nextDialogue
    {
      this.lines := lines;
      this.behavior := behavior;
      this.repeatable := repeatable;
      this.nextDialogue := nextDialogue;
      this.index := ClampIndex(index, |lines|);
      used := [];
    }

    /** No new line can be given: there are none, or a dialogue that does
     *  not repeat has used them all. */
    predicate Exhausted()
      reads this
    {
      |lines| == 0 || (|used| == |lines| && !repeatable)
    }

    /** The line picked last exists and has a page. */
    predicate LastPickHasPages()
      reads this
    {
      |used| > 0 && used[|used| - 1] < |lines| && |lines[used[|used| - 1]].pages| > 0
    }

    /** PickRandomIndex: draw until an unused line comes up (the only line,
     *  when there is one). */
    method PickRandomIndex(draws: seq<nat>) returns (r: nat)
      requires |lines| > |used|
      requires forall k :: 0 <= k < |draws| ==> draws[k] < |lines|
      requires |lines| > 1 ==> exists k :: 0 <= k < |draws| && draws[k] !in used
      ensures r < |lines| && r !in used
      ensures |lines| == 1 ==> r == 0
      ensures |lines| > 1 ==> exists k :: 0 <= k < |draws| && r == draws[k] && forall j :: 0 <= j < k ==> draws[j] in used
    {
      if |lines| == 1 {
        return 0;
      }
      var k := 0;
      while draws[k] in used
        invariant 0 <= k < |draws|
        invariant forall j :: 0 <= j < k ==> draws[j] in used
        invariant exists m :: k <= m < |draws| && draws[m] !in used
        decreases |draws| - k
      {
        k := k + 1;
      }
      r := draws[k];
    }

    /** GetNewDialogueLine: the index of the next line to show, or -1 when
     *  there are no lines, when a non-repeatable dialogue has used them
     *  all, or when the line has no pages. A repeatable dialogue that has
     *  used every line starts a new cycle, in random mode keeping the
     *  current line out of the first pick. */
    method GetNewDialogueLine(draws: seq<nat>) returns (r: int)
      requires Valid()
      requires forall k :: 0 <= k < |draws| ==> draws[k] < |lines|
      requires forall i :: 0 <= i < |lines| ==> i in draws
      modifies this`used, this`index
      ensures Valid()
      ensures old(|lines|) == 0 || (|old(used)| == |lines| && !repeatable) ==>
                r == -1 && used == old(used) && index == old(index)
      ensures |lines| > 0 && (|old(used)| < |lines| || repeatable) ==>
                var base := if |old(used)| < |lines| then old(used)
                            else if |lines| > 1 && behavior == Random then [old(index)] else [];
                |used| > 0 &&
                var c := used[|used| - 1];
                used == base + [c] && c < |lines| && c !in base &&
                r == (if |lines[c].pages| == 0 then -1 else c) &&
                (behavior == Sequential ==> c == old(index) % |lines| && index == old(index) + 1) &&
                (behavior == Random ==> index == c)
      ensures r == -1 <==> old(Exhausted()) || !LastPickHasPages()
      ensures r != -1 ==> r == used[|used| - 1]
    {
      var n := |lines|;
      if n == 0 {
        return -1;
      }
      if n == |used| {
        if !repeatable {
          return -1;
        }
        used := [];
        if n > 1 && behavior == Random {
          used := [index];
        }
      }
      ghost var base := used;
      var chosen := PickLine(draws);
      assert used == base + [chosen];
      r := if |lines[chosen].pages| == 0 then -1 else chosen;
    }

    /** The pick itself, once some line is unused: in order the line at
     *  index mod the line count, at random the first unused draw. */
    method PickLine(draws: seq<nat>) returns (chosen: nat)
      requires Valid() && |used| < |lines|
      requires forall k :: 0 <= k < |draws| ==> draws[k] < |lines|
      requires forall i :: 0 <= i < |lines| ==> i in draws
      modifies this`used, this`index
      ensures Valid()
      ensures used == old(used) + [chosen] && chosen < |lines| && chosen !in old(used)
      ensures behavior == Sequential ==> chosen == old(index) % |lines| && index == old(index) + 1
      ensures behavior == Random ==> index == chosen
    {
      var n := |lines|;
      if behavior == Sequential {
        SequentialNextUnused(n, used, index);
        SequentialPickValid(n, used, index);
        chosen := index % n;
        index := index + 1;
      } else {
        var unused := SomeLineUnused(used, n);
        assert unused in draws;
        chosen := PickRandomIndex(draws);
        RandomPickValid(n, used, index, chosen);
        index := chosen;
      }
      used := used + [chosen];
    }

    /** Dialogue::GetCurrentDialogueLine as written: the line at index mod
     *  the line count, asserted to be among the used lines. */
    function CurrentLineIndexAsWritten(): (r: nat)
      reads this
      requires |lines| > 0 && |used| > 0
      ensures r < |lines|
    {
      index % |lines|
    }

    /** The line picked last, which the current line is meant to be: in
     *  order the one before index, at random index itself. */
    function CurrentLineIndex(): (r: nat)
      reads this
      requires Valid() && |used| > 0
      ensures r < |lines| && r in used && r == used[|used| - 1]
    {
      if behavior == Sequential then
        assert used[|used| - 1] == (index - |used| + (|used| - 1)) % |lines|;
        (index - 1) % |lines|
      else index
    }

    function GetCurrentDialogueLine(): (r: DialogueLine)
      reads this
      requires Valid() && |used| > 0
      ensures r == lines[used[|used| - 1]]
    {
      lines[CurrentLineIndex()]
    }
  }

  /** As written, in order and before a cycle is complete, the line the
   *  lookup selects is never a used one, so its assertion fails on every
   *  such state: after the first pick from two lines, index is 1 and only
   *  line 0 is used. */
  lemma SequentialCurrentLineAsWritten(n: nat, used: seq<nat>, index: nat)
    requires PickingValid(n, used, index, Sequential) && 0 < |used| < n
    ensures index % n !in used
    ensures PickingValid(2, [0], 1, Sequential) && 1 % 2 !in [0]
  {
    SequentialNextUnused(n, used, index);
  }

  // ------------------------------------------------------------------ text

  /** The lines separated by "\n". */
  function Join(lines: seq<string>): string
  {
    if |lines| == 0 then "" else if |lines| == 1 then lines[0] else lines[0] + "\n" + Join(lines[1..])
  }

  function DropLeadingEmpty(lines: seq<string>): (r: seq<string>)
    ensures |r| <= |lines| && (|r| > 0 ==> r[0] != "")
    ensures |lines| > 0 && lines[0] != "" ==> r == lines
  {
    if |lines| == 0 || lines[0] != "" then lines else DropLeadingEmpty(lines[1..])
  }

  lemma {:induction false} JoinTail(lines: seq<string>, line: string)
    requires |lines| > 0
    ensures Join(lines + [line]) == Join(lines) + "\n" + line
    decreases |lines|
  {
    var all := lines + [line];
    if |lines| == 1 {
      assert all[1..] == [line];
      assert Join(all) == lines[0] + "\n" + Join([line]);
    } else {
      assert all[1..] == lines[1..] + [line];
      JoinTail(lines[1..], line);
      assert Join(all) == lines[0] + "\n" + Join(lines[1..] + [line]);
      assert Join(lines) == lines[0] + "\n" + Join(lines[1..]);
    }
  }

  /** JoinLines: the lines joined with "\n", with no newline at the end;
   *  a separator is only written once the text is non-empty, so leading
   *  empty lines leave no trace. */
  method JoinLines(lines: seq<string>) returns (result: string)
    ensures result == Join(DropLeadingEmpty(lines))
    ensures |lines| > 0 && lines[0] != "" ==> result == Join(lines)
  {
    result := "";
    var i := 0;
    while i < |lines|
      invariant 0 <= i <= |lines|
      invariant result == Join(DropLeadingEmpty(lines[..i]))
      invariant result == "" <==> DropLeadingEmpty(lines[..i]) == []
    {
      ghost var before := DropLeadingEmpty(lines[..i]);
      LeadingStep(lines[..i], lines[i]);
      assert lines[..i + 1] == lines[..i] + [lines[i]];
      if result != "" {
        result := result + "\n";
        JoinTail(before, lines[i]);
      }
      result := result + lines[i];
      i := i + 1;
    }
    assert lines[..|lines|] == lines;
  }

  lemma LeadingStep(done: seq<string>, line: string)
    ensures DropLeadingEmpty(done) == [] ==> DropLeadingEmpty(done + [line]) == (if line == "" then [] else [line])
    ensures DropLeadingEmpty(done) != [] ==> DropLeadingEmpty(done + [line]) == DropLeadingEmpty(done) + [line]
  {
    if |done| > 0 {
      assert (done + [line])[1..] == done[1..] + [line];
      if done[0] == "" {
        LeadingStep(done[1..], line);
      }
    } else {
      assert done + [line] == [line];
    }
  }

  /** The index of the first "\n" at or after start, if any. */
  function FindNewline(s: string, start: nat): (r: Wrappers.Option<nat>)
    requires start <= |s|
    ensures r.Some? ==> start <= r.value < |s| && s[r.value] == '\n' && '\n' !in s[start..r.value]
    ensures r.None? ==> '\n' !in s[start..]
    decreases |s| - start
  {
    if start == |s| then Wrappers.None
    else if s[start] == '\n' then Wrappers.Some(start)
    else
      var r := FindNewline(s, start + 1);
      assert s[start..] == [s[start]] + s[start + 1..];
      if r.Some? then assert s[start..r.value] == [s[start]] + s[start + 1..r.value]; r else r
  }

  /** The segments of s between manual newlines. */
  function Split(s: string): (r: seq<string>)
    ensures |r| > 0
    decreases |s|
  {
    match FindNewline(s, 0)
    case None => assert s[0..] == s; [s]
    case Some(i) => assert s[0..i] == s[..i]; [s[..i]] + Split(s[i + 1..])
  }

  /** No segment of a split holds a newline. */
  lemma {:induction false} SplitHasNoNewline(s: string)
    ensures forall k :: 0 <= k < |Split(s)| ==> '\n' !in Split(s)[k]
    decreases |s|
  {
    match FindNewline(s, 0)
    case None => assert s[0..] == s;
    case Some(i) =>
      assert s[0..i] == s[..i];
      SplitHasNoNewline(s[i + 1..]);
  }

  /** Splitting at the newlines and joining again gives the text back. */
  lemma JoinSplit(s: string)
    ensures Join(Split(s)) == s
    decreases |s|
  {
    match FindNewline(s, 0)
    case None =>
    case Some(i) =>
      assert s[0..i] == s[..i];
      JoinSplit(s[i + 1..]);
      assert s == s[..i] + "\n" + s[i + 1..];
  }

  /** Joining lines without newlines and splitting again gives the lines
   *  back. */
  lemma {:induction false} SplitJoin(lines: seq<string>)
    requires |lines| > 0 && forall k :: 0 <= k < |lines| ==> '\n' !in lines[k]
    ensures Split(Join(lines)) == lines
    decreases |lines|
  {
    var s := Join(lines);
    if |lines| == 1 {
      NoNewline(s, 0);
    } else {
      var first := lines[0];
      assert s == first + "\n" + Join(lines[1..]);
      FirstNewlineAfter(first, Join(lines[1..]));
      assert s[..|first|] == first;
      assert s[|first| + 1..] == Join(lines[1..]);
      SplitJoin(lines[1..]);
    }
  }

  lemma NoNewline(s: string, start: nat)
    requires start <= |s| && '\n' !in s[start..]
    ensures FindNewline(s, start).None?
    decreases |s| - start
  {
    if start < |s| {
      assert s[start] == s[start..][0];
      assert s[start + 1..] == s[start..][1..];
      NoNewline(s, start + 1);
    }
  }

  lemma {:induction false} NewlineAt(s: string, start: nat, i: nat)
    requires start <= i < |s| && s[i] == '\n'
    requires forall j :: start <= j < i ==> s[j] != '\n'
    ensures FindNewline(s, start) == Wrappers.Some(i)
    decreases i - start
  {
    if start < i {
      NewlineAt(s, start + 1, i);
    }
  }

  lemma FirstNewlineAfter(first: string, rest: string)
    requires '\n' !in first
    ensures FindNewline(first + "\n" + rest, 0) == Wrappers.Some(|first|)
  {
    var s := first + "\n" + rest;
    forall j | 0 <= j < |first|
      ensures s[j] != '\n'
    {
      assert s[j] == first[j];
    }
    NewlineAt(s, 0, |first|);
  }

  /** The newline split at the start of SplitTextWithDuration: one segment
   *  per manual newline plus the rest. */
  method SplitNewlines(s: string) returns (segments: seq<string>)
    ensures segments == Split(s)
  {
    segments := [];
    var start := 0;
    while FindNewline(s, start).Some?
      invariant start <= |s| && segments + SplitAt(s, start) == SplitAt(s, 0)
      decreases |s| - start
    {
      segments, start := NextSegment(s, start, segments);
    }
    SplitAtIsSplit(s, 0);
    assert s[0..] == s;
    segments := segments + [s[start..]];
  }

  /** One segment of the loop: the text up to the next newline, after
   *  which the search goes on. */
  method NextSegment(s: string, start: nat, segments: seq<string>) returns (segments': seq<string>, start': nat)
    requires start <= |s| && FindNewline(s, start).Some?
    requires segments + SplitAt(s, start) == SplitAt(s, 0)
    ensures start < start' <= |s| && segments' + SplitAt(s, start') == SplitAt(s, 0)
  {
    var i := FindNewline(s, start).value;
    segments', start' := segments + [s[start..i]], i + 1;
    assert segments + ([s[start..i]] + SplitAt(s, i + 1)) == segments' + SplitAt(s, i + 1);
  }

  /** The segments of s from `start` on, found as the loop finds them. */
  function SplitAt(s: string, start: nat): (r: seq<string>)
    requires start <= |s|
    ensures |r| > 0
    decreases |s| - start
  {
    match FindNewline(s, start)
    case None => [s[start..]]
    case Some(i) => [s[start..i]] + SplitAt(s, i + 1)
  }

  /** The loop's segments are the newline split of the rest of the text. */
  lemma {:induction false} SplitAtIsSplit(s: string, start: nat)
    requires start <= |s|
    ensures SplitAt(s, start) == Split(s[start..])
    decreases |s| - start
  {
    match FindNewline(s, start)
    case None => SplitFrom(s, start);
    case Some(i) =>
      SplitAtIsSplit(s, i + 1);
      assert SplitAt(s, start) == [s[start..i]] + Split(s[i + 1..]);
      SplitFrom(s, start);
  }

  lemma SplitFrom(s: string, start: nat)
    requires start <= |s|
    ensures FindNewline(s, start).None? ==> Split(s[start..]) == [s[start..]]
    ensures FindNewline(s, start).Some? ==>
              var i := FindNewline(s, start).value;
              Split(s[start..]) == [s[start..i]] + Split(s[i + 1..])
  {
    var t := s[start..];
    match FindNewline(s, start)
    case None => NoNewline(t, 0);
    case Some(i) =>
      assert t[i - start] == '\n' && t[..i - start] == s[start..i];
      FirstNewlineAfter(s[start..i], s[i + 1..]);
      assert t == s[start..i] + "\n" + s[i + 1..];
      assert t[i - start + 1..] == s[i + 1..];
  }

  // ------------------------------------------------------------- component

  /** The draws a random pick of d may use: each names one of its lines,
   *  and every line comes up, so the pick ends. */
  ghost predicate DrawsFit(d: Dialogue, draws: seq<nat>)
    reads d
  {
    (forall j :: 0 <= j < |draws| ==> draws[j] < |d.lines|) &&
    (forall i :: 0 <= i < |d.lines| ==> i in draws)
  }

  /** Every dialogue has draws that fit: its line indices in order. */
  lemma IndicesFit(d: Dialogue)
    ensures DrawsFit(d, Indices(|d.lines|))
  {
    IndexSetSize(|d.lines|);
  }

  class DialogueComponent {
    var dialogues: map<string, Dialogue>
    var currentDialogue: string
    var currentLine: int
    var currentPage: int
    var open: bool
    /** Whether the scroll tween is running (Tween::IsRunning). */
    var scrolling: bool
    var scrollDurationMs: int
    var waiting: bool

    ghost function Objects(): set<Dialogue>
      reads this
    {
      set k | k in dialogues :: dialogues[k]
    }

    /** Every dialogue keeps its line bookkeeping, and names a next
     *  dialogue that exists (LoadFromJson asserts it). */
    ghost predicate Valid()
      reads this, Objects()
    {
      forall k :: k in dialogues ==>
        dialogues[k].Valid() && (dialogues[k].nextDialogue == "" || dialogues[k].nextDialogue in dialogues)
    }

    /** The state Close leaves, with the given dialogues loaded. */
    constructor (dialogues: map<string, Dialogue>, start: string)
      requires forall k :: k in dialogues ==>
                 dialogues[k].Valid() && (dialogues[k].nextDialogue == "" || dialogues[k].nextDialogue in dialogues)
      ensures Valid()
      ensures this.dialogues == dialogues && currentDialogue == start
      ensures !open && !scrolling && !waiting && currentLine == 0 && currentPage == 0
    {
      this.dialogues := dialogues;
      currentDialogue := start;
      currentLine := 0;
      currentPage := 0;
      open := false;
      scrolling := false;
      scrollDurationMs := 0;
      waiting := false;
    }

    function GetCurrentDialogue(): (r: Wrappers.Option<Dialogue>)
      reads this
      ensures r.Some? <==> currentDialogue != "" && currentDialogue in dialogues
      ensures r.Some? ==> r.value == dialogues[currentDialogue]
    {
      if currentDialogue == "" || currentDialogue !in dialogues then Wrappers.None
      else Wrappers.Some(dialogues[currentDialogue])
    }

    function GetCurrentDialogueLine(): (r: Wrappers.Option<DialogueLine>)
      reads this, Objects()
      ensures r.Some? <==> GetCurrentDialogue().Some? && 0 <= currentLine < |GetCurrentDialogue().value.lines|
      ensures r.Some? ==> r.value == GetCurrentDialogue().value.lines[currentLine]
    {
      if currentLine < 0 then Wrappers.None
      else match GetCurrentDialogue()
        case None => Wrappers.None
        case Some(d) => if currentLine >= |d.lines| then Wrappers.None else Wrappers.Some(d.lines[currentLine])
    }

    function GetCurrentDialoguePage(): (r: Wrappers.Option<DialoguePage>)
      reads this, Objects()
      ensures r.Some? <==> GetCurrentDialogueLine().Some? && 0 <= currentPage < |GetCurrentDialogueLine().value.pages|
      ensures r.Some? ==> r.value == GetCurrentDialogueLine().value.pages[currentPage]
    {
      if currentPage < 0 then Wrappers.None
      else match GetCurrentDialogueLine()
        case None => Wrappers.None
        case Some(l) => if currentPage >= |l.pages| then Wrappers.None else Wrappers.Some(l.pages[currentPage])
    }

    /** Close: hide the text, stop the scroll, detach the wait script and
     *  go back to the first line and page. */
    method Close()
      modifies this
      ensures !open && !scrolling && !waiting && currentLine == 0 && currentPage == 0
      ensures dialogues == old(dialogues) && currentDialogue == old(currentDialogue)
    {
      open := false;
      scrolling := false;
      waiting := false;
      currentLine := 0;
      currentPage := 0;
    }

    /** StartDialogueLine: show the given line from its first page, which
     *  must exist, scrolling for that page's duration. */
    method StartDialogueLine(line: int)
      requires line >= 0 && GetCurrentDialogue().Some?
      requires line < |GetCurrentDialogue().value.lines| && |GetCurrentDialogue().value.lines[line].pages| > 0
      modifies this
      ensures dialogues == old(dialogues) && currentDialogue == old(currentDialogue) && open == old(open)
      ensures currentLine == line && currentPage == 0 && scrolling && waiting
      ensures GetCurrentDialoguePage() == Wrappers.Some(old(GetCurrentDialogue().value.lines[line].pages[0]))
      ensures scrollDurationMs == old(GetCurrentDialogue().value.lines[line].pages[0].scrollDurationMs)
    {
      currentLine := line;
      currentPage := 0;
      var page := GetCurrentDialoguePage();
      scrollDurationMs := page.value.scrollDurationMs;
      scrolling := true;
      waiting := true;
    }

    /** The draws the random pick of the dialogue Open or ShowNextLine
     *  picks from may use: each names one of its lines, and every line
     *  comes up. Other dialogues are not drawn from. */
    ghost predicate DrawsCover(target: string, draws: seq<nat>)
      reads this, Objects()
    {
      target in dialogues ==> DrawsFit(dialogues[target], draws)
    }

    /** Open: switch to the named dialogue (or stay on the current one for
     *  an empty name) and show its next line, unless that dialogue is
     *  already open or has no line to give. */
    method Open(name: string, draws: seq<nat>) returns (shown: bool)
      requires Valid() && |dialogues| > 0
      requires DrawsCover(if name != "" then name else currentDialogue, draws)
      modifies this, Objects()
      ensures Valid() && dialogues == old(dialogues)
      ensures (name != "" && name == old(currentDialogue) && old(open)) || (name == "" && old(open)) ==>
                !shown && currentDialogue == old(currentDialogue)
      ensures name != "" && !(name == old(currentDialogue) && old(open)) ==> currentDialogue == name
      ensures name == "" ==> currentDialogue == old(currentDialogue)
      ensures shown ==> open && scrolling && waiting && currentPage == 0 && GetCurrentDialoguePage().Some?
      ensures shown ==>
                var d := GetCurrentDialogue().value;
                |d.used| > 0 && d.used[|d.used| - 1] == currentLine
      ensures !shown ==> open == old(open) && currentLine == old(currentLine) && currentPage == old(currentPage)
      ensures var target := if name != "" then name else old(currentDialogue);
              shown <==>
                !(name != "" && name == old(currentDialogue) && old(open)) && !(name == "" && old(open)) &&
                target != "" && target in dialogues && !old(dialogues[target].Exhausted()) &&
                dialogues[target].LastPickHasPages()
    {
      if name != "" {
        if name == currentDialogue && open {
          return false;
        }
        currentDialogue := name;
      } else if open {
        return false;
      }
      if currentDialogue == "" {
        return false;
      }
      shown := ShowNextLine(draws);
    }

    /** The rest of Open: ask the current dialogue for a new line and show
     *  it from its first page. */
    method ShowNextLine(draws: seq<nat>) returns (shown: bool)
      requires Valid() && DrawsCover(currentDialogue, draws)
      modifies this, Objects()
      ensures Valid() && dialogues == old(dialogues) && currentDialogue == old(currentDialogue)
      ensures shown ==> open && scrolling && waiting && currentPage == 0 && GetCurrentDialoguePage().Some?
      ensures shown ==>
                var d := GetCurrentDialogue().value;
                |d.used| > 0 && d.used[|d.used| - 1] == currentLine
      ensures !shown ==> open == old(open) && currentLine == old(currentLine) && currentPage == old(currentPage)
      ensures shown <==>
                GetCurrentDialogue().Some? && !old(GetCurrentDialogue().value.Exhausted()) &&
                GetCurrentDialogue().value.LastPickHasPages()
    {
      var line := PickNewLine(draws);
      if line == -1 {
        return false;
      }
      StartDialogueLine(line);
      open := true;
      shown := true;
    }

    /** The current dialogue's GetNewDialogueLine: -1, or a line with a
     *  page, now the last one used. */
    method PickNewLine(draws: seq<nat>) returns (line: int)
      requires Valid() && DrawsCover(currentDialogue, draws)
      modifies Objects()
      ensures Valid() && unchanged(this)
      ensures line != -1 ==>
                GetCurrentDialogue().Some? &&
                var d := GetCurrentDialogue().value;
                0 <= line < |d.lines| && |d.lines[line].pages| > 0 && |d.used| > 0 && d.used[|d.used| - 1] == line
      ensures GetCurrentDialogue().None? ==> line == -1
      ensures GetCurrentDialogue().Some? && old(GetCurrentDialogue().value.Exhausted()) ==>
                line == -1 && GetCurrentDialogue().value.used == old(GetCurrentDialogue().value.used)
      ensures line == -1 <==>
                GetCurrentDialogue().None? || old(GetCurrentDialogue().value.Exhausted()) ||
                !GetCurrentDialogue().value.LastPickHasPages()
    {
      var dialogue := GetCurrentDialogue();
      if dialogue.None? {
        return -1;
      }
      var d := dialogue.value;
      assert d.Valid();
      line := d.GetNewDialogueLine(draws);
    }

    /** NextPage: move on a page, closing the dialogue after the last one
     *  and otherwise scrolling the new page. */
    method NextPage()
      modifies this
      ensures dialogues == old(dialogues) && currentDialogue == old(currentDialogue)
      ensures old(GetCurrentDialoguePageAt(currentPage + 1)).None? ==>
                !open && !scrolling && !waiting && currentLine == 0 && currentPage == 0
      ensures old(GetCurrentDialoguePageAt(currentPage + 1)).Some? ==>
                currentPage == old(currentPage) + 1 && currentLine == old(currentLine) && scrolling &&
                open == old(open) && waiting == old(waiting) &&
                scrollDurationMs == old(GetCurrentDialoguePageAt(currentPage + 1)).value.scrollDurationMs
    {
      currentPage := currentPage + 1;
      var page := GetCurrentDialoguePage();
      if page.None? {
        Close();
        return;
      }
      scrollDurationMs := page.value.scrollDurationMs;
      scrolling := true;
    }

    /** The page the current line has at index p. */
    function GetCurrentDialoguePageAt(p: int): (r: Wrappers.Option<DialoguePage>)
      reads this, Objects()
      ensures r.Some? <==> GetCurrentDialogueLine().Some? && 0 <= p < |GetCurrentDialogueLine().value.pages|
      ensures r.Some? ==> r.value == GetCurrentDialogueLine().value.pages[p]
    {
      if p < 0 then Wrappers.None
      else match GetCurrentDialogueLine()
        case None => Wrappers.None
        case Some(l) => if p >= |l.pages| then Wrappers.None else Wrappers.Some(l.pages[p])
    }

    /** The scroll tween, advanced by the time since its page started:
     *  it completes once that time reaches the page's scroll duration,
     *  and then no longer counts as running. A completed or cleared
     *  scroll stays stopped. */
    method UpdateScroll(elapsedMs: int)
      modifies this`scrolling
      ensures scrolling <==> old(scrolling) && elapsedMs < scrollDurationMs
    {
      if scrolling && elapsedMs >= scrollDurationMs {
        scrolling := false;
      }
    }

    /** DialogueWaitScript::OnUpdate, which runs only while the wait
     *  script is attached: the continue key first finishes a scroll in
     *  progress (one whose tween is still running), and otherwise turns
     *  the page. */
    method OnContinue(keyDown: bool)
      modifies this
      ensures dialogues == old(dialogues) && currentDialogue == old(currentDialogue)
      ensures !keyDown || !old(waiting) ==> unchanged(this)
      ensures keyDown && old(waiting) && old(scrolling) ==>
                !scrolling && currentPage == old(currentPage) && currentLine == old(currentLine) && open == old(open) && waiting
      ensures keyDown && old(waiting) && !old(scrolling) && old(GetCurrentDialoguePageAt(currentPage + 1)).Some? ==>
                scrolling && waiting && currentPage == old(currentPage) + 1 && currentLine == old(currentLine) && open == old(open)
      ensures keyDown && old(waiting) && !old(scrolling) && old(GetCurrentDialoguePageAt(currentPage + 1)).None? ==>
                !open && !waiting && currentPage == 0 && currentLine == 0
    {
      if !keyDown || !waiting {
        return;
      }
      if scrolling {
        scrolling := false;
        return;
      }
      NextPage();
    }

    /** SetNextDialogue: move to the dialogue the current one names,
     *  resetting line and page when there is none. */
    method SetNextDialogue()
      requires Valid()
      modifies this`currentDialogue, this`currentLine, this`currentPage
      ensures Valid()
      ensures old(GetCurrentDialogue()).None? ==>
                currentDialogue == old(currentDialogue) && currentLine == 0 && currentPage == 0
      ensures old(GetCurrentDialogue()).Some? ==>
                var next := old(GetCurrentDialogue()).value.nextDialogue;
                currentDialogue == next && (next == "" || next in dialogues) &&
                (next == "" ==> currentLine == 0 && currentPage == 0) &&
                (next != "" ==> currentLine == old(currentLine) && currentPage == old(currentPage))
    {
      var dialogue := GetCurrentDialogue();
      if dialogue.None? {
        currentLine := 0;
        currentPage := 0;
        return;
      }
      var next := dialogue.value.nextDialogue;
      assert next == "" || next in dialogues;
      if next == "" {
        currentLine := 0;
        currentPage := 0;
      }
      currentDialogue := next;
    }

    /** SetDialogue: select a loaded dialogue (or none) from its first line
     *  and page. */
    method SetDialogue(name: string)
      requires name == "" || name in dialogues
      modifies this`currentDialogue, this`currentLine, this`currentPage
      ensures currentDialogue == name && currentLine == 0 && currentPage == 0
      ensures name != "" ==> GetCurrentDialogue() == Wrappers.Some(dialogues[name])
    {
      currentDialogue := name;
      currentLine := 0;
      currentPage := 0;
    }
  }
}
