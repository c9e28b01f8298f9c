/**
 * The grid and path logic of the dice-rolling puzzle demo: a bounded tile
 * map, the checks a roll's path has to pass, the enumeration of roll
 * paths that never turn back or cross themselves, prefix sums, and the
 * breadth-first search that decides whether the win tile can still be
 * reached.
 */
module DiceGrid {

  datatype V2i = V2i(x: int, y: int)

  datatype V2r = V2r(x: real, y: real)

  datatype TileType = NoTile | Player | Used | Win | Obstacle

  type Sequence = seq<V2i>

  function Add(a: V2i, b: V2i): V2i
  {
    V2i(a.x + b.x, a.y + b.y)
  }

  function Neg(a: V2i): V2i
  {
    V2i(-a.x, -a.y)
  }

  /** The std::find-style loop of Contains. */
  function Contains<T(==)>(container: seq<T>, value: T): (r: bool)
    ensures r <==> value in container
  {
    if |container| == 0 then false
    else if container[0] == value then true
    else Contains(container[1..], value)
  }

  /** A tile grid of `size` cells; `tiles` holds the occupied ones. */
  class Grid {
    var size: V2i
    var tileSize: V2i
    var tiles: map<V2i, TileType>

    constructor (size: V2i, tileSize: V2i)
      ensures this.size == size && this.tileSize == tileSize && tiles == map[]
    {
      this.size := size;
      this.tileSize := tileSize;
      tiles := map[];
    }

    predicate InBound(c: V2i)
      reads this
    {
      c.x < size.x && c.x >= 0 && c.y < size.y && c.y >= 0
    }

    /** emplace: a coordinate that already holds a tile keeps it. */
    method AddTile(c: V2i, tile: TileType)
      requires InBound(c)
      modifies this`tiles
      ensures tiles == if c in old(tiles) then old(tiles) else old(tiles)[c := tile]
    {
      if c !in tiles {
        tiles := tiles[c := tile];
      }
    }

    /** Every coordinate but the last gets `tile` (the last is where the
     *  player lands). The only caller passes a non-empty sequence. */
    method AddTiles(sequence: Sequence, tile: TileType)
      requires |sequence| >= 1
      requires forall i :: 0 <= i < |sequence| - 1 ==> InBound(sequence[i])
      modifies this`tiles
      ensures tiles.Keys == old(tiles).Keys + set i | 0 <= i < |sequence| - 1 :: sequence[i]
      ensures forall c :: c in old(tiles) ==> tiles[c] == old(tiles)[c]
      ensures forall c :: c in tiles && c !in old(tiles) ==> tiles[c] == tile
    {
      var i := 0;
      while i < |sequence| - 1
        invariant 0 <= i <= |sequence| - 1
        invariant tiles.Keys == old(tiles).Keys + set j | 0 <= j < i :: sequence[j]
        invariant forall c :: c in old(tiles) ==> tiles[c] == old(tiles)[c]
        invariant forall c :: c in tiles && c !in old(tiles) ==> tiles[c] == tile
      {
        AddTile(sequence[i], tile);
        i := i + 1;
      }
    }

    /** A coordinate a path may not enter: out of bounds, or holding a
     *  tile whose type is not ignored. */
    predicate Blocks(c: V2i, ignore: seq<TileType>)
      reads this
    {
      !InBound(c) || (c in tiles && tiles[c] !in ignore)
    }

    method Permits(sequence: Sequence, ignore: seq<TileType>) returns (r: bool)
      ensures r <==> forall i :: 0 <= i < |sequence| ==> !Blocks(sequence[i], ignore)
    {
      for i := 0 to |sequence|
        invariant forall j :: 0 <= j < i ==> !Blocks(sequence[j], ignore)
      {
        var c := sequence[i];
        if !InBound(c) || (c in tiles && !Contains(ignore, tiles[c])) {
          return false;
        }
      }
      return true;
    }

    method WinCondition(sequence: Sequence) returns (r: bool)
      ensures r <==> exists i :: 0 <= i < |sequence| && sequence[i] in tiles && tiles[sequence[i]] == Win
    {
      for i := 0 to |sequence|
        invariant forall j :: 0 <= j < i ==> !(sequence[j] in tiles && tiles[sequence[j]] == Win)
      {
        var c := sequence[i];
        if c in tiles && tiles[c] == Win {
          return true;
        }
      }
      return false;
    }

    /** A tile is present, and (unless `types` is empty) of one of `types`. */
    function HasTile(c: V2i, types: seq<TileType>): (r: bool)
      requires InBound(c)
      reads this
      ensures r <==> c in tiles && (types == [] || tiles[c] in types)
    {
      c in tiles && (if |types| == 0 then true else Contains(types, tiles[c]))
    }

    function GetTile(c: V2i): (r: TileType)
      requires InBound(c) && c in tiles
      reads this
      ensures HasTile(c, [r])
    {
      tiles[c]
    }

    method Clear()
      modifies this`tiles
      ensures tiles == map[]
    {
      tiles := map[];
    }

    /** A cell the search may step onto. */
    predicate Open(c: V2i)
      reads this
    {
      InBound(c) && !HasTile(c, [Obstacle, Used])
    }
  }

  // ---------------------------------------------------------------------
  // ClosestAxis

  const Axes: seq<V2i> := [V2i(1, 0), V2i(-1, 0), V2i(0, 1), V2i(0, -1)]

  function Dot(d: V2r, a: V2i): real
  {
    d.x * a.x as real + d.y * a.y as real
  }

  /** The unit axis with the largest dot product; ties go to the earlier
   *  of (1,0), (-1,0), (0,1), (0,-1). */
  function ClosestAxis(direction: V2r): (r: V2i)
    ensures r in Axes
    ensures forall k :: 0 <= k < |Axes| ==> Dot(direction, Axes[k]) <= Dot(direction, r)
  {
    var best0, axis0 := Dot(direction, V2i(1, 0)), V2i(1, 0);
    var t1 := Dot(direction, V2i(-1, 0));
    var best1, axis1 := if t1 > best0 then t1 else best0, if t1 > best0 then V2i(-1, 0) else axis0;
    var t2 := Dot(direction, V2i(0, 1));
    var best2, axis2 := if t2 > best1 then t2 else best1, if t2 > best1 then V2i(0, 1) else axis1;
    var t3 := Dot(direction, V2i(0, -1));
    var axis3 := if t3 > best2 then V2i(0, -1) else axis2;
    assert best2 == Dot(direction, axis2);
    axis3
  }

  // ---------------------------------------------------------------------
  // Sequences

  /** GetAbsoluteSequence: every offset moved by `tile`. */
  method GetAbsoluteSequence(sequence: Sequence, tile: V2i) returns (r: Sequence)
    ensures |r| == |sequence|
    ensures forall i :: 0 <= i < |r| ==> r[i] == Add(sequence[i], tile)
  {
    r := sequence;
    for i := 0 to |r|
      invariant |r| == |sequence|
      invariant forall j :: 0 <= j < i ==> r[j] == Add(sequence[j], tile)
      invariant forall j :: i <= j < |r| ==> r[j] == sequence[j]
    {
      r := r[i := Add(r[i], tile)];
    }
  }

  /** The sum of a sequence of vectors. */
  function Sum(s: Sequence): V2i
  {
    if |s| == 0 then V2i(0, 0) else Add(Sum(s[..|s| - 1]), s[|s| - 1])
  }

  /** std::partial_sum with addition, in place on one sequence. */
  method PartialSum(s: Sequence) returns (r: Sequence)
    ensures |r| == |s|
    ensures forall i :: 0 <= i < |r| ==> r[i] == Sum(s[..i + 1])
  {
    r := s;
    if |s| == 0 {
      return;
    }
    assert s[..1][..0] == [];
    for i := 1 to |r|
      invariant |r| == |s|
      invariant forall j :: 0 <= j < i ==> r[j] == Sum(s[..j + 1])
      invariant forall j :: i <= j < |r| ==> r[j] == s[j]
    {
      assert s[..i + 1][..i] == s[..i];
      r := r[i := Add(r[i - 1], r[i])];
    }
  }

  /** CumulativeSum: partial sums of every sequence. */
  method CumulativeSum(sequences: seq<Sequence>) returns (r: seq<Sequence>)
    ensures |r| == |sequences|
    ensures forall k :: 0 <= k < |r| ==> |r[k]| == |sequences[k]|
    ensures forall k, i :: 0 <= k < |r| && 0 <= i < |r[k]| ==> r[k][i] == Sum(sequences[k][..i + 1])
  {
    r := sequences;
    for k := 0 to |r|
      invariant |r| == |sequences|
      invariant forall m :: 0 <= m < |r| ==> |r[m]| == |sequences[m]|
      invariant forall m, i :: 0 <= m < k && 0 <= i < |r[m]| ==> r[m][i] == Sum(sequences[m][..i + 1])
      invariant forall m :: k <= m < |r| ==> r[m] == sequences[m]
    {
      var summed := PartialSum(r[k]);
      r := r[k := summed];
    }
  }

  // ---------------------------------------------------------------------
  // Combinations

  predicate Distinct(s: Sequence)
  {
    forall i, j :: 0 <= i < j < |s| ==> s[i] != s[j]
  }

  /** The cells Combinations' inner loop would lay down for the first n
   *  positions: the origin, the first direction, then one chosen step
   *  after another. */
  function Walk(directions: seq<V2i>, pos: seq<int>, n: nat): (w: Sequence)
    requires |directions| >= 1 && n <= |pos|
    requires forall i :: 0 <= i < |pos| ==> 0 <= pos[i] < |directions|
    ensures |w| == n + 2
  {
    if n == 0 then [V2i(0, 0), directions[0]]
    else var prev := Walk(directions, pos, n - 1);
         prev + [Add(directions[pos[n - 1]], prev[|prev| - 1])]
  }

  lemma WalkPrefix(directions: seq<V2i>, pos: seq<int>, m: nat, n: nat)
    requires |directions| >= 1 && m <= n <= |pos|
    requires forall i :: 0 <= i < |pos| ==> 0 <= pos[i] < |directions|
    ensures Walk(directions, pos, n)[..m + 2] == Walk(directions, pos, m)
    decreases n - m
  {
    if m < n {
      WalkPrefix(directions, pos, m, n - 1);
      assert Walk(directions, pos, n)[..m + 2] == Walk(directions, pos, n - 1)[..m + 2];
    }
  }

  /** A path Combinations may emit: it starts at the first direction, moves
   *  one of `directions` at a time, and never revisits a cell or the
   *  origin; in particular no step undoes the previous one. */
  /** `b` is one of `directions` away from `a`. */
  predicate StepsTo(a: V2i, b: V2i, directions: seq<V2i>)
  {
    exists k :: 0 <= k < |directions| && b == Add(directions[k], a)
  }

  predicate RollPath(s: Sequence, directions: seq<V2i>)
    requires |directions| >= 1
  {
    |s| >= 1 && s[0] == directions[0] &&
    (forall i {:trigger StepsTo(s[i - 1], s[i], directions)} :: 0 < i < |s| ==> StepsTo(s[i - 1], s[i], directions)) &&
    Distinct([V2i(0, 0)] + s)
  }

  /** The inner validation loop of Combinations for one position vector:
   *  it fails exactly when the walk would turn back or cross itself. */
  method BuildSequence(directions: seq<V2i>, pos: seq<int>) returns (valid: bool, sequence: Sequence)
    requires |directions| >= 1 && directions[0] != V2i(0, 0)
    requires forall i :: 0 <= i < |pos| ==> 0 <= pos[i] < |directions|
    ensures valid <==> Distinct(Walk(directions, pos, |pos|))
    ensures valid ==> sequence == Walk(directions, pos, |pos|)
  {
    var n := |pos|;
    var previous := directions[0];
    sequence := [V2i(0, 0), previous];
    var i := 0;
    while i != n
      invariant 0 <= i <= n
      invariant sequence == Walk(directions, pos, i)
      invariant Distinct(sequence)
      invariant Add(previous, sequence[|sequence| - 2]) == sequence[|sequence| - 1]
    {
      var back := sequence[|sequence| - 1];
      var current := Add(directions[pos[i]], back);
      if directions[pos[i]] == Neg(previous) || Contains(sequence, current) {
        assert current in sequence by {
          if directions[pos[i]] == Neg(previous) {
            assert current == sequence[|sequence| - 2];
          }
        }
        WalkNotDistinct(directions, pos, i, current);
        return false, sequence;
      }
      DistinctAppend(sequence, current);
      sequence := sequence + [current];
      previous := directions[pos[i]];
      i := i + 1;
    }
    return true, sequence;
  }

  lemma ConsTail(w: Sequence)
    requires |w| >= 1
    ensures [w[0]] + w[1..] == w
  {
  }

  lemma DistinctAppend(s: Sequence, c: V2i)
    requires Distinct(s) && c !in s
    ensures Distinct(s + [c])
  {
  }

  /** A walk whose next cell is already on it stays non-distinct however
   *  far it continues. */
  lemma WalkNotDistinct(directions: seq<V2i>, pos: seq<int>, i: nat, current: V2i)
    requires |directions| >= 1 && i < |pos|
    requires forall j :: 0 <= j < |pos| ==> 0 <= pos[j] < |directions|
    requires var w := Walk(directions, pos, i); current == Add(directions[pos[i]], w[|w| - 1]) && current in w
    ensures !Distinct(Walk(directions, pos, |pos|))
  {
    var w := Walk(directions, pos, i);
    var k :| 0 <= k < |w| && w[k] == current;
    var full := Walk(directions, pos, |pos|);
    WalkPrefix(directions, pos, i + 1, |pos|);
    assert full[k] == w[k] && full[i + 2] == current;
  }

  lemma {:induction false} WalkStart(directions: seq<V2i>, pos: seq<int>, n: nat)
    requires |directions| >= 1 && n <= |pos|
    requires forall j :: 0 <= j < |pos| ==> 0 <= pos[j] < |directions|
    ensures Walk(directions, pos, n)[0] == V2i(0, 0) && Walk(directions, pos, n)[1] == directions[0]
  {
    if n > 0 {
      WalkStart(directions, pos, n - 1);
    }
  }

  /** Each cell of a walk after the first direction is the chosen step
   *  from the cell before it. */
  lemma WalkAt(directions: seq<V2i>, pos: seq<int>, n: nat, i: nat)
    requires |directions| >= 1 && 1 <= i <= n <= |pos|
    requires forall j :: 0 <= j < |pos| ==> 0 <= pos[j] < |directions|
    ensures Walk(directions, pos, n)[i + 1] == Add(directions[pos[i - 1]], Walk(directions, pos, n)[i])
  {
    WalkPrefix(directions, pos, i, n);
    var wi := Walk(directions, pos, i);
    var prev := Walk(directions, pos, i - 1);
    assert wi == prev + [Add(directions[pos[i - 1]], prev[|prev| - 1])];
    assert Walk(directions, pos, n)[i + 1] == wi[i + 1];
    assert Walk(directions, pos, n)[i] == wi[i] == prev[i];
  }

  /** A distinct walk, minus its origin, is a roll path. */
  lemma WalkIsRollPath(directions: seq<V2i>, pos: seq<int>, w: Sequence)
    requires |directions| >= 1
    requires forall i :: 0 <= i < |pos| ==> 0 <= pos[i] < |directions|
    requires w == Walk(directions, pos, |pos|) && Distinct(w)
    ensures RollPath(w[1..], directions)
  {
    WalkStart(directions, pos, |pos|);
    WalkSteps(directions, pos, w);
    TailIsRollPath(w, directions);
  }

  lemma WalkSteps(directions: seq<V2i>, pos: seq<int>, w: Sequence)
    requires |directions| >= 1
    requires forall i :: 0 <= i < |pos| ==> 0 <= pos[i] < |directions|
    requires w == Walk(directions, pos, |pos|)
    ensures |w| == |pos| + 2
    ensures forall i {:trigger StepsTo(w[i], w[i + 1], directions)} :: 1 <= i < |w| - 1 ==> StepsTo(w[i], w[i + 1], directions)
  {
    forall i | 1 <= i < |w| - 1
      ensures StepsTo(w[i], w[i + 1], directions)
    {
      WalkAt(directions, pos, |pos|, i);
      var k := pos[i - 1];
      assert w[i + 1] == Add(directions[k], w[i]);
    }
  }

  lemma TailIsRollPath(w: Sequence, directions: seq<V2i>)
    requires |directions| >= 1
    requires |w| >= 2 && w[0] == V2i(0, 0) && w[1] == directions[0]
    requires Distinct(w)
    requires forall i {:trigger StepsTo(w[i], w[i + 1], directions)} :: 1 <= i < |w| - 1 ==> StepsTo(w[i], w[i + 1], directions)
    ensures RollPath(w[1..], directions)
  {
    var s := w[1..];
    assert [V2i(0, 0)] + s == w;
    forall i | 0 < i < |s|
      ensures StepsTo(s[i - 1], s[i], directions)
    {
      assert s[i] == w[i + 1] && s[i - 1] == w[i];
      assert StepsTo(w[i], w[i + 1], directions);
    }
  }

  /** Every sequence from index `from` on is a roll path of `length` cells. */
  predicate RollPathsFrom(out: seq<Sequence>, from: nat, directions: seq<V2i>, length: nat)
    requires |directions| >= 1
  {
    forall k :: from <= k < |out| ==> RollPath(out[k], directions) && |out[k]| == length
  }

  function Pow(b: nat, e: nat): nat
  {
    if e == 0 then 1 else b * Pow(b, e - 1)
  }

  /** Combinations: fills positions n.. of `pos` with every choice of
   *  direction index in turn and, at full length, appends the walk (minus
   *  its origin) when it is valid. */
  method Combinations(sequences: seq<Sequence>, directions: seq<V2i>, pos: array<int>, n: nat)
    returns (out: seq<Sequence>)
    requires |directions| >= 1 && directions[0] != V2i(0, 0) && n <= pos.Length
    requires forall i :: 0 <= i < n ==> 0 <= pos[i] < |directions|
    modifies pos
    ensures |sequences| <= |out| <= |sequences| + Pow(|directions|, pos.Length - n)
    ensures out[..|sequences|] == sequences
    ensures RollPathsFrom(out, |sequences|, directions, pos.Length + 1)
    ensures pos[..n] == old(pos[..n])
    decreases pos.Length - n
  {
    if n == pos.Length {
      var valid, sequence := BuildSequence(directions, pos[..]);
      if valid {
        WalkIsRollPath(directions, pos[..], sequence);
        out := sequences + [sequence[1..]];
      } else {
        out := sequences;
      }
      return;
    }
    out := sequences;
    for i := 0 to |directions|
      invariant pos[..n] == old(pos[..n])
      invariant |sequences| <= |out| <= |sequences| + i * Pow(|directions|, pos.Length - n - 1)
      invariant out[..|sequences|] == sequences
      invariant RollPathsFrom(out, |sequences|, directions, pos.Length + 1)
    {
      pos[n] := i;
      assert pos[..n] == old(pos[..n]);
      var before := out;
      out := Combinations(out, directions, pos, n + 1);
      assert pos[..n] == pos[..n + 1][..n];
      assert out[..|sequences|] == before[..|sequences|];
    }
  }

  // ---------------------------------------------------------------------
  // CanWin

  /** The neighbour order of CanWin's inner loop. */
  const Neighbours: seq<V2i> := [V2i(0, 1), V2i(0, -1), V2i(1, 0), V2i(-1, 0)]

  /** A route over the grid from `start` to `goal`: every cell after the
   *  first is open and one orthogonal step from the cell before it. */
  predicate IsRoute(grid: Grid, path: Sequence, start: V2i, goal: V2i)
    reads grid
  {
    |path| >= 1 && path[0] == start && path[|path| - 1] == goal &&
    forall i {:trigger StepsTo(path[i - 1], path[i], Neighbours)} :: 0 < i < |path| ==>
      StepsTo(path[i - 1], path[i], Neighbours) && grid.Open(path[i])
  }

  /** The cells the inner loop queues from `p` after the first n
   *  neighbours: each open neighbour not yet visited, in order. */
  function Pushed(grid: Grid, p: V2i, visited: Sequence, n: nat): (r: Sequence)
    requires n <= 4
    reads grid
    ensures |r| <= n
    ensures forall t :: t in r ==> grid.Open(t) && t !in visited && StepsTo(p, t, Neighbours)
    ensures forall k :: 0 <= k < n && grid.Open(Add(p, Neighbours[k])) && Add(p, Neighbours[k]) !in visited ==>
              Add(p, Neighbours[k]) in r
  {
    if n == 0 then []
    else
      var t := Add(p, Neighbours[n - 1]);
      assert t == Add(Neighbours[n - 1], p);
      Pushed(grid, p, visited, n - 1) + (if grid.Open(t) && t !in visited then [t] else [])
  }

  /** The inner for loop of CanWin. */
  method PushNeighbours(grid: Grid, p: V2i, visited: Sequence, q: Sequence) returns (r: Sequence)
    ensures r == q + Pushed(grid, p, visited, 4)
  {
    r := q;
    for i := 0 to 4
      invariant r == q + Pushed(grid, p, visited, i)
    {
      var t := Add(p, Neighbours[i]);
      if grid.InBound(t) && !Contains(visited, t) && !grid.HasTile(t, [Obstacle, Used]) {
        r := r + [t];
      }
    }
  }

  /** A route extended by one open neighbour is a route to it. */
  lemma RouteExtend(grid: Grid, path: Sequence, start: V2i, p: V2i, t: V2i)
    requires IsRoute(grid, path, start, p)
    requires grid.Open(t) && StepsTo(p, t, Neighbours)
    ensures IsRoute(grid, path + [t], start, t)
  {
    var ext := path + [t];
    forall i | 0 < i < |ext|
      ensures StepsTo(ext[i - 1], ext[i], Neighbours) && grid.Open(ext[i])
    {
      if i < |path| {
        assert ext[i - 1] == path[i - 1] && ext[i] == path[i];
      }
    }
  }

  /** A set that contains `start` and every open neighbour of its members
   *  contains the end of every route from `start`. */
  lemma {:induction false} ClosedHoldsRoute(grid: Grid, seen: set<V2i>, path: Sequence, start: V2i, goal: V2i)
    requires start in seen && Closed(grid, seen, [])
    requires IsRoute(grid, path, start, goal)
    ensures goal in seen
    decreases |path|
  {
    if |path| > 1 {
      var prefix := path[..|path| - 1];
      var v := prefix[|prefix| - 1];
      assert IsRoute(grid, prefix, start, v) by {
        forall i | 0 < i < |prefix|
          ensures StepsTo(prefix[i - 1], prefix[i], Neighbours) && grid.Open(prefix[i])
        {
          assert prefix[i - 1] == path[i - 1] && prefix[i] == path[i];
        }
      }
      ClosedHoldsRoute(grid, seen, prefix, start, v);
      var last := |path| - 1;
      assert StepsTo(path[last - 1], path[last], Neighbours) && grid.Open(path[last]);
      assert path[last - 1] == v && path[last] == goal;
      var k :| 0 <= k < |Neighbours| && goal == Add(Neighbours[k], v);
      assert goal == Add(v, Neighbours[k]);
      assert v in seen && 0 <= k < 4 && grid.Open(Add(v, Neighbours[k]));
    } else {
      assert goal == path[0];
    }
  }

  /** Termination measure of the search: a queued cell already visited
   *  weighs 5, because popping it queues at most four unvisited cells. */
  function Weight(q: Sequence, seen: set<V2i>): nat
  {
    if |q| == 0 then 0 else Weight(q[..|q| - 1], seen) + (if q[|q| - 1] in seen then 5 else 1)
  }

  lemma {:induction false} WeightAppend(q: Sequence, r: Sequence, seen: set<V2i>)
    ensures Weight(q + r, seen) == Weight(q, seen) + Weight(r, seen)
    decreases |r|
  {
    if |r| == 0 {
      assert q + r == q;
    } else {
      WeightAppend(q, r[..|r| - 1], seen);
      assert (q + r)[..|q + r| - 1] == q + r[..|r| - 1];
      assert (q + r)[|q + r| - 1] == r[|r| - 1];
    }
  }

  lemma {:induction false} WeightUnseen(r: Sequence, seen: set<V2i>)
    requires forall t :: t in r ==> t !in seen
    ensures Weight(r, seen) == |r|
    decreases |r|
  {
    if |r| > 0 {
      assert r[|r| - 1] in r;
      WeightUnseen(r[..|r| - 1], seen);
    }
  }

  /** The cells of the grid. */
  function BoundCells(grid: Grid): (cells: set<V2i>)
    reads grid
    ensures forall c :: grid.InBound(c) ==> c in cells
  {
    var cells := set x, y | 0 <= x < grid.size.x && 0 <= y < grid.size.y :: V2i(x, y);
    assert forall c :: grid.InBound(c) ==> c == V2i(c.x, c.y);
    cells
  }

  /** Every open neighbour of a cell in `seen` is in `seen` or queued. */
  predicate Closed(grid: Grid, seen: set<V2i>, q: Sequence)
    reads grid
  {
    forall v, k :: v in seen && 0 <= k < 4 && grid.Open(Add(v, Neighbours[k])) ==>
      Add(v, Neighbours[k]) in seen || Add(v, Neighbours[k]) in q
  }

  /** Each recorded cell has a recorded route from the player's tile. */
  predicate RoutesValid(grid: Grid, routes: map<V2i, Sequence>, player: V2i)
    reads grid
  {
    forall v :: v in routes ==> IsRoute(grid, routes[v], player, v)
  }

  /** Popping p, visiting it and queueing its pushed neighbours keeps
   *  the search closed. */
  lemma ClosedStep(grid: Grid, seen: set<V2i>, q: Sequence, visited: Sequence)
    requires |q| > 0 && Closed(grid, seen, q)
    requires forall v :: v in visited <==> v in seen + {q[0]}
    ensures Closed(grid, seen + {q[0]}, q[1..] + Pushed(grid, q[0], visited, 4))
  {
    var p := q[0];
    var next := q[1..] + Pushed(grid, p, visited, 4);
    forall v, k | v in seen + {p} && 0 <= k < 4 && grid.Open(Add(v, Neighbours[k]))
      ensures Add(v, Neighbours[k]) in seen + {p} || Add(v, Neighbours[k]) in next
    {
      var c := Add(v, Neighbours[k]);
      if v == p {
        if c !in visited {
          assert c in Pushed(grid, p, visited, 4);
        }
      } else if c in q && c != p {
        assert q == [p] + q[1..];
        assert c in q[1..];
      }
    }
  }

  /** Popping a cell already visited lowers the weight. */
  lemma WeightStep(q: Sequence, pushed: Sequence, seen: set<V2i>)
    requires |q| > 0 && q[0] in seen && |pushed| <= 4
    requires forall t :: t in pushed ==> t !in seen
    ensures Weight(q[1..] + pushed, seen) < Weight(q, seen)
  {
    assert q == [q[0]] + q[1..];
    WeightAppend([q[0]], q[1..], seen);
    WeightAppend(q[1..], pushed, seen);
    WeightUnseen(pushed, seen);
  }

  /** Extending p's route to each pushed neighbour keeps every route valid. */
  lemma RoutesStep(grid: Grid, routes: map<V2i, Sequence>, player: V2i, p: V2i, pushed: Sequence)
    requires RoutesValid(grid, routes, player) && p in routes
    requires forall t :: t in pushed ==> grid.Open(t) && StepsTo(p, t, Neighbours)
    ensures RoutesValid(grid, routes + map t | t in pushed :: routes[p] + [t], player)
  {
    var extended := routes + map t | t in pushed :: routes[p] + [t];
    forall v | v in extended
      ensures IsRoute(grid, extended[v], player, v)
    {
      if v in pushed {
        RouteExtend(grid, routes[p], player, p, v);
      }
    }
  }

  predicate Within(q: Sequence, s: set<V2i>)
  {
    forall v :: v in q ==> v in s
  }

  lemma WithinStep(q: Sequence, pushed: Sequence, s: set<V2i>)
    requires |q| > 0 && Within(q, s) && Within(pushed, s)
    ensures Within(q[1..] + pushed, s)
  {
    forall v | v in q[1..] + pushed
      ensures v in s
    {
      if v in q[1..] {
        assert q == [q[0]] + q[1..];
      }
    }
  }

  /** The loop invariant of CanWin's search. */
  ghost predicate Searching(grid: Grid, player: V2i, win: V2i, cells: set<V2i>, q: Sequence,
                      visited: Sequence, seen: set<V2i>, routes: map<V2i, Sequence>)
    reads grid
  {
    (forall v :: v in visited <==> v in seen) &&
    seen <= cells && Within(q, cells) && Within(q, routes.Keys) &&
    RoutesValid(grid, routes, player) && win !in seen &&
    (player in seen || (seen == {} && q == [player])) &&
    Closed(grid, seen, q)
  }

  /** The next queue, visited list and routes after popping the front. */
  function NextQueue(grid: Grid, q: Sequence, visited: Sequence): Sequence
    requires |q| > 0
    reads grid
  {
    q[1..] + Pushed(grid, q[0], visited + [q[0]], 4)
  }

  function NextRoutes(grid: Grid, q: Sequence, visited: Sequence, routes: map<V2i, Sequence>): map<V2i, Sequence>
    requires |q| > 0 && q[0] in routes
    reads grid
  {
    routes + map t | t in Pushed(grid, q[0], visited + [q[0]], 4) :: routes[q[0]] + [t]
  }

  /** One iteration of the search that does not reach the win tile keeps
   *  the invariant. */
  lemma SearchStep(grid: Grid, player: V2i, win: V2i, cells: set<V2i>, q: Sequence,
                   visited: Sequence, seen: set<V2i>, routes: map<V2i, Sequence>)
    requires |q| > 0 && q[0] != win
    requires BoundCells(grid) <= cells
    requires Searching(grid, player, win, cells, q, visited, seen, routes)
    ensures q[0] in routes
    ensures Searching(grid, player, win, cells, NextQueue(grid, q, visited), visited + [q[0]],
                      seen + {q[0]}, NextRoutes(grid, q, visited, routes))
  {
    var p := q[0];
    assert p in q;
    var visited' := visited + [p];
    var pushed := Pushed(grid, p, visited', 4);
    var routes' := NextRoutes(grid, q, visited, routes);
    ClosedStep(grid, seen, q, visited');
    RoutesStep(grid, routes, player, p, pushed);
    WithinStep(q, pushed, cells);
    assert Within(q, routes'.Keys);
    WithinStep(q, pushed, routes'.Keys);
  }

  /** The same iteration lowers the termination measure. */
  lemma SearchDecreases(grid: Grid, cells: set<V2i>, q: Sequence, visited: Sequence, seen: set<V2i>)
    requires |q| > 0 && q[0] in cells && seen <= cells
    requires forall v :: v in visited <==> v in seen
    ensures var seen' := seen + {q[0]};
            |cells - seen'| < |cells - seen| ||
            (|cells - seen'| == |cells - seen| && Weight(NextQueue(grid, q, visited), seen') < Weight(q, seen))
  {
    var p := q[0];
    var seen' := seen + {p};
    if p in seen {
      assert seen' == seen;
      WeightStep(q, Pushed(grid, p, visited + [p], 4), seen);
    } else {
      assert cells - seen' == (cells - seen) - {p};
    }
  }

  /** CanWin: breadth-first search from the player's tile over open
   *  tiles; true exactly when a route to the win tile exists. */
  method CanWin(grid: Grid, player: V2i, win: V2i) returns (r: bool)
    ensures r <==> exists path :: IsRoute(grid, path, player, win)
  {
    var q := [player];
    var visited: Sequence := [];
    ghost var seen: set<V2i> := {};
    ghost var routes: map<V2i, Sequence> := map[player := [player]];
    ghost var cells := BoundCells(grid) + {player};
    while |q| > 0
      invariant Searching(grid, player, win, cells, q, visited, seen, routes)
      decreases |cells - seen|, Weight(q, seen)
    {
      var p := q[0];
      assert p in q;
      if p == win {
        assert IsRoute(grid, routes[p], player, win);
        return true;
      }
      SearchStep(grid, player, win, cells, q, visited, seen, routes);
      SearchDecreases(grid, cells, q, visited, seen);
      ghost var popped := q;
      routes := NextRoutes(grid, q, visited, routes);
      q := q[1..];
      visited := visited + [p];
      seen := seen + {p};
      q := PushNeighbours(grid, p, visited, q);
      assert q == NextQueue(grid, popped, visited[..|visited| - 1]);
    }
    ClosedReachesAll(grid, seen, player, win);
    return false;
  }

  lemma ClosedReachesAll(grid: Grid, seen: set<V2i>, player: V2i, win: V2i)
    requires player in seen
    requires Closed(grid, seen, [])
    ensures (exists path :: IsRoute(grid, path, player, win)) ==> win in seen
  {
    forall path | IsRoute(grid, path, player, win)
      ensures win in seen
    {
      ClosedHoldsRoute(grid, seen, path, player, win);
    }
  }
}
