// Polygon bookkeeping of the engine's geometry helpers: the shoelace area,
// ear-clipping triangulation (its index list and the triangles it emits),
// the orientation test, turning a point list into segments and fanning a
// visibility polygon into triangles. Floats are modelled as reals.

module Geometry {

  datatype V2 = V2(x: real, y: real)

  function Sub(a: V2, b: V2): V2 { V2(a.x - b.x, a.y - b.y) }

  /** The z component of the cross product of two vectors. */
  function Cross(a: V2, b: V2): real { a.x * b.y - a.y * b.x }

  datatype Line = Line(start: V2, end: V2)

  datatype Triangle = Triangle(a: V2, b: V2, c: V2)

  lemma CrossSwap(a: V2, b: V2)
    ensures Cross(b, a) == -Cross(a, b)
  {
  }

  // ---------------------------------------------------------------------
  // Outlines: consecutive points joined by segments
  // ---------------------------------------------------------------------

  /** The segments joining each point to the next one. */
  function Chain(ps: seq<V2>): (r: seq<Line>)
    ensures |r| == if |ps| < 2 then 0 else |ps| - 1
  {
    if |ps| < 2 then [] else [Line(ps[0], ps[1])] + Chain(ps[1..])
  }

  /** The points with the first one repeated at the end. */
  function Closure(ps: seq<V2>): seq<V2>
    requires |ps| > 0
  {
    ps + [ps[0]]
  }

  /** The segments PointsToLines produces: nothing for fewer than two
   *  points, otherwise the path through the points, closed back to the
   *  first one when asked. */
  function Outline(points: seq<V2>, connectLastToFirst: bool): seq<Line>
  {
    if |points| < 2 then []
    else if connectLastToFirst then Chain(Closure(points))
    else Chain(points)
  }

  lemma {:induction false} ChainAt(ps: seq<V2>, i: nat)
    requires i < |ps| - 1
    ensures Chain(ps)[i] == Line(ps[i], ps[i + 1])
  {
    if i > 0 {
      ChainAt(ps[1..], i - 1);
    }
  }

  lemma ChainFrom(ps: seq<V2>, ls: seq<Line>)
    requires |ps| >= 2 && |ls| == |ps| - 1
    requires forall k :: 0 <= k < |ls| ==> ls[k] == Line(ps[k], ps[k + 1])
    ensures ls == Chain(ps)
  {
    forall k | 0 <= k < |ls|
      ensures ls[k] == Chain(ps)[k]
    {
      ChainAt(ps, k);
    }
  }

  /** Appending a point appends one segment. */
  lemma {:induction false} ChainExtend(ps: seq<V2>, p: V2)
    requires |ps| >= 1
    ensures Chain(ps + [p]) == Chain(ps) + [Line(ps[|ps| - 1], p)]
  {
    if |ps| >= 2 {
      ChainExtend(ps[1..], p);
      assert (ps + [p])[1..] == ps[1..] + [p];
    }
  }

  /** Segments whose k-th one runs from point k to point k + 1 (mod the count) make the closed outline. */
  lemma CyclicChain(ps: seq<V2>, ls: seq<Line>)
    requires |ps| >= 2 && |ls| == |ps|
    requires forall k :: 0 <= k < |ls| ==> ls[k] == Line(ps[k], ps[(k + 1) % |ps|])
    ensures ls == Outline(ps, true)
  {
    var c := Closure(ps);
    forall k | 0 <= k < |ls|
      ensures ls[k] == Line(c[k], c[k + 1])
    {
      if k + 1 < |ps| {
        assert (k + 1) % |ps| == k + 1;
      } else {
        assert (k + 1) % |ps| == 0;
      }
    }
    ChainFrom(c, ls);
  }

  lemma OpenChain(ps: seq<V2>, ls: seq<Line>)
    requires |ps| >= 2 && |ls| == |ps| - 1
    requires forall k :: 0 <= k < |ls| ==> ls[k] == Line(ps[k], ps[(k + 1) % |ps|])
    ensures ls == Outline(ps, false)
  {
    forall k | 0 <= k < |ls|
      ensures ls[k] == Line(ps[k], ps[k + 1])
    {
      assert (k + 1) % |ps| == k + 1;
    }
    ChainFrom(ps, ls);
  }

  /** PointsToLines: one segment per consecutive pair of points, plus the
   *  segment from the last point back to the first when closed. */
  method PointsToLines(points: seq<V2>, connectLastToFirst: bool) returns (lines: seq<Line>)
    ensures lines == Outline(points, connectLastToFirst)
  {
    var count := |points|;
    if count < 2 {
      return [];
    }
    var stop := if connectLastToFirst then count else count - 1;
    lines := [];
    var i := 0;
    while i < stop
      invariant 0 <= i <= stop
      invariant |lines| == i
      invariant forall k :: 0 <= k < i ==> lines[k] == Line(points[k], points[(k + 1) % count])
    {
      lines := lines + [Line(points[i], points[(i + 1) % count])];
      i := i + 1;
    }
    if connectLastToFirst {
      CyclicChain(points, lines);
    } else {
      OpenChain(points, lines);
    }
  }

  /** A closed outline has one segment per point; segment k starts at point
   *  k and ends where the next segment (cyclically) starts. */
  lemma ClosedOutline(points: seq<V2>)
    requires |points| >= 2
    ensures |Outline(points, true)| == |points|
    ensures var ls := Outline(points, true);
            forall k :: 0 <= k < |ls| ==>
              ls[k].start == points[k] && ls[k].end == ls[(k + 1) % |ls|].start
  {
    var ls := Chain(Closure(points));
    forall k | 0 <= k < |ls|
      ensures ls[k].start == points[k] && ls[k].end == ls[(k + 1) % |ls|].start
    {
      ClosedSegment(points, k);
    }
  }

  lemma ClosedSegment(points: seq<V2>, k: nat)
    requires 2 <= |points| && k < |points|
    ensures var ls := Chain(Closure(points));
            ls[k].start == points[k] && ls[k].end == ls[(k + 1) % |ls|].start
  {
    var c := Closure(points);
    CyclicNext(k, |points|);
    ChainAt(c, k);
    ChainAt(c, (k + 1) % |points|);
  }

  /** The open outline is the closed one without its closing segment, and
   *  runs from the first point to the last. */
  lemma OpenOutline(points: seq<V2>)
    requires |points| >= 2
    ensures Outline(points, false) == Outline(points, true)[..|points| - 1]
    ensures var ls := Outline(points, false);
            ls[0].start == points[0] && ls[|ls| - 1].end == points[|points| - 1]
  {
    ChainExtend(points, points[0]);
    ChainAt(points, 0);
    ChainAt(points, |points| - 2);
  }

  // ---------------------------------------------------------------------
  // TriangulateArea: the shoelace formula
  // ---------------------------------------------------------------------

  /** The sum of the cross products of each segment's endpoints. */
  function EdgeSum(ls: seq<Line>): real
  {
    if ls == [] then 0.0 else Cross(ls[0].start, ls[0].end) + EdgeSum(ls[1..])
  }

  /** Twice the signed area enclosed by the path through the points. */
  function ChainSum(ps: seq<V2>): real
  {
    EdgeSum(Chain(ps))
  }

  /** The signed area of the polygon (positive when counterclockwise), zero
   *  for fewer than three vertices: half the edge sum of its closed outline. */
  function SignedArea(vs: seq<V2>): real
  {
    if |vs| < 3 then 0.0 else ChainSum(Closure(vs)) * 0.5
  }

  lemma {:induction false} EdgeSumAppend(ls: seq<Line>, l: Line)
    ensures EdgeSum(ls + [l]) == EdgeSum(ls) + Cross(l.start, l.end)
  {
    if ls != [] {
      EdgeSumAppend(ls[1..], l);
      assert (ls + [l])[1..] == ls[1..] + [l];
    }
  }

  lemma ChainSumFront(p: V2, ps: seq<V2>)
    requires |ps| >= 1
    ensures ChainSum([p] + ps) == Cross(p, ps[0]) + ChainSum(ps)
  {
    assert ([p] + ps)[1..] == ps;
    var ls := Chain([p] + ps);
    assert ls == [Line(p, ps[0])] + Chain(ps);
    assert ls[1..] == Chain(ps);
  }

  lemma ChainSumBack(ps: seq<V2>, p: V2)
    requires |ps| >= 1
    ensures ChainSum(ps + [p]) == ChainSum(ps) + Cross(ps[|ps| - 1], p)
  {
    ChainExtend(ps, p);
    EdgeSumAppend(Chain(ps), Line(ps[|ps| - 1], p));
  }

  function Reverse<T>(s: seq<T>): (r: seq<T>)
    ensures |r| == |s|
  {
    if s == [] then [] else Reverse(s[1..]) + [s[0]]
  }

  lemma {:induction false} ReverseAt<T>(s: seq<T>, k: nat)
    requires k < |s|
    ensures Reverse(s)[k] == s[|s| - 1 - k]
  {
    if k < |s| - 1 {
      ReverseAt(s[1..], k);
    }
  }

  /** Walking the path backwards negates its edge sum. */
  lemma {:induction false} ChainSumReverse(ps: seq<V2>)
    ensures ChainSum(Reverse(ps)) == -ChainSum(ps)
  {
    if |ps| >= 2 {
      var t := ps[1..];
      assert ps == [ps[0]] + t;
      ChainSumReverse(t);
      ReverseAt(t, |t| - 1);
      ChainSumBack(Reverse(t), ps[0]);
      ChainSumFront(ps[0], t);
      CrossSwap(t[0], ps[0]);
    } else if |ps| == 1 {
      assert Reverse(ps) == ps;
    }
  }

  /** The area of the reversed polygon is the negated area. */
  lemma AreaReversed(vs: seq<V2>)
    ensures SignedArea(Reverse(vs)) == -SignedArea(vs)
  {
    if |vs| >= 3 {
      var r := Reverse(vs);
      ReverseAt(vs, 0);
      ReverseAt(vs, |vs| - 1);
      ChainSumBack(r, r[0]);
      ChainSumReverse(vs);
      ChainSumBack(vs, vs[0]);
      CrossSwap(vs[0], vs[|vs| - 1]);
    }
  }

  /** The area does not depend on which vertex the polygon starts at. */
  lemma AreaRotated(vs: seq<V2>)
    requires |vs| >= 1
    ensures SignedArea(vs[1..] + [vs[0]]) == SignedArea(vs)
  {
    if |vs| >= 3 {
      var a, t := vs[0], vs[1..];
      assert Closure(t + [a]) == (t + [a]) + [t[0]];
      ChainSumBack(t + [a], t[0]);
      assert Closure(vs) == [a] + (t + [a]);
      ChainSumFront(a, t + [a]);
    }
  }

  /** TriangulateArea: accumulates the cross product of each vertex with the
   *  next one, wrapping around, and halves the sum. */
  method TriangulateArea(vertices: seq<V2>) returns (area: real)
    ensures area == SignedArea(vertices)
  {
    var count := |vertices|;
    if count < 3 {
      return 0.0;
    }
    ghost var c := Closure(vertices);
    area := 0.0;
    var i := 0;
    while i < count
      invariant 0 <= i <= count
      invariant area == ChainSum(c[..i + 1])
    {
      var current := vertices[i];
      var next := vertices[(i + 1) % count];
      AreaStep(vertices, i);
      area := area + Cross(current, next);
      i := i + 1;
    }
    assert c[..count + 1] == c;
    area := area * 0.5;
  }

  lemma AreaStep(vs: seq<V2>, i: nat)
    requires i < |vs|
    ensures ChainSum(Closure(vs)[..i + 2]) == ChainSum(Closure(vs)[..i + 1]) + Cross(vs[i], vs[(i + 1) % |vs|])
  {
    var c := Closure(vs);
    var p := c[..i + 1];
    assert c[..i + 2] == p + [c[i + 1]];
    ClosureNext(vs, i);
    ChainSumBack(p, c[i + 1]);
  }

  lemma ClosureNext(vs: seq<V2>, i: nat)
    requires i < |vs|
    ensures Closure(vs)[..i + 1][i] == vs[i]
    ensures Closure(vs)[i + 1] == vs[(i + 1) % |vs|]
  {
    var c := vs + [vs[0]];
    assert Closure(vs) == c;
    assert c[..i + 1][i] == c[i];
    CyclicNext(i, |vs|);
    if i + 1 < |vs| {
      assert c[i + 1] == vs[i + 1];
    } else {
      assert c[i + 1] == vs[0];
    }
  }

  // ---------------------------------------------------------------------
  // Triangulate: ear clipping over an index list
  // ---------------------------------------------------------------------

  /** P lies on the inner side of (or on) all three edges of ABC. */
  predicate InsideTriangle(a: V2, b: V2, c: V2, p: V2)
  {
    Cross(Sub(c, b), Sub(p, b)) >= 0.0 && Cross(Sub(a, c), Sub(p, c)) >= 0.0 &&
    Cross(Sub(b, a), Sub(p, a)) >= 0.0
  }

  /** A triangle's own corners count as inside it exactly when it is not
   *  clockwise, which is why the snip test skips the three corner places. */
  lemma CornersInside(a: V2, b: V2, c: V2)
    ensures InsideTriangle(a, b, c, a) <==> Cross(Sub(b, a), Sub(c, a)) >= 0.0
    ensures InsideTriangle(a, b, c, b) <==> Cross(Sub(b, a), Sub(c, a)) >= 0.0
    ensures InsideTriangle(a, b, c, c) <==> Cross(Sub(b, a), Sub(c, a)) >= 0.0
  {
    assert Cross(Sub(c, b), Sub(a, b)) == Cross(Sub(b, a), Sub(c, a));
    assert Cross(Sub(a, c), Sub(b, c)) == Cross(Sub(b, a), Sub(c, a));
  }

  /** The snip test: positions u, v, w of the remaining index list form an
   *  ear when their triangle is not degenerate and no other remaining
   *  vertex lies inside it. */
  predicate IsEar(contour: seq<V2>, order: seq<nat>, u: nat, v: nat, w: nat, nearlyEqual: (real, real) -> bool)
    requires u < |order| && v < |order| && w < |order|
    requires forall k :: 0 <= k < |order| ==> order[k] < |contour|
  {
    var a, b, c := contour[order[u]], contour[order[v]], contour[order[w]];
    !nearlyEqual(Cross(Sub(b, a), Sub(c, a)), 0.0) &&
    forall p :: 0 <= p < |order| && p != u && p != v && p != w ==>
      !InsideTriangle(a, b, c, contour[order[p]])
  }

  /** For a counterclockwise candidate, no other remaining place may hold a
   *  copy of one of its corners. */
  lemma EarHasNoDuplicateCorner(contour: seq<V2>, order: seq<nat>, u: nat, v: nat, w: nat,
                                nearlyEqual: (real, real) -> bool, p: nat)
    requires u < |order| && v < |order| && w < |order|
    requires forall k :: 0 <= k < |order| ==> order[k] < |contour|
    requires IsEar(contour, order, u, v, w, nearlyEqual)
    requires Cross(Sub(contour[order[v]], contour[order[u]]), Sub(contour[order[w]], contour[order[u]])) > 0.0
    requires p < |order| && p != u && p != v && p != w
    ensures contour[order[p]] != contour[order[u]]
    ensures contour[order[p]] != contour[order[v]]
    ensures contour[order[p]] != contour[order[w]]
  {
    CornersInside(contour[order[u]], contour[order[v]], contour[order[w]]);
  }

  /** TriangulateSnip. */
  method TriangulateSnip(contour: seq<V2>, u: nat, v: nat, w: nat, n: nat, V: array<nat>,
                         nearlyEqual: (real, real) -> bool) returns (ear: bool)
    requires u < n && v < n && w < n && n <= V.Length
    requires forall k :: 0 <= k < n ==> V[k] < |contour|
    ensures ear == IsEar(contour, V[..n], u, v, w, nearlyEqual)
  {
    var a, b, c := contour[V[u]], contour[V[v]], contour[V[w]];
    if nearlyEqual(Cross(Sub(b, a), Sub(c, a)), 0.0) {
      return false;
    }
    var p := 0;
    while p < n
      invariant 0 <= p <= n
      invariant forall q :: 0 <= q < p && q != u && q != v && q != w ==> !InsideTriangle(a, b, c, contour[V[q]])
    {
      if p != u && p != v && p != w && InsideTriangle(a, b, c, contour[V[p]]) {
        assert V[..n][p] == V[p];
        return false;
      }
      p := p + 1;
    }
    return true;
  }

  function Range(n: nat): (r: seq<nat>)
    ensures |r| == n
    ensures forall k :: 0 <= k < n ==> r[k] == k
  {
    seq(n, k => k)
  }

  /** The vertices in the order an index list visits them. */
  function Visit(vs: seq<V2>, order: seq<nat>): (r: seq<V2>)
    requires forall k :: 0 <= k < |order| ==> order[k] < |vs|
    ensures |r| == |order|
  {
    seq(|order|, k requires 0 <= k < |order| => vs[order[k]])
  }

  /** The starting index list: every vertex in order when the polygon is
   *  counterclockwise, in reverse order otherwise. */
  function StartOrder(vs: seq<V2>): seq<nat>
  {
    if SignedArea(vs) > 0.0 then Range(|vs|) else Reverse(Range(|vs|))
  }

  lemma StartOrderAt(vs: seq<V2>, k: nat)
    requires k < |vs|
    ensures StartOrder(vs)[k] == if SignedArea(vs) > 0.0 then k else |vs| - 1 - k
  {
    if SignedArea(vs) <= 0.0 {
      ReverseAt(Range(|vs|), k);
    }
  }

  /** The starting index list names each vertex once, and visits the
   *  polygon counterclockwise (its signed area is not negative). */
  lemma StartOrderCounterclockwise(vs: seq<V2>)
    ensures |StartOrder(vs)| == |vs|
    ensures forall k :: 0 <= k < |vs| ==> StartOrder(vs)[k] < |vs|
    ensures forall i, j :: 0 <= i < j < |vs| ==> StartOrder(vs)[i] != StartOrder(vs)[j]
    ensures SignedArea(Visit(vs, StartOrder(vs))) >= 0.0
  {
    var order := StartOrder(vs);
    forall k | 0 <= k < |vs|
      ensures order[k] == if SignedArea(vs) > 0.0 then k else |vs| - 1 - k
    {
      StartOrderAt(vs, k);
    }
    var visited := Visit(vs, order);
    if SignedArea(vs) > 0.0 {
      assert visited == vs;
    } else {
      forall k | 0 <= k < |vs|
        ensures visited[k] == Reverse(vs)[k]
      {
        ReverseAt(vs, k);
      }
      assert visited == Reverse(vs);
      AreaReversed(vs);
    }
  }

  /** The index list V of Triangulate, as first filled. */
  method StartIndices(vertices: seq<V2>) returns (V: array<nat>)
    ensures fresh(V)
    ensures V[..] == StartOrder(vertices)
  {
    var n := |vertices|;
    V := new nat[n];
    var area := TriangulateArea(vertices);
    var v := 0;
    if area > 0.0 {
      while v < n
        invariant 0 <= v <= n
        invariant forall k :: 0 <= k < v ==> V[k] == k
      {
        V[v] := v;
        v := v + 1;
      }
    } else {
      while v < n
        invariant 0 <= v <= n
        invariant forall k :: 0 <= k < v ==> V[k] == n - 1 - k
      {
        V[v] := (n - 1) - v;
        v := v + 1;
      }
    }
    forall k | 0 <= k < n
      ensures V[k] == StartOrder(vertices)[k]
    {
      StartOrderAt(vertices, k);
    }
  }

  /** Removes position v of the first nv entries by shifting the later ones down. */
  method RemoveAt(V: array<nat>, v: nat, nv: nat)
    requires v < nv <= V.Length
    modifies V
    ensures forall k :: 0 <= k < v ==> V[k] == old(V[k])
    ensures forall k :: v <= k < nv - 1 ==> V[k] == old(V[k + 1])
    ensures forall k :: nv - 1 <= k < V.Length ==> V[k] == old(V[k])
  {
    var t := v + 1;
    while t < nv
      invariant v + 1 <= t <= nv
      invariant forall k :: 0 <= k < v ==> V[k] == old(V[k])
      invariant forall k :: v <= k < t - 1 ==> V[k] == old(V[k + 1])
      invariant forall k :: t - 1 <= k < V.Length ==> V[k] == old(V[k])
    {
      V[t - 1] := V[t];
      t := t + 1;
    }
  }

  /** The triangle cut off at three distinct vertex indices. */
  predicate Cuts(vs: seq<V2>, corner: (nat, nat, nat), t: Triangle)
  {
    corner.0 < |vs| && corner.1 < |vs| && corner.2 < |vs| &&
    corner.0 != corner.1 && corner.1 != corner.2 && corner.0 != corner.2 &&
    t == Triangle(vs[corner.0], vs[corner.1], vs[corner.2])
  }

  /** The state of the clipping loop: the first nv entries of V are
   *  distinct vertex indices, one triangle has been emitted per removed
   *  entry, and the middle corner of each is an index no longer listed
   *  and cut off only once. */
  ghost predicate Clipping(vs: seq<V2>, V: array<nat>, nv: nat, result: seq<Triangle>, corners: seq<(nat, nat, nat)>)
    reads V
  {
    2 <= nv <= |vs| == V.Length &&
    (forall k :: 0 <= k < nv ==> V[k] < |vs|) &&
    (forall i, j :: 0 <= i < j < nv ==> V[i] != V[j]) &&
    |result| == |corners| == |vs| - nv &&
    (forall j :: 0 <= j < |result| ==> Cuts(vs, corners[j], result[j])) &&
    (forall i, j :: 0 <= i < j < |corners| ==> corners[i].1 != corners[j].1) &&
    (forall j, k :: 0 <= j < |corners| && 0 <= k < nv ==> corners[j].1 != V[k])
  }

  /** One snip: emit the triangle at positions u, v, w and remove position v. */
  method CutEar(vs: seq<V2>, V: array<nat>, nv: nat, u: nat, v: nat, w: nat,
                result: seq<Triangle>, ghost corners: seq<(nat, nat, nat)>)
    returns (result': seq<Triangle>, ghost corners': seq<(nat, nat, nat)>)
    requires Clipping(vs, V, nv, result, corners) && nv > 2
    requires u < nv && v < nv && w < nv && u != v && v != w && u != w
    modifies V
    ensures Clipping(vs, V, nv - 1, result', corners')
    ensures result' == result + [Triangle(vs[old(V[u])], vs[old(V[v])], vs[old(V[w])])]
    ensures corners' == corners + [(old(V[u]), old(V[v]), old(V[w]))]
  {
    var a, b, c := V[u], V[v], V[w];
    result' := result + [Triangle(vs[a], vs[b], vs[c])];
    corners' := corners + [(a, b, c)];
    RemoveAt(V, v, nv);
  }

  /** The three consecutive places tried next: u is the previous middle
   *  (or 0 once past the end), v and w follow it cyclically. */
  method NextCorners(prev: nat, nv: nat) returns (u: nat, v: nat, w: nat)
    requires nv > 2
    ensures u == (if prev < nv then prev else 0)
    ensures v == (u + 1) % nv && w == (v + 1) % nv
    ensures u < nv && v < nv && w < nv && u != v && v != w && u != w
  {
    u := prev;
    if nv <= u {
      u := 0;
    }
    v := u + 1;
    if nv <= v {
      v := 0;
    }
    w := v + 1;
    if nv <= w {
      w := 0;
    }
    CyclicNext(u, nv);
    CyclicNext(v, nv);
  }

  lemma CyclicNext(k: nat, n: nat)
    requires k < n
    ensures (k + 1) % n == if k + 1 < n then k + 1 else 0
  {
  }

  /** Triangulate: ear clipping. Fewer than three vertices give no
   *  triangles; otherwise each snip emits the triangle of three remaining
   *  vertices and removes the middle one from the index list, and the
   *  loop gives up (keeping what it has) after 2 * nv fruitless tries. The
   *  corners of each triangle are the ghost result: distinct indices, and
   *  no middle index is cut twice, so there are at most n - 2 triangles. */
  method Triangulate(vertices: seq<V2>, nearlyEqual: (real, real) -> bool)
    returns (result: seq<Triangle>, ghost corners: seq<(nat, nat, nat)>)
    ensures |vertices| < 3 ==> result == []
    ensures |vertices| >= 3 ==> |result| <= |vertices| - 2
    ensures forall t :: t in result ==> t.a in vertices && t.b in vertices && t.c in vertices
    ensures |corners| == |result|
    ensures forall j :: 0 <= j < |result| ==> Cuts(vertices, corners[j], result[j])
    ensures forall i, j :: 0 <= i < j < |corners| ==> corners[i].1 != corners[j].1
  {
    result := [];
    corners := [];
    var n := |vertices|;
    if n < 3 {
      return;
    }
    var V := StartIndices(vertices);
    StartOrderCounterclockwise(vertices);
    var nv := n;
    var rCount: int := 2 * nv;
    var v: nat := nv - 1;
    while nv > 2
      invariant Clipping(vertices, V, nv, result, corners)
      invariant rCount >= -1
      decreases nv, rCount + 1
    {
      if 0 > rCount {
        CutsMembers(vertices, result, corners);
        return;
      }
      rCount := rCount - 1;
      var u, w;
      u, v, w := NextCorners(v, nv);
      var ear := TriangulateSnip(vertices, u, v, w, nv, V, nearlyEqual);
      if ear {
        result, corners := CutEar(vertices, V, nv, u, v, w, result, corners);
        nv := nv - 1;
        rCount := 2 * nv;
      }
    }
    CutsMembers(vertices, result, corners);
  }

  lemma CutsMembers(vs: seq<V2>, ts: seq<Triangle>, corners: seq<(nat, nat, nat)>)
    requires |corners| == |ts|
    requires forall j :: 0 <= j < |ts| ==> Cuts(vs, corners[j], ts[j])
    ensures forall t :: t in ts ==> t.a in vs && t.b in vs && t.c in vs
  {
    forall t | t in ts
      ensures t.a in vs && t.b in vs && t.c in vs
    {
      var j :| 0 <= j < |ts| && ts[j] == t;
      assert Cuts(vs, corners[j], ts[j]);
    }
  }

  // ---------------------------------------------------------------------
  // GetOrientation
  // ---------------------------------------------------------------------

  function Abs(a: real): real { if a < 0.0 then -a else a }

  function Max(a: real, b: real): real { if a < b then b else a }

  /** The tolerance scaled by the larger magnitude. */
  function Scaled(m: real, epsilon: real): real { m * epsilon }

  /** a is below b by more than the relative tolerance epsilon. */
  predicate StrictlyLess(a: real, b: real, epsilon: real)
  {
    b - a > Scaled(Max(Abs(a), Abs(b)), epsilon)
  }

  /** The turn from a through b to c, as the integer the orientation enum is
   *  cast from: 1 when the determinant is clearly positive, -1 when it is
   *  clearly negative, 0 otherwise. */
  function GetOrientation(a: V2, b: V2, c: V2, epsilon: real): (r: int)
    ensures -1 <= r <= 1
  {
    var det := Cross(Sub(b, a), Sub(c, a));
    (if StrictlyLess(0.0, det, epsilon) then 1 else 0) - (if StrictlyLess(det, 0.0, epsilon) then 1 else 0)
  }

  lemma ScaleBelow(d: real, epsilon: real)
    requires d > 0.0 && 0.0 <= epsilon < 1.0
    ensures 0.0 <= Scaled(d, epsilon) < d
  {
    assert d * epsilon < d * 1.0;
    assert d * epsilon >= d * 0.0;
  }

  /** With a tolerance in [0, 1), "clearly above zero" and "clearly below
   *  zero" are just the sign. */
  lemma StrictlyLessZero(d: real, epsilon: real)
    requires 0.0 <= epsilon < 1.0
    ensures StrictlyLess(0.0, d, epsilon) <==> d > 0.0
    ensures StrictlyLess(d, 0.0, epsilon) <==> d < 0.0
  {
    if d > 0.0 {
      assert Max(Abs(0.0), Abs(d)) == d && Max(Abs(d), Abs(0.0)) == d;
      ScaleBelow(d, epsilon);
    } else if d < 0.0 {
      assert Max(Abs(0.0), Abs(d)) == -d && Max(Abs(d), Abs(0.0)) == -d;
      ScaleBelow(-d, epsilon);
    } else {
      assert Scaled(0.0, epsilon) == 0.0;
    }
  }

  /** With a tolerance in [0, 1) the orientation is the sign of the
   *  determinant, in both directions. */
  lemma OrientationSign(a: V2, b: V2, c: V2, epsilon: real)
    requires 0.0 <= epsilon < 1.0
    ensures var det := Cross(Sub(b, a), Sub(c, a));
            (GetOrientation(a, b, c, epsilon) == 1 <==> det > 0.0) &&
            (GetOrientation(a, b, c, epsilon) == -1 <==> det < 0.0) &&
            (GetOrientation(a, b, c, epsilon) == 0 <==> det == 0.0)
  {
    StrictlyLessZero(Cross(Sub(b, a), Sub(c, a)), epsilon);
  }

  /** Swapping the last two points flips the orientation, for any tolerance. */
  lemma OrientationSwap(a: V2, b: V2, c: V2, epsilon: real)
    ensures GetOrientation(a, c, b, epsilon) == -GetOrientation(a, b, c, epsilon)
  {
    var det := Cross(Sub(b, a), Sub(c, a));
    CrossSwap(Sub(b, a), Sub(c, a));
    assert Max(Abs(0.0), Abs(-det)) == Max(Abs(det), Abs(0.0));
  }

  /** Starting the turn at another of the three points keeps the orientation. */
  lemma OrientationRotate(a: V2, b: V2, c: V2, epsilon: real)
    ensures GetOrientation(b, c, a, epsilon) == GetOrientation(a, b, c, epsilon)
  {
    assert Cross(Sub(c, b), Sub(a, b)) == Cross(Sub(b, a), Sub(c, a));
  }

  // ---------------------------------------------------------------------
  // GetVisibilityTriangles
  // ---------------------------------------------------------------------

  /** The triangles joining the origin to each segment. */
  function Fan(origin: V2, ls: seq<Line>): (r: seq<Triangle>)
    ensures |r| == |ls|
  {
    if ls == [] then [] else [Triangle(origin, ls[0].start, ls[0].end)] + Fan(origin, ls[1..])
  }

  lemma {:induction false} FanAt(origin: V2, ls: seq<Line>, k: nat)
    requires k < |ls|
    ensures Fan(origin, ls)[k] == Triangle(origin, ls[k].start, ls[k].end)
  {
    if k > 0 {
      FanAt(origin, ls[1..], k - 1);
    }
  }

  lemma FanFrom(origin: V2, ps: seq<V2>, ts: seq<Triangle>)
    requires |ps| >= 2 && |ts| == |ps|
    requires forall k :: 0 <= k < |ts| ==> ts[k] == Triangle(origin, ps[k], ps[(k + 1) % |ps|])
    ensures ts == Fan(origin, Outline(ps, true))
  {
    var ls := Outline(ps, true);
    ClosedOutline(ps);
    forall k | 0 <= k < |ts|
      ensures ts[k] == Fan(origin, ls)[k]
    {
      FanAt(origin, ls, k);
      assert ls[(k + 1) % |ls|].start == ps[(k + 1) % |ps|];
    }
  }

  /** GetVisibilityTriangles over an already computed visibility polygon:
   *  nothing for fewer than three points, otherwise the fan from the
   *  origin over the polygon's closed outline. */
  method GetVisibilityTriangles(origin: V2, polygon: seq<V2>) returns (triangles: seq<Triangle>)
    ensures triangles == if |polygon| < 3 then [] else Fan(origin, Outline(polygon, true))
  {
    if |polygon| < 3 {
      return [];
    }
    triangles := [];
    var i := 0;
    while i < |polygon|
      invariant 0 <= i <= |polygon|
      invariant |triangles| == i
      invariant forall k :: 0 <= k < i ==> triangles[k] == Triangle(origin, polygon[k], polygon[(k + 1) % |polygon|])
    {
      var a := polygon[i];
      var b := polygon[(i + 1) % |polygon|];
      triangles := triangles + [Triangle(origin, a, b)];
      i := i + 1;
    }
    FanFrom(origin, polygon, triangles);
  }

  /** The fan has one triangle per polygon point, each with its apex at the
   *  origin, and each shares its far edge point with the next triangle. */
  lemma FanCloses(origin: V2, polygon: seq<V2>)
    requires |polygon| >= 3
    ensures var ts := Fan(origin, Outline(polygon, true));
            |ts| == |polygon| &&
            forall k :: 0 <= k < |ts| ==>
              ts[k].a == origin && ts[k].b == polygon[k] && ts[k].c == ts[(k + 1) % |ts|].b
  {
    var ls := Outline(polygon, true);
    ClosedOutline(polygon);
    var ts := Fan(origin, ls);
    forall k | 0 <= k < |ts|
      ensures ts[k].a == origin && ts[k].b == polygon[k] && ts[k].c == ts[(k + 1) % |ts|].b
    {
      FanAt(origin, ls, k);
      FanAt(origin, ls, (k + 1) % |ts|);
    }
  }
}
