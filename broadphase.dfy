/**
 * The broadphase k-d tree of demos/broadphase/src/application.cpp: the
 * axis-aligned bounding boxes, the tree of KDNode (objects on the leaves,
 * a split axis and value on the inner nodes), and the KDTree that keeps
 * the entities' current boxes in entity_map, the entities changed this
 * frame in moved_entities, and brings the tree up to date at the end of
 * the frame, by a full rebuild or a partial update.
 *
 * A node is owned by its parent alone (std::unique_ptr), so the tree is a
 * value here: an operation that changes nodes in place returns the new
 * tree, and a leaf is named by its path from the root. Floats are `real`.
 */
module Broadphase {
  import opened Wrappers

  // ---------------------------------------------------------------------
  // BoundingAABB
  // ---------------------------------------------------------------------

  datatype AABB = AABB(minX: real, minY: real, maxX: real, maxY: real)

  /** BoundingAABB::Overlaps: neither box lies wholly on one side of the other. */
  predicate Overlaps(a: AABB, b: AABB)
  {
    !(a.maxX < b.minX || a.minX > b.maxX || a.maxY < b.minY || a.minY > b.maxY)
  }

  predicate WellFormed(a: AABB)
  {
    a.minX <= a.maxX && a.minY <= a.maxY
  }

  /** The closed box holds the point. */
  predicate Holds(a: AABB, x: real, y: real)
  {
    a.minX <= x <= a.maxX && a.minY <= y <= a.maxY
  }

  function Max(a: real, b: real): real
  {
    if a < b then b else a
  }

  function Min(a: real, b: real): real
  {
    if a < b then a else b
  }

  /** Two well-formed boxes overlap exactly when some point lies in both
   *  closed boxes, so the test is symmetric. */
  lemma OverlapsIffCommonPoint(a: AABB, b: AABB)
    requires WellFormed(a) && WellFormed(b)
    ensures Overlaps(a, b) <==> exists x, y :: Holds(a, x, y) && Holds(b, x, y)
    ensures Overlaps(a, b) == Overlaps(b, a)
  {
    if Overlaps(a, b) {
      var x, y := Max(a.minX, b.minX), Max(a.minY, b.minY);
      assert Holds(a, x, y) && Holds(b, x, y);
    }
  }

  // ---------------------------------------------------------------------
  // Objects, axes and centres
  // ---------------------------------------------------------------------

  /** KDObject: an entity, its box, and the flag of a lazy removal. */
  datatype KDObject = KDObject(entity: nat, aabb: AABB, deleted: bool)

  datatype Axis = X | Y

  /** static_cast<KDAxis>(depth % 2) */
  function AxisAt(depth: nat): Axis
  {
    if depth % 2 == 0 then X else Y
  }

  /** GetObjectSplitValue: the centre of the box on the axis. */
  function Center(o: KDObject, axis: Axis): real
  {
    match axis
    case X => (o.aabb.minX + o.aabb.maxX) * 0.5
    case Y => (o.aabb.minY + o.aabb.maxY) * 0.5
  }

  function Centers(objs: seq<KDObject>, axis: Axis): (cs: seq<real>)
    ensures |cs| == |objs| && forall i :: 0 <= i < |objs| ==> cs[i] == Center(objs[i], axis)
  {
    seq(|objs|, i requires 0 <= i < |objs| => Center(objs[i], axis))
  }

  // ---------------------------------------------------------------------
  // std::nth_element
  // ---------------------------------------------------------------------

  predicate SortedReals(s: seq<real>)
  {
    forall i, j :: 0 <= i < j < |s| ==> s[i] <= s[j]
  }

  function InsertReal(x: real, s: seq<real>): (r: seq<real>)
    requires SortedReals(s)
    ensures SortedReals(r) && multiset(r) == multiset(s) + multiset{x}
  {
    if s == [] then [x]
    else if x <= s[0] then [x] + s
    else
      var rest := InsertReal(x, s[1..]);
      assert s == [s[0]] + s[1..];
      FrontBelow(s[0], x, s[1..], rest);
      [s[0]] + rest
  }

  /** Putting the front of a sorted sequence back before the sorted
   *  insertion of a larger value into its tail keeps it sorted. */
  lemma FrontBelow(a: real, x: real, t: seq<real>, rest: seq<real>)
    requires SortedReals([a] + t) && a < x
    requires SortedReals(rest) && multiset(rest) == multiset(t) + multiset{x}
    ensures SortedReals([a] + rest)
  {
    forall k | 0 <= k < |rest|
      ensures a <= rest[k]
    {
      assert rest[k] in multiset(rest);
      if rest[k] != x {
        assert rest[k] in multiset(t);
        var j :| 0 <= j < |t| && t[j] == rest[k];
        assert ([a] + t)[0] == a && ([a] + t)[j + 1] == t[j];
      }
    }
    forall i, j | 0 <= i < j < |[a] + rest|
      ensures ([a] + rest)[i] <= ([a] + rest)[j]
    {
      if i > 0 {
        assert ([a] + rest)[i] == rest[i - 1];
      }
      assert ([a] + rest)[j] == rest[j - 1];
    }
  }

  /** The values in ascending order. */
  function SortReals(s: seq<real>): (r: seq<real>)
    ensures SortedReals(r) && multiset(r) == multiset(s)
  {
    if s == [] then []
    else
      assert s == [s[0]] + s[1..];
      InsertReal(s[0], SortReals(s[1..]))
  }

  /** The value nth_element puts at position k: the k-th smallest. */
  function NthElement(cs: seq<real>, k: nat): (v: real)
    requires k < |cs|
    ensures v in cs
  {
    var sorted := SortReals(cs);
    assert |sorted| == |multiset(sorted)| == |multiset(cs)| == |cs|;
    assert sorted[k] in multiset(sorted);
    sorted[k]
  }

  // ---------------------------------------------------------------------
  // The split
  // ---------------------------------------------------------------------

  /** The objects whose centre is below the split value, in order. */
  function Below(objs: seq<KDObject>, axis: Axis, v: real): seq<KDObject>
  {
    if objs == [] then []
    else (if Center(objs[0], axis) < v then [objs[0]] else []) + Below(objs[1..], axis, v)
  }

  /** The objects whose centre is at or above the split value, in order. */
  function AtOrAbove(objs: seq<KDObject>, axis: Axis, v: real): seq<KDObject>
  {
    if objs == [] then []
    else (if Center(objs[0], axis) < v then [] else [objs[0]]) + AtOrAbove(objs[1..], axis, v)
  }

  /** Each object goes to exactly one side. */
  lemma {:induction false} SplitPartitions(objs: seq<KDObject>, axis: Axis, v: real)
    ensures multiset(Below(objs, axis, v)) + multiset(AtOrAbove(objs, axis, v)) == multiset(objs)
    ensures |Below(objs, axis, v)| + |AtOrAbove(objs, axis, v)| == |objs|
  {
    if objs != [] {
      SplitPartitions(objs[1..], axis, v);
      assert objs == [objs[0]] + objs[1..];
    }
  }

  /** Each side holds only objects whose centre is on that side of the value. */
  lemma {:induction false} SidesBound(objs: seq<KDObject>, axis: Axis, v: real)
    ensures forall o :: o in Below(objs, axis, v) ==> Center(o, axis) < v
    ensures forall o :: o in AtOrAbove(objs, axis, v) ==> v <= Center(o, axis)
  {
    if objs != [] {
      SidesBound(objs[1..], axis, v);
    }
  }

  /** An object whose centre is the split value goes to the upper side. */
  lemma {:induction false} AtOrAboveHolds(objs: seq<KDObject>, axis: Axis, i: nat)
    requires i < |objs|
    ensures AtOrAbove(objs, axis, Center(objs[i], axis)) != []
  {
    if i > 0 {
      AtOrAboveHolds(objs[1..], axis, i - 1);
    }
  }

  /** The split of a node of more than one object at its median centre
   *  never leaves the upper side empty. */
  lemma MedianUpperSide(objs: seq<KDObject>, axis: Axis)
    requires |objs| > 0
    ensures AtOrAbove(objs, axis, NthElement(Centers(objs, axis), |objs| / 2)) != []
  {
    var cs := Centers(objs, axis);
    var v := NthElement(cs, |objs| / 2);
    var i :| 0 <= i < |cs| && cs[i] == v;
    AtOrAboveHolds(objs, axis, i);
  }

  /** When no centre on the axis is below the value, the upper side is everything. */
  lemma {:induction false} NoneBelow(objs: seq<KDObject>, axis: Axis, c: real)
    requires forall o :: o in objs ==> c <= Center(o, axis)
    ensures AtOrAbove(objs, axis, c) == objs && Below(objs, axis, c) == []
  {
    if objs != [] {
      NoneBelow(objs[1..], axis, c);
      assert objs == [objs[0]] + objs[1..];
    }
  }

  /** Sorting a sorted sequence changes nothing. */
  lemma {:induction false} SortSorted(s: seq<real>)
    requires SortedReals(s)
    ensures SortReals(s) == s
  {
    if s != [] {
      SortSorted(s[1..]);
      assert s == [s[0]] + s[1..];
    }
  }

  /** nth_element of sorted values is the value at that position. */
  lemma MedianOfSorted(cs: seq<real>, k: nat)
    requires SortedReals(cs) && k < |cs|
    ensures NthElement(cs, k) == cs[k]
  {
    SortSorted(cs);
  }

  // ---------------------------------------------------------------------
  // KDNode
  // ---------------------------------------------------------------------

  /** A missing child (nullptr), or a node: a leaf holds objects and has no
   *  children. */
  datatype Tree = Nil | Node(axis: Axis, split: real, objects: seq<KDObject>, left: Tree, right: Tree)

  predicate IsLeaf(t: Tree)
  {
    t.Node? && t.left.Nil? && t.right.Nil?
  }

  /** A leaf as the build makes it; its split value stays 0. */
  function Leaf(axis: Axis, objs: seq<KDObject>): Tree
  {
    Node(axis, 0.0, objs, Nil, Nil)
  }

  /** The objects stored in the tree: each node's, then its left and right
   *  subtrees'. */
  function AllObjects(t: Tree): seq<KDObject>
  {
    match t
    case Nil => []
    case Node(_, _, objs, l, r) => objs + AllObjects(l) + AllObjects(r)
  }

  /** Every object below an inner node is on the side its split sends it to. */
  predicate Partitioned(t: Tree)
  {
    match t
    case Nil => true
    case Node(axis, v, _, l, r) =>
      IsLeaf(t) ||
      ((forall o :: o in AllObjects(l) ==> Center(o, axis) < v) &&
       (forall o :: o in AllObjects(r) ==> v <= Center(o, axis)) &&
       Partitioned(l) && Partitioned(r))
  }

  /** Every inner node has both children and no objects of its own. */
  predicate Full(t: Tree)
  {
    match t
    case Nil => true
    case Node(_, _, objs, l, r) => IsLeaf(t) || (l.Node? && r.Node? && objs == [] && Full(l) && Full(r))
  }

  // ---------------------------------------------------------------------
  // BuildRecursive
  // ---------------------------------------------------------------------

  /** The two object lists BuildRecursive recurses on when a node has more
   *  than maxObjects objects: those below and those at or above the
   *  median centre on the depth's axis. */
  function SplitAsWritten(objs: seq<KDObject>, depth: nat): (r: (seq<KDObject>, seq<KDObject>))
    requires |objs| > 0
  {
    var axis := AxisAt(depth);
    var v := NthElement(Centers(objs, axis), |objs| / 2);
    (Below(objs, axis, v), AtOrAbove(objs, axis, v))
  }

  /** As written, a node of more than maxObjects objects that all have the
   *  same box recurses on all of them again, on either axis, so the
   *  recursion never reaches a leaf. */
  lemma SameBoxesRecurseAsWritten(objs: seq<KDObject>, depth: nat)
    requires |objs| > 0 && forall i :: 0 <= i < |objs| ==> objs[i].aabb == objs[0].aabb
    ensures SplitAsWritten(objs, depth) == ([], objs)
  {
    var axis := AxisAt(depth);
    var c := Center(objs[0], axis);
    assert forall o :: o in objs ==> Center(o, axis) == c;
    var cs := Centers(objs, axis);
    assert forall x :: x in cs ==> x == c;
    NoneBelow(objs, axis, c);
  }

  /** Two objects with the same box, with at most one object per leaf. */
  lemma TwinBoxesRecurseAsWritten(a: AABB)
    ensures var objs := [KDObject(1, a, false), KDObject(2, a, false)];
            |objs| > 1 && forall depth: nat :: SplitAsWritten(objs, depth).1 == objs
  {
    var objs := [KDObject(1, a, false), KDObject(2, a, false)];
    forall depth: nat
      ensures SplitAsWritten(objs, depth).1 == objs
    {
      SameBoxesRecurseAsWritten(objs, depth);
    }
  }

  /** BuildRecursive as written, with a bound on the depth of its
   *  recursion: None when the bound runs out. A split whose lower side is
   *  empty leaves the node without a left child and recurses on all the
   *  objects one level deeper, on the other axis. */
  function BuildAsWritten(objs: seq<KDObject>, depth: nat, maxObjects: nat, fuel: nat): (r: Option<Tree>)
    decreases fuel
    ensures r.Some? && objs != [] ==> r.value.Node? && r.value.axis == AxisAt(depth)
  {
    if objs == [] then Some(Nil)
    else
      var axis := AxisAt(depth);
      if |objs| <= maxObjects then Some(Leaf(axis, objs))
      else if fuel == 0 then None
      else
        var v := NthElement(Centers(objs, axis), |objs| / 2);
        var (l, r) := SplitAsWritten(objs, depth);
        match (BuildAsWritten(l, depth + 1, maxObjects, fuel - 1), BuildAsWritten(r, depth + 1, maxObjects, fuel - 1))
        case (Some(lt), Some(rt)) => Some(Node(axis, v, [], lt, rt))
        case _ => None
  }

  /** As written, two objects with one box and one object per leaf build
   *  no tree within any bound: the recursion does not end. */
  lemma {:induction false} TwinBoxesNeverBuildAsWritten(a: AABB, depth: nat, fuel: nat)
    decreases fuel
    ensures BuildAsWritten([KDObject(1, a, false), KDObject(2, a, false)], depth, 1, fuel).None?
  {
    var objs := [KDObject(1, a, false), KDObject(2, a, false)];
    if fuel > 0 {
      SameBoxesRecurseAsWritten(objs, depth);
      TwinBoxesNeverBuildAsWritten(a, depth + 1, fuel - 1);
    }
  }

  /** BuildRecursive: no node for no objects; a leaf for at most maxObjects
   *  objects; otherwise an inner node split at the median centre on the
   *  depth's axis. A split that would send every object to the upper side
   *  keeps the objects in a leaf instead, which the source does not do. */
  function BuildTree(objs: seq<KDObject>, depth: nat, maxObjects: nat): (t: Tree)
    decreases |objs|
  {
    if objs == [] then Nil
    else
      var axis := AxisAt(depth);
      if |objs| <= maxObjects then Leaf(axis, objs)
      else
        var v := NthElement(Centers(objs, axis), |objs| / 2);
        var l := Below(objs, axis, v);
        var r := AtOrAbove(objs, axis, v);
        if l == [] then Leaf(axis, objs)
        else
          SplitPartitions(objs, axis, v);
          MedianUpperSide(objs, axis);
          Node(axis, v, [], BuildTree(l, depth + 1, maxObjects), BuildTree(r, depth + 1, maxObjects))
  }

  /** The built tree stores exactly the given objects, each once; its
   *  inner nodes send each object to the side of its centre, have both
   *  children, and hold nothing themselves. */
  lemma {:induction false} BuildTreeHolds(objs: seq<KDObject>, depth: nat, maxObjects: nat)
    decreases |objs|
    ensures var t := BuildTree(objs, depth, maxObjects);
            multiset(AllObjects(t)) == multiset(objs) && Partitioned(t) && Full(t)
  {
    if objs != [] && |objs| > maxObjects {
      var axis := AxisAt(depth);
      var v := NthElement(Centers(objs, axis), |objs| / 2);
      var l := Below(objs, axis, v);
      var r := AtOrAbove(objs, axis, v);
      if l != [] {
        SplitPartitions(objs, axis, v);
        SidesBound(objs, axis, v);
        MedianUpperSide(objs, axis);
        BuildTreeHolds(l, depth + 1, maxObjects);
        BuildTreeHolds(r, depth + 1, maxObjects);
        var lt, rt := BuildTree(l, depth + 1, maxObjects), BuildTree(r, depth + 1, maxObjects);
        assert BuildTree(objs, depth, maxObjects) == Node(axis, v, [], lt, rt);
        InnerNodeHolds(axis, v, l, r, lt, rt);
      }
    }
  }

  /** An inner node over two subtrees that hold the two sides of a split. */
  lemma InnerNodeHolds(axis: Axis, v: real, l: seq<KDObject>, r: seq<KDObject>, lt: Tree, rt: Tree)
    requires l != [] && r != [] && multiset(AllObjects(lt)) == multiset(l) && multiset(AllObjects(rt)) == multiset(r)
    requires forall o :: o in l ==> Center(o, axis) < v
    requires forall o :: o in r ==> v <= Center(o, axis)
    requires Partitioned(lt) && Partitioned(rt) && Full(lt) && Full(rt)
    ensures var t := Node(axis, v, [], lt, rt);
            multiset(AllObjects(t)) == multiset(l) + multiset(r) && Partitioned(t) && Full(t)
  {
    SideBelow(l, lt, axis, v);
    SideAbove(r, rt, axis, v);
    assert lt.Node? by { assert l[0] in multiset(l); }
    assert rt.Node? by { assert r[0] in multiset(r); }
    InnerObjects(axis, v, lt, rt);
  }

  lemma InnerObjects(axis: Axis, v: real, lt: Tree, rt: Tree)
    ensures AllObjects(Node(axis, v, [], lt, rt)) == AllObjects(lt) + AllObjects(rt)
  {
    assert [] + AllObjects(lt) == AllObjects(lt);
  }

  lemma SideBelow(objs: seq<KDObject>, t: Tree, axis: Axis, v: real)
    requires multiset(AllObjects(t)) == multiset(objs) && forall o :: o in objs ==> Center(o, axis) < v
    ensures forall o :: o in AllObjects(t) ==> Center(o, axis) < v
  {
    forall o | o in AllObjects(t)
      ensures Center(o, axis) < v
    {
      assert o in multiset(AllObjects(t));
    }
  }

  lemma SideAbove(objs: seq<KDObject>, t: Tree, axis: Axis, v: real)
    requires multiset(AllObjects(t)) == multiset(objs) && forall o :: o in objs ==> v <= Center(o, axis)
    ensures forall o :: o in AllObjects(t) ==> v <= Center(o, axis)
  {
    forall o | o in AllObjects(t)
      ensures v <= Center(o, axis)
    {
      assert o in multiset(AllObjects(t));
    }
  }

  /** No objects give no node and at most maxObjects objects one leaf; a
   *  larger set is a leaf only when its median split leaves the lower
   *  side empty, and then the leaf holds them all. */
  lemma BuildTreeLeaf(objs: seq<KDObject>, depth: nat, maxObjects: nat)
    ensures var t := BuildTree(objs, depth, maxObjects);
            (objs == [] <==> t.Nil?) &&
            (0 < |objs| <= maxObjects ==> t == Leaf(AxisAt(depth), objs)) &&
            (|objs| > maxObjects && IsLeaf(t) ==>
               t.objects == objs && Below(objs, AxisAt(depth), NthElement(Centers(objs, AxisAt(depth)), |objs| / 2)) == [])
  {
    var t := BuildTree(objs, depth, maxObjects);
    if |objs| > maxObjects && t.Node? {
      var axis := AxisAt(depth);
      var v := NthElement(Centers(objs, axis), |objs| / 2);
      if Below(objs, axis, v) != [] {
        SplitPartitions(objs, axis, v);
        MedianUpperSide(objs, axis);
        BuildTreeHolds(Below(objs, axis, v), depth + 1, maxObjects);
        assert t.left == BuildTree(Below(objs, axis, v), depth + 1, maxObjects);
      }
    }
  }

  // ---------------------------------------------------------------------
  // The two loops of BuildRecursive and SplitNodeExternal
  // ---------------------------------------------------------------------

  lemma {:induction false} BelowConcat(a: seq<KDObject>, b: seq<KDObject>, axis: Axis, v: real)
    ensures Below(a + b, axis, v) == Below(a, axis, v) + Below(b, axis, v)
  {
    if a == [] {
      assert a + b == b;
    } else {
      var h := if Center(a[0], axis) < v then [a[0]] else [];
      assert (a + b)[0] == a[0] && (a + b)[1..] == a[1..] + b;
      calc {
        Below(a + b, axis, v);
        h + Below(a[1..] + b, axis, v);
        { BelowConcat(a[1..], b, axis, v); }
        h + (Below(a[1..], axis, v) + Below(b, axis, v));
        Below(a, axis, v) + Below(b, axis, v);
      }
    }
  }

  lemma {:induction false} AtOrAboveConcat(a: seq<KDObject>, b: seq<KDObject>, axis: Axis, v: real)
    ensures AtOrAbove(a + b, axis, v) == AtOrAbove(a, axis, v) + AtOrAbove(b, axis, v)
  {
    if a == [] {
      assert a + b == b;
    } else {
      var h := if Center(a[0], axis) < v then [] else [a[0]];
      assert (a + b)[0] == a[0] && (a + b)[1..] == a[1..] + b;
      calc {
        AtOrAbove(a + b, axis, v);
        h + AtOrAbove(a[1..] + b, axis, v);
        { AtOrAboveConcat(a[1..], b, axis, v); }
        h + (AtOrAbove(a[1..], axis, v) + AtOrAbove(b, axis, v));
        AtOrAbove(a, axis, v) + AtOrAbove(b, axis, v);
      }
    }
  }

  lemma SplitStep(objs: seq<KDObject>, i: nat, axis: Axis, v: real)
    requires i < |objs|
    ensures Below(objs[..i + 1], axis, v) == Below(objs[..i], axis, v) + (if Center(objs[i], axis) < v then [objs[i]] else [])
    ensures AtOrAbove(objs[..i + 1], axis, v) == AtOrAbove(objs[..i], axis, v) + (if Center(objs[i], axis) < v then [] else [objs[i]])
  {
    assert objs[..i + 1] == objs[..i] + [objs[i]];
    BelowConcat(objs[..i], [objs[i]], axis, v);
    AtOrAboveConcat(objs[..i], [objs[i]], axis, v);
  }

  /** The centres of the objects on the axis, one by one. */
  method ComputeCenters(objs: seq<KDObject>, axis: Axis) returns (cs: seq<real>)
    ensures cs == Centers(objs, axis)
  {
    cs := [];
    for i := 0 to |objs|
      invariant |cs| == i && forall k :: 0 <= k < i ==> cs[k] == Center(objs[k], axis)
    {
      cs := cs + [Center(objs[i], axis)];
    }
  }

  /** The loop that sends each object to the left list when its centre is
   *  below the split value and to the right list otherwise. */
  method Partition(objs: seq<KDObject>, axis: Axis, v: real) returns (left: seq<KDObject>, right: seq<KDObject>)
    ensures left == Below(objs, axis, v) && right == AtOrAbove(objs, axis, v)
  {
    left, right := [], [];
    for i := 0 to |objs|
      invariant left == Below(objs[..i], axis, v) && right == AtOrAbove(objs[..i], axis, v)
    {
      SplitStep(objs, i, axis, v);
      if Center(objs[i], axis) < v {
        left := left + [objs[i]];
      } else {
        right := right + [objs[i]];
      }
    }
    assert objs[..|objs|] == objs;
  }

  /** BuildRecursive, with the leaf kept when the lower side is empty. */
  method BuildRecursive(objs: seq<KDObject>, depth: nat, maxObjects: nat) returns (t: Tree)
    decreases |objs|
    ensures t == BuildTree(objs, depth, maxObjects)
  {
    if objs == [] {
      return Nil;
    }
    var axis := AxisAt(depth);
    if |objs| <= maxObjects {
      return Leaf(axis, objs);
    }
    var cs := ComputeCenters(objs, axis);
    var v := NthElement(cs, |objs| / 2);
    var l, r := Partition(objs, axis, v);
    if l == [] {
      return Leaf(axis, objs);
    }
    SplitPartitions(objs, axis, v);
    MedianUpperSide(objs, axis);
    var lt := BuildRecursive(l, depth + 1, maxObjects);
    var rt := BuildRecursive(r, depth + 1, maxObjects);
    t := Node(axis, v, [], lt, rt);
  }

  // ---------------------------------------------------------------------
  // Query
  // ---------------------------------------------------------------------

  /** The entities of the objects that are not deleted and whose box
   *  overlaps the region, in order. */
  function Hits(objs: seq<KDObject>, region: AABB): seq<nat>
  {
    if objs == [] then []
    else (if !objs[0].deleted && Overlaps(objs[0].aabb, region) then [objs[0].entity] else []) + Hits(objs[1..], region)
  }

  lemma {:induction false} HitsConcat(a: seq<KDObject>, b: seq<KDObject>, region: AABB)
    ensures Hits(a + b, region) == Hits(a, region) + Hits(b, region)
  {
    if a == [] {
      assert a + b == b;
    } else {
      var h := if !a[0].deleted && Overlaps(a[0].aabb, region) then [a[0].entity] else [];
      assert (a + b)[0] == a[0] && (a + b)[1..] == a[1..] + b;
      calc {
        Hits(a + b, region);
        h + Hits(a[1..] + b, region);
        { HitsConcat(a[1..], b, region); }
        h + (Hits(a[1..], region) + Hits(b, region));
        Hits(a, region) + Hits(b, region);
      }
    }
  }

  /** An entity is reported exactly when some stored object of it is not
   *  deleted and overlaps the region. */
  lemma {:induction false} HitsMembers(objs: seq<KDObject>, region: AABB, e: nat)
    ensures e in Hits(objs, region) <==>
            exists o :: o in objs && !o.deleted && Overlaps(o.aabb, region) && o.entity == e
  {
    if objs != [] {
      HitsMembers(objs[1..], region, e);
      assert forall o :: o in objs <==> o == objs[0] || o in objs[1..];
    }
  }

  /** Query(node, region, result): the objects of the node that are not
   *  deleted and overlap the region, then its left and right subtrees. */
  method QueryNode(t: Tree, region: AABB, acc: seq<nat>) returns (result: seq<nat>)
    decreases t
    ensures result == acc + Hits(AllObjects(t), region)
  {
    if t.Nil? {
      return acc;
    }
    result := acc;
    for i := 0 to |t.objects|
      invariant result == acc + Hits(t.objects[..i], region)
    {
      HitsStep(t.objects, i, region);
      if !t.objects[i].deleted && Overlaps(t.objects[i].aabb, region) {
        result := result + [t.objects[i].entity];
      }
    }
    assert t.objects[..|t.objects|] == t.objects;
    if t.left.Node? {
      result := QueryNode(t.left, region, result);
    }
    if t.right.Node? {
      result := QueryNode(t.right, region, result);
    }
    HitsOfNode(t, region);
    SeqAssoc(acc, Hits(t.objects, region), Hits(AllObjects(t.left), region), Hits(AllObjects(t.right), region));
  }
  lemma SeqAssoc<T>(a: seq<T>, b: seq<T>, c: seq<T>, d: seq<T>)
    ensures a + b + c + d == a + (b + c + d)
  {
  }

  lemma HitsStep(objs: seq<KDObject>, i: nat, region: AABB)
    requires i < |objs|
    ensures Hits(objs[..i + 1], region) ==
            Hits(objs[..i], region) + (if !objs[i].deleted && Overlaps(objs[i].aabb, region) then [objs[i].entity] else [])
  {
    assert objs[..i + 1] == objs[..i] + [objs[i]];
    HitsConcat(objs[..i], [objs[i]], region);
  }

  lemma HitsOfNode(t: Tree, region: AABB)
    requires t.Node?
    ensures Hits(AllObjects(t), region) == Hits(t.objects, region) + Hits(AllObjects(t.left), region) + Hits(AllObjects(t.right), region)
  {
    HitsConcat(t.objects, AllObjects(t.left), region);
    HitsConcat(t.objects + AllObjects(t.left), AllObjects(t.right), region);
  }

  // ---------------------------------------------------------------------
  // Live objects and the copies of an entity
  // ---------------------------------------------------------------------

  /** The objects not flagged as deleted, in order. */
  function LiveObjects(objs: seq<KDObject>): (r: seq<KDObject>)
  {
    if objs == [] then []
    else (if objs[0].deleted then [] else [objs[0]]) + LiveObjects(objs[1..])
  }

  /** The objects of the entity, in order. */
  function Copies(objs: seq<KDObject>, e: nat): seq<KDObject>
  {
    if objs == [] then []
    else (if objs[0].entity == e then [objs[0]] else []) + Copies(objs[1..], e)
  }

  /** The copies of the entity in the tree that are not deleted. */
  function LiveCopies(t: Tree, e: nat): seq<KDObject>
  {
    Copies(LiveObjects(AllObjects(t)), e)
  }

  lemma {:induction false} LiveConcat(a: seq<KDObject>, b: seq<KDObject>)
    ensures LiveObjects(a + b) == LiveObjects(a) + LiveObjects(b)
  {
    if a == [] {
      assert a + b == b;
    } else {
      var h := if a[0].deleted then [] else [a[0]];
      assert (a + b)[0] == a[0] && (a + b)[1..] == a[1..] + b;
      calc {
        LiveObjects(a + b);
        h + LiveObjects(a[1..] + b);
        { LiveConcat(a[1..], b); }
        h + (LiveObjects(a[1..]) + LiveObjects(b));
        LiveObjects(a) + LiveObjects(b);
      }
    }
  }

  lemma {:induction false} CopiesConcat(a: seq<KDObject>, b: seq<KDObject>, e: nat)
    ensures Copies(a + b, e) == Copies(a, e) + Copies(b, e)
  {
    if a == [] {
      assert a + b == b;
    } else {
      var h := if a[0].entity == e then [a[0]] else [];
      assert (a + b)[0] == a[0] && (a + b)[1..] == a[1..] + b;
      calc {
        Copies(a + b, e);
        h + Copies(a[1..] + b, e);
        { CopiesConcat(a[1..], b, e); }
        h + (Copies(a[1..], e) + Copies(b, e));
        Copies(a, e) + Copies(b, e);
      }
    }
  }

  /** Removing the deleted objects twice removes nothing more. */
  lemma {:induction false} LiveIdempotent(objs: seq<KDObject>)
    ensures LiveObjects(LiveObjects(objs)) == LiveObjects(objs)
    ensures forall o :: o in LiveObjects(objs) <==> o in objs && !o.deleted
  {
    if objs != [] {
      LiveIdempotent(objs[1..]);
      LiveConcat(if objs[0].deleted then [] else [objs[0]], LiveObjects(objs[1..]));
      assert forall o :: o in objs <==> o == objs[0] || o in objs[1..];
    }
  }

  /** How often an object is among the live copies of an entity depends
   *  only on how often it is stored. */
  lemma {:induction false} LiveCopiesCount(objs: seq<KDObject>, e: nat, x: KDObject)
    ensures multiset(Copies(LiveObjects(objs), e))[x] == if !x.deleted && x.entity == e then multiset(objs)[x] else 0
  {
    if objs != [] {
      var o, rest := objs[0], objs[1..];
      LiveCopiesCount(rest, e, x);
      assert objs == [o] + rest;
      LiveCopiesSplit([o], rest, e);
      LiveCopiesOne(o, e);
    }
  }

  lemma LiveCopiesSplit(a: seq<KDObject>, b: seq<KDObject>, e: nat)
    ensures Copies(LiveObjects(a + b), e) == Copies(LiveObjects(a), e) + Copies(LiveObjects(b), e)
  {
    LiveConcat(a, b);
    CopiesConcat(LiveObjects(a), LiveObjects(b), e);
  }

  lemma LiveCopiesOne(o: KDObject, e: nat)
    ensures Copies(LiveObjects([o]), e) == if !o.deleted && o.entity == e then [o] else []
  {
    assert LiveObjects([o]) == (if o.deleted then [] else [o]) + LiveObjects([]);
  }

  /** The live copies of an entity are the same, up to order, in two
   *  sequences holding the same objects. */
  lemma LiveCopiesPermuted(a: seq<KDObject>, b: seq<KDObject>, e: nat)
    requires multiset(a) == multiset(b)
    ensures multiset(Copies(LiveObjects(a), e)) == multiset(Copies(LiveObjects(b), e))
  {
    forall x
      ensures multiset(Copies(LiveObjects(a), e))[x] == multiset(Copies(LiveObjects(b), e))[x]
    {
      LiveCopiesCount(a, e, x);
      LiveCopiesCount(b, e, x);
    }
  }

  /** A sequence of at most one element is fixed by its multiset. */
  lemma AtMostOne(a: seq<KDObject>, b: seq<KDObject>)
    requires multiset(a) == multiset(b) && |b| <= 1
    ensures a == b
  {
    assert |a| == |multiset(a)| == |multiset(b)| == |b|;
    if |b| == 1 {
      assert a[0] in multiset(b);
    }
  }

  // ---------------------------------------------------------------------
  // CompactTree
  // ---------------------------------------------------------------------

  /** CompactTree: the leaves drop their deleted objects; an inner node's
   *  own objects are left as they are. */
  function CompactTree(t: Tree): Tree
  {
    match t
    case Nil => Nil
    case Node(axis, v, objs, l, r) =>
      if l.Nil? && r.Nil? then Node(axis, v, LiveObjects(objs), Nil, Nil)
      else Node(axis, v, objs, CompactTree(l), CompactTree(r))
  }

  /** On a tree whose inner nodes hold nothing, compaction leaves exactly
   *  the objects not flagged as deleted, in order, and keeps the shape. */
  lemma {:induction false} CompactKeepsLive(t: Tree)
    requires Full(t)
    ensures AllObjects(CompactTree(t)) == LiveObjects(AllObjects(t))
    ensures Full(CompactTree(t)) && (CompactTree(t).Node? <==> t.Node?)
  {
    if IsLeaf(t) {
      assert AllObjects(t) == t.objects + [] + [];
      assert AllObjects(CompactTree(t)) == LiveObjects(t.objects) + [] + [];
      assert t.objects + [] + [] == t.objects && LiveObjects(t.objects) + [] + [] == LiveObjects(t.objects);
    } else if t.Node? {
      CompactKeepsLive(t.left);
      CompactKeepsLive(t.right);
      assert t == Node(t.axis, t.split, [], t.left, t.right);
      CompactInner(t.axis, t.split, t.left, t.right);
    }
  }

  lemma CompactInner(axis: Axis, v: real, l: Tree, r: Tree)
    requires !(l.Nil? && r.Nil?)
    requires AllObjects(CompactTree(l)) == LiveObjects(AllObjects(l))
    requires AllObjects(CompactTree(r)) == LiveObjects(AllObjects(r))
    ensures AllObjects(CompactTree(Node(axis, v, [], l, r))) == LiveObjects(AllObjects(Node(axis, v, [], l, r)))
  {
    var a, b := AllObjects(l), AllObjects(r);
    calc {
      AllObjects(CompactTree(Node(axis, v, [], l, r)));
      AllObjects(Node(axis, v, [], CompactTree(l), CompactTree(r)));
      [] + LiveObjects(a) + LiveObjects(b);
      { assert [] + LiveObjects(a) == LiveObjects(a); }
      LiveObjects(a) + LiveObjects(b);
      { LiveConcat(a, b); }
      LiveObjects(a + b);
      { assert [] + a == a; }
      LiveObjects(AllObjects(Node(axis, v, [], l, r)));
    }
  }

  /** After compaction no stored object is flagged as deleted. */
  lemma CompactRemovesDeleted(t: Tree)
    requires Full(t)
    ensures forall o :: o in AllObjects(CompactTree(t)) ==> !o.deleted
  {
    CompactKeepsLive(t);
    LiveIdempotent(AllObjects(t));
  }

  /** Compaction changes no answer of Query. */
  lemma CompactSameHits(t: Tree, region: AABB)
    requires Full(t)
    ensures Hits(AllObjects(CompactTree(t)), region) == Hits(AllObjects(t), region)
  {
    CompactKeepsLive(t);
    HitsOfLive(AllObjects(t), region);
  }

  /** Compaction changes no entity's live copies. */
  lemma CompactSameCopies(t: Tree, e: nat)
    requires Full(t)
    ensures LiveCopies(CompactTree(t), e) == LiveCopies(t, e)
  {
    CompactKeepsLive(t);
    LiveIdempotent(AllObjects(t));
  }

  lemma {:induction false} HitsOfLive(objs: seq<KDObject>, region: AABB)
    ensures Hits(LiveObjects(objs), region) == Hits(objs, region)
  {
    if objs != [] {
      HitsOfLive(objs[1..], region);
      HitsConcat(if objs[0].deleted then [] else [objs[0]], LiveObjects(objs[1..]), region);
    }
  }

  lemma LeafObjects(axis: Axis, v: real, objs: seq<KDObject>)
    ensures AllObjects(Node(axis, v, objs, Nil, Nil)) == objs
  {
    assert objs + [] + [] == objs;
  }

  // ---------------------------------------------------------------------
  // InsertIntoLeaf
  // ---------------------------------------------------------------------

  /** The copy a leaf stores: the entity and box, not deleted. */
  function Fresh(o: KDObject): KDObject
  {
    o.(deleted := false)
  }

  /** InsertIntoLeaf: down the split of each inner node to a leaf, where a
   *  fresh copy of the object is appended; a missing child drops it. */
  function InsertIntoLeaf(t: Tree, o: KDObject): Tree
  {
    match t
    case Nil => Nil
    case Node(axis, v, objs, l, r) =>
      if l.Nil? && r.Nil? then Node(axis, v, objs + [Fresh(o)], Nil, Nil)
      else if Center(o, axis) < v then Node(axis, v, objs, InsertIntoLeaf(l, o), r)
      else Node(axis, v, objs, l, InsertIntoLeaf(r, o))
  }

  /** In a tree whose inner nodes all have both children the object always
   *  lands: the stored objects gain exactly the fresh copy, and the tree
   *  keeps its shape. */
  lemma {:induction false} InsertLands(t: Tree, o: KDObject) returns (a: seq<KDObject>, b: seq<KDObject>)
    requires Full(t) && t.Node?
    ensures AllObjects(t) == a + b && AllObjects(InsertIntoLeaf(t, o)) == a + [Fresh(o)] + b
    ensures Full(InsertIntoLeaf(t, o)) && InsertIntoLeaf(t, o).Node?
  {
    var n := InsertIntoLeaf(t, o);
    if IsLeaf(t) {
      a, b := t.objects, [];
      LeafObjects(t.axis, t.split, t.objects);
      LeafObjects(t.axis, t.split, t.objects + [Fresh(o)]);
    } else {
      assert t == Node(t.axis, t.split, [], t.left, t.right);
      InnerObjects(t.axis, t.split, t.left, t.right);
      if Center(o, t.axis) < t.split {
        var a', b' := InsertLands(t.left, o);
        a, b := a', b' + AllObjects(t.right);
        InnerObjects(t.axis, t.split, InsertIntoLeaf(t.left, o), t.right);
        assert a' + [Fresh(o)] + b' + AllObjects(t.right) == a + [Fresh(o)] + b;
      } else {
        var a', b' := InsertLands(t.right, o);
        a, b := AllObjects(t.left) + a', b';
        InnerObjects(t.axis, t.split, t.left, InsertIntoLeaf(t.right, o));
        assert AllObjects(t.left) + (a' + [Fresh(o)] + b') == a + [Fresh(o)] + b;
      }
    }
  }

  /** Inserting an object changes no other entity's live copies. */
  lemma InsertOthers(t: Tree, o: KDObject, x: nat)
    requires Full(t) && t.Node? && x != o.entity
    ensures LiveCopies(InsertIntoLeaf(t, o), x) == LiveCopies(t, x)
  {
    var a, b := InsertLands(t, o);
    InsertSplit(a, b, Fresh(o), x);
  }

  /** Inserting an entity with no live copy gives it exactly the fresh copy. */
  lemma InsertOwn(t: Tree, o: KDObject)
    requires Full(t) && t.Node? && LiveCopies(t, o.entity) == []
    ensures LiveCopies(InsertIntoLeaf(t, o), o.entity) == [Fresh(o)]
  {
    var a, b := InsertLands(t, o);
    InsertSplit(a, b, Fresh(o), o.entity);
  }

  lemma InsertSplit(a: seq<KDObject>, b: seq<KDObject>, f: KDObject, x: nat)
    requires !f.deleted
    ensures f.entity != x ==> Copies(LiveObjects(a + [f] + b), x) == Copies(LiveObjects(a + b), x)
    ensures f.entity == x && Copies(LiveObjects(a + b), x) == [] ==> Copies(LiveObjects(a + [f] + b), x) == [f]
  {
    var ca, cf, cb := Copies(LiveObjects(a), x), Copies(LiveObjects([f]), x), Copies(LiveObjects(b), x);
    LiveCopiesSplit(a, b, x);
    LiveCopiesSplit(a + [f], b, x);
    LiveCopiesSplit(a, [f], x);
    LiveCopiesOne(f, x);
    assert Copies(LiveObjects(a + [f] + b), x) == ca + cf + cb;
    if f.entity != x {
      assert cf == [];
      assert ca + cf + cb == ca + cb;
    } else if ca + cb == [] {
      assert |ca| == 0 && |cb| == 0;
      assert ca + cf + cb == cf;
    }
  }

  // ---------------------------------------------------------------------
  // RemoveFromTree
  // ---------------------------------------------------------------------

  /** As written: a leaf flags the first object of the entity as deleted;
   *  an inner node goes down the side that the entity's box in the
   *  entity map sends it to, and gives up when the map no longer holds
   *  the entity. Which leaf was touched is not recorded here. */
  function RemoveFromTreeAsWritten(t: Tree, e: nat, entityMap: map<nat, KDObject>): (Tree, bool)
  {
    match t
    case Nil => (Nil, false)
    case Node(axis, v, objs, l, r) =>
      if l.Nil? && r.Nil? then
        var (marked, found) := MarkFirst(objs, e);
        (Node(axis, v, marked, l, r), found)
      else if e !in entityMap then (t, false)
      else if Center(entityMap[e], axis) < v then
        var (l', found) := RemoveFromTreeAsWritten(l, e, entityMap);
        (Node(axis, v, objs, l', r), found)
      else
        var (r', found) := RemoveFromTreeAsWritten(r, e, entityMap);
        (Node(axis, v, objs, l, r'), found)
  }

  /** The first object of the entity flagged as deleted, and whether there was one. */
  function MarkFirst(objs: seq<KDObject>, e: nat): (seq<KDObject>, bool)
  {
    if objs == [] then ([], false)
    else if objs[0].entity == e then ([objs[0].(deleted := true)] + objs[1..], true)
    else
      var (rest, found) := MarkFirst(objs[1..], e);
      ([objs[0]] + rest, found)
  }

  /** Without a copy of the entity nothing is marked. */
  lemma {:induction false} MarkFirstAbsent(objs: seq<KDObject>, e: nat)
    requires forall o :: o in objs ==> o.entity != e
    ensures MarkFirst(objs, e) == (objs, false)
  {
    if objs != [] {
      MarkFirstAbsent(objs[1..], e);
      assert objs == [objs[0]] + objs[1..];
    }
  }

  /** Every object of the entity flagged as deleted. */
  function MarkDeleted(objs: seq<KDObject>, e: nat): seq<KDObject>
  {
    if objs == [] then []
    else [if objs[0].entity == e then objs[0].(deleted := true) else objs[0]] + MarkDeleted(objs[1..], e)
  }

  /** The corrected removal: every leaf that stores the entity flags all of
   *  its copies as deleted, whatever box the entity map now holds, and the
   *  paths of those leaves (from `at`; false is left) are returned. */
  function RemoveEntity(t: Tree, e: nat, at: seq<bool>): (Tree, seq<seq<bool>>)
  {
    match t
    case Nil => (Nil, [])
    case Node(axis, v, objs, l, r) =>
      if l.Nil? && r.Nil? then
        if Copies(objs, e) == [] then (t, []) else (Node(axis, v, MarkDeleted(objs, e), Nil, Nil), [at])
      else
        var (l', pl) := RemoveEntity(l, e, at + [false]);
        var (r', pr) := RemoveEntity(r, e, at + [true]);
        (Node(axis, v, objs, l', r'), pl + pr)
  }

  /** Flagging an entity's objects leaves it no live copy and changes no
   *  other entity's. */
  lemma {:induction false} MarkDeletedCopies(objs: seq<KDObject>, e: nat, x: nat)
    ensures Copies(LiveObjects(MarkDeleted(objs, e)), x) == if x == e then [] else Copies(LiveObjects(objs), x)
  {
    if objs != [] {
      var o, rest := objs[0], objs[1..];
      var o' := if o.entity == e then o.(deleted := true) else o;
      MarkDeletedCopies(rest, e, x);
      assert objs == [o] + rest;
      assert MarkDeleted(objs, e) == [o'] + MarkDeleted(rest, e);
      LiveCopiesSplit([o], rest, x);
      LiveCopiesSplit([o'], MarkDeleted(rest, e), x);
      LiveCopiesOne(o, x);
      LiveCopiesOne(o', x);
    }
  }

  /** With no object of the entity there is nothing to flag. */
  lemma {:induction false} MarkDeletedNone(objs: seq<KDObject>, e: nat)
    requires Copies(objs, e) == []
    ensures MarkDeleted(objs, e) == objs
  {
    if objs != [] {
      MarkDeletedNone(objs[1..], e);
    }
  }

  /** The corrected removal leaves no live copy of the entity, changes no
   *  other entity's live copies, and keeps the shape of the tree. */
  lemma {:induction false} RemoveEntityCopies(t: Tree, e: nat, at: seq<bool>, x: nat)
    requires Full(t)
    ensures var t' := RemoveEntity(t, e, at).0;
            Full(t') && (t'.Node? <==> t.Node?) &&
            LiveCopies(t', x) == if x == e then [] else LiveCopies(t, x)
  {
    var t' := RemoveEntity(t, e, at).0;
    if IsLeaf(t) {
      if Copies(t.objects, e) == [] {
        MarkDeletedNone(t.objects, e);
      }
      assert t'.objects == MarkDeleted(t.objects, e) && IsLeaf(t');
      LeafObjects(t.axis, t.split, t.objects);
      LeafObjects(t.axis, t.split, t'.objects);
      MarkDeletedCopies(t.objects, e, x);
    } else if t.Node? {
      RemoveEntityCopies(t.left, e, at + [false], x);
      RemoveEntityCopies(t.right, e, at + [true], x);
      assert t == Node(t.axis, t.split, [], t.left, t.right);
      var l', r' := RemoveEntity(t.left, e, at + [false]).0, RemoveEntity(t.right, e, at + [true]).0;
      assert t' == Node(t.axis, t.split, [], l', r');
      InnerObjects(t.axis, t.split, t.left, t.right);
      InnerObjects(t.axis, t.split, l', r');
      LiveCopiesSplit(AllObjects(t.left), AllObjects(t.right), x);
      LiveCopiesSplit(AllObjects(l'), AllObjects(r'), x);
    }
  }

  // ---------------------------------------------------------------------
  // Leaves by path
  // ---------------------------------------------------------------------

  /** The node a path from the root leads to (false is left), Nil when
   *  the path leaves the tree. */
  function SubtreeAt(t: Tree, p: seq<bool>): Tree
  {
    if p == [] then t
    else match t
      case Nil => Nil
      case Node(_, _, _, l, r) => SubtreeAt(if p[0] then r else l, p[1..])
  }

  /** The tree with the node the path leads to replaced. */
  function ReplaceAt(t: Tree, p: seq<bool>, s: Tree): Tree
  {
    if p == [] then s
    else match t
      case Nil => Nil
      case Node(axis, v, objs, l, r) =>
        if p[0] then Node(axis, v, objs, l, ReplaceAt(r, p[1..], s))
        else Node(axis, v, objs, ReplaceAt(l, p[1..], s), r)
  }

  /** Replacing a node by one holding the same objects, and present exactly
   *  when it was, keeps the tree's objects and its shape invariants. */
  lemma {:induction false} ReplaceAtHolds(t: Tree, p: seq<bool>, s: Tree)
    requires Full(t) && Full(s) && (s.Node? <==> SubtreeAt(t, p).Node?)
    requires multiset(AllObjects(s)) == multiset(AllObjects(SubtreeAt(t, p)))
    ensures var n := ReplaceAt(t, p, s);
            multiset(AllObjects(n)) == multiset(AllObjects(t)) && Full(n) && (n.Node? <==> t.Node?)
  {
    if p != [] && t.Node? {
      var axis, v, objs, l, r := t.axis, t.split, t.objects, t.left, t.right;
      if p[0] {
        ReplaceAtHolds(r, p[1..], s);
        ReplaceChild(axis, v, objs, l, r, l, ReplaceAt(r, p[1..], s));
      } else {
        ReplaceAtHolds(l, p[1..], s);
        ReplaceChild(axis, v, objs, l, r, ReplaceAt(l, p[1..], s), r);
      }
    }
  }

  lemma ReplaceChild(axis: Axis, v: real, objs: seq<KDObject>, l: Tree, r: Tree, l': Tree, r': Tree)
    requires Full(Node(axis, v, objs, l, r)) && Full(l') && Full(r')
    requires (l'.Node? <==> l.Node?) && (r'.Node? <==> r.Node?)
    requires multiset(AllObjects(l')) == multiset(AllObjects(l)) && multiset(AllObjects(r')) == multiset(AllObjects(r))
    ensures multiset(AllObjects(Node(axis, v, objs, l', r'))) == multiset(AllObjects(Node(axis, v, objs, l, r)))
    ensures Full(Node(axis, v, objs, l', r'))
  {
  }

  // ---------------------------------------------------------------------
  // SplitNodeExternal
  // ---------------------------------------------------------------------

  /** std::all_of over the centres: every centre equals the first. */
  predicate AllSame(cs: seq<real>)
  {
    forall i :: 0 <= i < |cs| ==> cs[i] == cs[0]
  }

  /** SplitNodeExternal: only a leaf is split. Its axis becomes the depth's;
   *  a leaf with no objects, or whose centres are all equal, stays a leaf.
   *  Otherwise the objects go to two new leaves (axis X, split 0, as
   *  make_unique leaves them) by the median centre, and an oversized new
   *  leaf is split one level deeper. A split that would send every object
   *  to the upper side keeps the leaf instead, which the source does not do. */
  function SplitLeaf(t: Tree, depth: nat, maxObjects: nat): Tree
    decreases if t.Node? then |t.objects| else 0
  {
    if !IsLeaf(t) then t
    else
      var axis := AxisAt(depth);
      var objs := t.objects;
      var cs := Centers(objs, axis);
      if objs == [] || AllSame(cs) then t.(axis := axis)
      else
        var v := NthElement(cs, |objs| / 2);
        var l, r := Below(objs, axis, v), AtOrAbove(objs, axis, v);
        if l == [] then t.(axis := axis, split := v)
        else
          SplitPartitions(objs, axis, v);
          MedianUpperSide(objs, axis);
          var lt := if |l| > maxObjects then SplitLeaf(Leaf(X, l), depth + 1, maxObjects) else Leaf(X, l);
          var rt := if |r| > maxObjects then SplitLeaf(Leaf(X, r), depth + 1, maxObjects) else Leaf(X, r);
          Node(axis, v, [], lt, rt)
  }

  /** Splitting keeps the objects, keeps a node a node, keeps every inner
   *  node with both children, and sends the objects of a split leaf to
   *  the sides of their centres. */
  lemma {:induction false} SplitLeafHolds(t: Tree, depth: nat, maxObjects: nat)
    decreases if t.Node? then |t.objects| else 0, 1
    ensures var n := SplitLeaf(t, depth, maxObjects);
            multiset(AllObjects(n)) == multiset(AllObjects(t)) && (n.Node? <==> t.Node?) &&
            (Full(t) ==> Full(n)) && (IsLeaf(t) ==> Partitioned(n))
  {
    if IsLeaf(t) {
      var axis := AxisAt(depth);
      var cs := Centers(t.objects, axis);
      if t.objects != [] && !AllSame(cs) {
        var v := NthElement(cs, |t.objects| / 2);
        var l := Below(t.objects, axis, v);
        if l == [] {
          KeptLeaf(t, t.(axis := axis, split := v));
        } else {
          SplitCase(t, depth, maxObjects, v);
        }
      } else {
        KeptLeaf(t, t.(axis := axis));
      }
    }
  }

  lemma KeptLeaf(t: Tree, n: Tree)
    requires IsLeaf(t) && IsLeaf(n) && n.objects == t.objects
    ensures multiset(AllObjects(n)) == multiset(AllObjects(t)) && Full(n) && Partitioned(n)
  {
    LeafObjects(t.axis, t.split, t.objects);
    LeafObjects(n.axis, n.split, n.objects);
  }

  lemma {:induction false} SplitCase(t: Tree, depth: nat, maxObjects: nat, v: real)
    requires IsLeaf(t) && t.objects != [] && !AllSame(Centers(t.objects, AxisAt(depth)))
    requires v == NthElement(Centers(t.objects, AxisAt(depth)), |t.objects| / 2)
    requires Below(t.objects, AxisAt(depth), v) != []
    decreases |t.objects|, 0
    ensures var n := SplitLeaf(t, depth, maxObjects);
            multiset(AllObjects(n)) == multiset(AllObjects(t)) && n.Node? && Full(n) && Partitioned(n)
  {
    var axis, objs := AxisAt(depth), t.objects;
    var l, r := Below(objs, axis, v), AtOrAbove(objs, axis, v);
    SplitPartitions(objs, axis, v);
    SidesBound(objs, axis, v);
    MedianUpperSide(objs, axis);
    var lt := SplitChild(l, depth, maxObjects);
    var rt := SplitChild(r, depth, maxObjects);
    assert SplitLeaf(t, depth, maxObjects) == Node(axis, v, [], lt, rt);
    InnerNodeHolds(axis, v, l, r, lt, rt);
    LeafObjects(t.axis, t.split, objs);
  }

  /** A new leaf of the split, split again when oversized. */
  lemma {:induction false} SplitChild(objs: seq<KDObject>, depth: nat, maxObjects: nat) returns (c: Tree)
    requires objs != []
    decreases |objs|, 2
    ensures c == if |objs| > maxObjects then SplitLeaf(Leaf(X, objs), depth + 1, maxObjects) else Leaf(X, objs)
    ensures multiset(AllObjects(c)) == multiset(objs) && c.Node? && Full(c) && Partitioned(c)
  {
    LeafObjects(X, 0.0, objs);
    c := Leaf(X, objs);
    if |objs| > maxObjects {
      SplitLeafHolds(Leaf(X, objs), depth + 1, maxObjects);
      c := SplitLeaf(Leaf(X, objs), depth + 1, maxObjects);
    }
  }

  /** A leaf whose centres on the depth's axis all agree is not split: it
   *  stays a leaf with the same objects, on the depth's axis. */
  lemma SplitLeafAllSame(t: Tree, depth: nat, maxObjects: nat)
    requires IsLeaf(t) && t.objects != []
    requires forall o :: o in t.objects ==> Center(o, AxisAt(depth)) == Center(t.objects[0], AxisAt(depth))
    ensures SplitLeaf(t, depth, maxObjects) == t.(axis := AxisAt(depth))
  {
    var cs := Centers(t.objects, AxisAt(depth));
    assert AllSame(cs) by {
      forall i | 0 <= i < |cs|
        ensures cs[i] == cs[0]
      {
        assert t.objects[i] in t.objects;
      }
    }
  }

  /** SplitLeaf step by step: the centres loop, the std::all_of test,
   *  the median, and the partition loop. */
  method SplitNodeExternal(t: Tree, depth: nat, maxObjects: nat) returns (n: Tree)
    decreases if t.Node? then |t.objects| else 0, 2
    ensures n == SplitLeaf(t, depth, maxObjects)
  {
    if t.Nil? || t.left.Node? || t.right.Node? {
      return t;
    }
    var axis := AxisAt(depth);
    var cs := ComputeCenters(t.objects, axis);
    if cs == [] {
      return t.(axis := axis);
    }
    var same := AllEqualFirst(cs);
    if same {
      return t.(axis := axis);
    }
    var v := NthElement(cs, |cs| / 2);
    var l, r := Partition(t.objects, axis, v);
    if l == [] {
      return t.(axis := axis, split := v);
    }
    n := SplitChildren(t, depth, maxObjects, v, l, r);
  }

  /** The loop of std::all_of. */
  method AllEqualFirst(cs: seq<real>) returns (same: bool)
    requires cs != []
    ensures same == AllSame(cs)
  {
    same := true;
    for i := 0 to |cs|
      invariant same <==> forall k :: 0 <= k < i ==> cs[k] == cs[0]
    {
      if cs[i] != cs[0] {
        same := false;
      }
    }
  }

  /** The two new leaves, each split one level deeper when oversized. */
  method SplitChildren(t: Tree, depth: nat, maxObjects: nat, v: real, l: seq<KDObject>, r: seq<KDObject>) returns (n: Tree)
    requires IsLeaf(t) && t.objects != [] && !AllSame(Centers(t.objects, AxisAt(depth)))
    requires v == NthElement(Centers(t.objects, AxisAt(depth)), |t.objects| / 2)
    requires l == Below(t.objects, AxisAt(depth), v) && r == AtOrAbove(t.objects, AxisAt(depth), v) && l != []
    decreases |t.objects|, 1
    ensures n == SplitLeaf(t, depth, maxObjects)
  {
    SplitPartitions(t.objects, AxisAt(depth), v);
    MedianUpperSide(t.objects, AxisAt(depth));
    var lt, rt := Leaf(X, l), Leaf(X, r);
    if |l| > maxObjects {
      lt := SplitNodeExternal(lt, depth + 1, maxObjects);
    }
    if |r| > maxObjects {
      rt := SplitNodeExternal(rt, depth + 1, maxObjects);
    }
    n := Node(AxisAt(depth), v, [], lt, rt);
  }

  // ---------------------------------------------------------------------
  // PartialUpdate, loop by loop
  // ---------------------------------------------------------------------

  predicate Distinct(ks: seq<nat>)
  {
    forall i, j :: 0 <= i < j < |ks| ==> ks[i] != ks[j]
  }

  /** The entity map's key is the entity of its object. */
  predicate Keyed(m: map<nat, KDObject>)
  {
    forall k :: k in m ==> m[k].entity == k
  }

  /** No object of the entity map is flagged as deleted. */
  predicate AllLive(m: map<nat, KDObject>)
  {
    forall k :: k in m ==> !m[k].deleted
  }

  /** What the tree should hold of an entity: its object in the map, once. */
  function Expected(m: map<nat, KDObject>, e: nat): seq<KDObject>
  {
    if e in m then [m[e]] else []
  }

  /** Step 1, corrected: every moved entity loses its live copies, wherever
   *  they are; the leaves that held one are collected. */
  method RemoveMoved(t: Tree, order: seq<nat>) returns (t': Tree, touched: seq<seq<bool>>)
    requires Full(t) && t.Node?
    ensures Full(t') && t'.Node?
    ensures forall x :: LiveCopies(t', x) == if x in order then [] else LiveCopies(t, x)
  {
    t', touched := t, [];
    for i := 0 to |order|
      invariant Full(t') && t'.Node?
      invariant forall x :: LiveCopies(t', x) == if x in order[..i] then [] else LiveCopies(t, x)
    {
      var e := order[i];
      forall x
        ensures LiveCopies(RemoveEntity(t', e, []).0, x) == if x == e then [] else LiveCopies(t', x)
      {
        RemoveEntityCopies(t', e, [], x);
      }
      RemoveEntityCopies(t', e, [], e);
      var r := RemoveEntity(t', e, []);
      assert forall x :: x in order[..i + 1] <==> x in order[..i] || x == e by {
        assert order[..i + 1] == order[..i] + [e];
      }
      t', touched := r.0, touched + r.1;
    }
    assert order[..|order|] == order;
  }

  /** Step 2: the current object of every moved entity still in the map is
   *  inserted into its leaf; an entity with no live copy left gets exactly
   *  its map object. */
  method InsertMoved(t: Tree, m: map<nat, KDObject>, order: seq<nat>) returns (t': Tree)
    requires Full(t) && t.Node? && Keyed(m) && AllLive(m) && Distinct(order)
    requires forall x :: x in order ==> LiveCopies(t, x) == []
    ensures Full(t') && t'.Node?
    ensures forall x :: LiveCopies(t', x) == if x in order && x in m then [m[x]] else LiveCopies(t, x)
  {
    t' := t;
    for i := 0 to |order|
      invariant Full(t') && t'.Node?
      invariant forall x :: LiveCopies(t', x) == if x in order[..i] && x in m then [m[x]] else LiveCopies(t, x)
    {
      var e := order[i];
      InsertMovedStep(t, t', m, order, i);
      if e in m {
        t' := InsertIntoLeaf(t', m[e]);
      }
    }
    assert order[..|order|] == order;
  }

  /** One round of InsertMoved: inserting the next entity's map object
   *  extends the invariant by that entity. */
  lemma InsertMovedStep(t0: Tree, t: Tree, m: map<nat, KDObject>, order: seq<nat>, i: nat)
    requires Full(t) && t.Node? && Keyed(m) && AllLive(m) && Distinct(order) && i < |order|
    requires forall x :: x in order ==> LiveCopies(t0, x) == []
    requires forall x :: LiveCopies(t, x) == if x in order[..i] && x in m then [m[x]] else LiveCopies(t0, x)
    ensures var t' := if order[i] in m then InsertIntoLeaf(t, m[order[i]]) else t;
      Full(t') && t'.Node? &&
      forall x :: LiveCopies(t', x) == if x in order[..i + 1] && x in m then [m[x]] else LiveCopies(t0, x)
  {
    var e := order[i];
    assert order[..i + 1] == order[..i] + [e];
    assert e !in order[..i] by {
      forall j | 0 <= j < i
        ensures order[..i][j] != e
      {
        assert order[j] != order[i];
      }
    }
    var t' := if e in m then InsertIntoLeaf(t, m[e]) else t;
    if e in m {
      InsertStep(t, m, e);
    }
    forall x
      ensures LiveCopies(t', x) == if x in order[..i + 1] && x in m then [m[x]] else LiveCopies(t0, x)
    {
      if x == e {
        assert x in order[..i + 1];
      } else {
        assert x in order[..i + 1] <==> x in order[..i];
      }
    }
  }

  lemma InsertStep(t: Tree, m: map<nat, KDObject>, e: nat)
    requires Full(t) && t.Node? && Keyed(m) && AllLive(m) && e in m
    ensures Full(InsertIntoLeaf(t, m[e])) && InsertIntoLeaf(t, m[e]).Node?
    ensures forall x :: x != e ==> LiveCopies(InsertIntoLeaf(t, m[e]), x) == LiveCopies(t, x)
    ensures LiveCopies(t, e) == [] ==> LiveCopies(InsertIntoLeaf(t, m[e]), e) == [m[e]]
  {
    var a, b := InsertLands(t, m[e]);
    forall x | x != e
      ensures LiveCopies(InsertIntoLeaf(t, m[e]), x) == LiveCopies(t, x)
    {
      InsertOthers(t, m[e], x);
    }
    if LiveCopies(t, e) == [] {
      InsertOwn(t, m[e]);
      assert Fresh(m[e]) == m[e];
    }
  }

  /** Step 3: every touched leaf that is still a leaf and holds more than
   *  maxObjects objects is split at its depth, the length of its path. */
  method SplitTouched(t: Tree, touched: seq<seq<bool>>, maxObjects: nat) returns (t': Tree)
    requires Full(t) && t.Node?
    ensures Full(t') && t'.Node? && multiset(AllObjects(t')) == multiset(AllObjects(t))
  {
    t' := t;
    for i := 0 to |touched|
      invariant Full(t') && t'.Node? && multiset(AllObjects(t')) == multiset(AllObjects(t))
    {
      var p := touched[i];
      var leaf := SubtreeAt(t', p);
      if IsLeaf(leaf) && |leaf.objects| > maxObjects {
        var split := SplitNodeExternal(leaf, |p|, maxObjects);
        SplitLeafHolds(leaf, |p|, maxObjects);
        ReplaceAtHolds(t', p, split);
        t' := ReplaceAt(t', p, split);
      }
    }
  }

  /** Moving objects between leaves keeps each entity's live copies when
   *  it has at most one. */
  lemma SameObjectsSameCopies(t: Tree, t': Tree, e: nat)
    requires multiset(AllObjects(t')) == multiset(AllObjects(t)) && |LiveCopies(t, e)| <= 1
    ensures LiveCopies(t', e) == LiveCopies(t, e)
  {
    LiveCopiesPermuted(AllObjects(t'), AllObjects(t), e);
    AtMostOne(LiveCopies(t', e), LiveCopies(t, e));
  }

  // ---------------------------------------------------------------------
  // The entity map
  // ---------------------------------------------------------------------

  /** The objects of the keys, in the keys' order. */
  function ValuesAt(m: map<nat, KDObject>, ks: seq<nat>): seq<KDObject>
    requires forall k :: k in ks ==> k in m
  {
    if ks == [] then [] else [m[ks[0]]] + ValuesAt(m, ks[1..])
  }

  /** The keys list every key of the map once: an iteration order. */
  ghost predicate Enumerates(ks: seq<nat>, keys: set<nat>)
  {
    Distinct(ks) && forall k :: k in ks <==> k in keys
  }

  /** The objects of a map listed once each hold each entity's object once. */
  lemma {:induction false} ValuesCopies(m: map<nat, KDObject>, ks: seq<nat>, e: nat)
    requires Keyed(m) && AllLive(m) && Distinct(ks) && forall k :: k in ks ==> k in m
    ensures Copies(LiveObjects(ValuesAt(m, ks)), e) == if e in ks then [m[e]] else []
  {
    if ks != [] {
      ValuesCopies(m, ks[1..], e);
      LiveCopiesSplit([m[ks[0]]], ValuesAt(m, ks[1..]), e);
      LiveCopiesOne(m[ks[0]], e);
      assert e in ks <==> e == ks[0] || e in ks[1..];
      forall j | 0 <= j < |ks[1..]|
        ensures ks[1..][j] != ks[0]
      {
        assert ks[1..][j] == ks[j + 1];
      }
    }
  }

  /** A tree built from the map's objects holds each entity's object once. */
  lemma RebuildSync(m: map<nat, KDObject>, ks: seq<nat>, maxObjects: nat)
    requires Keyed(m) && AllLive(m) && Enumerates(ks, m.Keys)
    ensures var t := BuildTree(ValuesAt(m, ks), 0, maxObjects);
            Full(t) && forall e :: LiveCopies(t, e) == Expected(m, e)
  {
    var all := ValuesAt(m, ks);
    var t := BuildTree(all, 0, maxObjects);
    BuildTreeHolds(all, 0, maxObjects);
    forall e
      ensures LiveCopies(t, e) == Expected(m, e)
    {
      ValuesCopies(m, ks, e);
      LiveCopiesPermuted(AllObjects(t), all, e);
      AtMostOne(LiveCopies(t, e), Copies(LiveObjects(all), e));
    }
  }

  /** entity_map after Build: each object under its entity, a later object
   *  of the same entity replacing an earlier one. */
  function MapOf(objs: seq<KDObject>): map<nat, KDObject>
  {
    if objs == [] then map[]
    else MapOf(objs[..|objs| - 1])[objs[|objs| - 1].entity := objs[|objs| - 1]]
  }

  /** No two objects of the same entity and none flagged as deleted. */
  predicate ProperObjects(objs: seq<KDObject>)
  {
    (forall i, j :: 0 <= i < j < |objs| ==> objs[i].entity != objs[j].entity) &&
    forall i :: 0 <= i < |objs| ==> !objs[i].deleted
  }

  /** The map of a list of objects is keyed by entity and holds exactly the
   *  listed entities; for proper objects, the list holds each entity's
   *  map object once. */
  lemma {:induction false} MapOfHolds(objs: seq<KDObject>)
    ensures var m := MapOf(objs);
            Keyed(m) && (forall k :: k in m <==> exists i :: 0 <= i < |objs| && objs[i].entity == k)
    ensures ProperObjects(objs) ==>
              AllLive(MapOf(objs)) && forall e :: Copies(LiveObjects(objs), e) == Expected(MapOf(objs), e)
  {
    if objs != [] {
      var init, last := objs[..|objs| - 1], objs[|objs| - 1];
      MapOfHolds(init);
      assert objs == init + [last];
      assert forall i :: 0 <= i < |init| ==> init[i] == objs[i];
      if ProperObjects(objs) {
        assert ProperObjects(init);
        forall e
          ensures Copies(LiveObjects(objs), e) == Expected(MapOf(objs), e)
        {
          LiveCopiesSplit(init, [last], e);
          LiveCopiesOne(last, e);
          if e == last.entity {
            forall i | 0 <= i < |init|
              ensures init[i].entity != e
            {
              assert objs[i].entity != objs[|objs| - 1].entity;
            }
          }
        }
      }
    }
  }

  lemma HasElement(s: set<nat>)
    requires s != {}
    ensures exists x :: x in s
  {
    if forall x :: x !in s {
      assert false;
    }
  }

  /** Some iteration order of a set: an unordered container's. */
  method Enumerate(s: set<nat>) returns (ks: seq<nat>)
    ensures Enumerates(ks, s)
  {
    ks := [];
    var rest := s;
    while rest != {}
      invariant rest <= s && Distinct(ks)
      invariant forall k :: k in ks <==> k in s && k !in rest
      decreases rest
    {
      HasElement(rest);
      var k :| k in rest;
      ks := ks + [k];
      rest := rest - {k};
    }
  }

  // ---------------------------------------------------------------------
  // EndFrameUpdate's choice
  // ---------------------------------------------------------------------

  datatype FramePlan = Unchanged | Cleared | Rebuilt | Partial

  /** std::max(1, static_cast<size_t>(rebuild_threshold * total)): the
   *  product truncated, and at least one. */
  function RebuildLimit(threshold: real, total: nat): (n: nat)
    ensures n >= 1
  {
    var scaled := threshold * total as real;
    if scaled < 1.0 then 1 else scaled.Floor
  }

  /** Nothing moved; the map is empty; enough moved to rebuild; or a
   *  partial update. */
  function Plan(moved: nat, total: nat, threshold: real): FramePlan
  {
    if moved == 0 then Unchanged
    else if total == 0 then Cleared
    else if moved >= RebuildLimit(threshold, total) then Rebuilt
    else Partial
  }

  /** With a threshold of at most 1, a frame in which every entity of a
   *  non-empty map moved is a full rebuild, and with a threshold of at
   *  most 0 every frame with a move is; a partial update always moved
   *  fewer entities than the limit. */
  lemma PlanThresholds(moved: nat, total: nat, threshold: real)
    ensures 0 < total <= moved && threshold <= 1.0 ==> Plan(moved, total, threshold) == Rebuilt
    ensures 0 < moved && 0 < total && threshold <= 0.0 ==> Plan(moved, total, threshold) == Rebuilt
    ensures Plan(moved, total, threshold) == Partial ==> 0 < moved < RebuildLimit(threshold, total)
  {
    if 0 < total <= moved && threshold <= 1.0 {
      ScaleAtMost(threshold, total as real);
      LimitAtMost(threshold, total, moved);
    }
    if 0 < moved && 0 < total && threshold <= 0.0 {
      ScaleAtMost(threshold, total as real);
      LimitAtMost(threshold, total, moved);
    }
  }

  /** A limit whose scaled count is at most a positive bound is at most
   *  that bound. */
  lemma LimitAtMost(threshold: real, total: nat, bound: nat)
    requires bound >= 1 && threshold * total as real <= bound as real
    ensures RebuildLimit(threshold, total) <= bound
  {
    var scaled := threshold * total as real;
    if scaled >= 1.0 {
      assert scaled.Floor as real <= scaled;
    }
  }

  lemma ScaleAtMost(a: real, x: real)
    requires x >= 0.0
    ensures a <= 1.0 ==> a * x <= x
    ensures a <= 0.0 ==> a * x <= 0.0
  {
    if a <= 0.0 {
      assert a * x <= 0.0 * x;
    } else if a <= 1.0 {
      assert a * x <= 1.0 * x;
    }
  }

  // ---------------------------------------------------------------------
  // Query against the map
  // ---------------------------------------------------------------------

  lemma {:induction false} CopiesMembers(objs: seq<KDObject>, e: nat)
    ensures forall o :: o in Copies(objs, e) <==> o in objs && o.entity == e
  {
    if objs != [] {
      CopiesMembers(objs[1..], e);
      assert forall o :: o in objs <==> o == objs[0] || o in objs[1..];
      CopiesConcat(if objs[0].entity == e then [objs[0]] else [], Copies(objs[1..], e), e);
    }
  }

  /** An entity is reported at most as often as it has live copies. */
  lemma {:induction false} HitsCount(objs: seq<KDObject>, region: AABB, e: nat)
    ensures multiset(Hits(objs, region))[e] <= |Copies(LiveObjects(objs), e)|
  {
    if objs != [] {
      var o, rest := objs[0], objs[1..];
      HitsCount(rest, region, e);
      assert objs == [o] + rest;
      LiveCopiesSplit([o], rest, e);
      LiveCopiesOne(o, e);
      assert Hits(objs, region) == (if !o.deleted && Overlaps(o.aabb, region) then [o.entity] else []) + Hits(rest, region);
    }
  }

  /** When the tree holds every entity's object once and nothing else
   *  live, Query reports exactly the entities of the map whose box
   *  overlaps the region, each once. */
  lemma QueryReflectsMap(t: Tree, m: map<nat, KDObject>, region: AABB, e: nat)
    requires forall x :: LiveCopies(t, x) == Expected(m, x)
    ensures e in Hits(AllObjects(t), region) <==> e in m && Overlaps(m[e].aabb, region)
    ensures multiset(Hits(AllObjects(t), region))[e] <= 1
  {
    var all := AllObjects(t);
    HitsMembers(all, region, e);
    HitsCount(all, region, e);
    LiveIdempotent(all);
    CopiesMembers(LiveObjects(all), e);
    assert LiveCopies(t, e) == Expected(m, e);
    if e in m && Overlaps(m[e].aabb, region) {
      assert m[e] in LiveCopies(t, e);
    }
  }

  // ---------------------------------------------------------------------
  // KDTree
  // ---------------------------------------------------------------------

  class KDTree {
    var root: Tree
    /** The source of truth: each entity's current object. */
    var entityMap: map<nat, KDObject>
    /** The entities updated, inserted or removed since the last frame. */
    var moved: set<nat>
    const maxObjects: nat
    const rebuildThreshold: real

    /** Inner nodes have both children and no objects; every entity that
     *  did not move this frame has exactly its map object live in the
     *  tree, and no live object at all when the map lacks it. */
    ghost predicate Valid()
      reads this
    {
      Full(root) && Keyed(entityMap) && AllLive(entityMap) &&
      forall e: nat :: e !in moved ==> LiveCopies(root, e) == Expected(entityMap, e)
    }

    constructor(maxObjectsPerNode: nat, threshold: real)
      ensures root == Nil && entityMap == map[] && moved == {}
      ensures maxObjects == maxObjectsPerNode && rebuildThreshold == threshold
      ensures Valid()
    {
      root := Nil;
      entityMap := map[];
      moved := {};
      maxObjects := maxObjectsPerNode;
      rebuildThreshold := threshold;
    }

    /** Build: the map of the objects, a tree built from them, nothing
     *  moved. Objects of distinct entities, none flagged as deleted, give
     *  a valid tree. */
    method Build(objects: seq<KDObject>)
      modifies this
      ensures entityMap == MapOf(objects) && root == BuildTree(objects, 0, maxObjects) && moved == {}
      ensures ProperObjects(objects) ==> Valid()
    {
      var m := map[];
      for i := 0 to |objects|
        invariant m == MapOf(objects[..i])
      {
        assert objects[..i + 1][..i] == objects[..i];
        m := m[objects[i].entity := objects[i]];
      }
      assert objects[..|objects|] == objects;
      entityMap := m;
      root := BuildRecursive(objects, 0, maxObjects);
      moved := {};
      BuildTreeHolds(objects, 0, maxObjects);
      MapOfHolds(objects);
      if ProperObjects(objects) {
        forall e
          ensures LiveCopies(root, e) == Expected(entityMap, e)
        {
          LiveCopiesPermuted(AllObjects(root), objects, e);
          AtMostOne(LiveCopies(root, e), Copies(LiveObjects(objects), e));
        }
      }
    }

    /** UpdateBoundingAABB: a known entity gets the new box (its deletion
     *  flag kept), an unknown one is added; either way it has moved. */
    method UpdateBoundingAABB(e: nat, aabb: AABB)
      requires Valid()
      modifies this
      ensures entityMap == if e in old(entityMap) then old(entityMap)[e := old(entityMap)[e].(aabb := aabb)]
                           else old(entityMap)[e := KDObject(e, aabb, false)]
      ensures moved == old(moved) + {e} && root == old(root)
      ensures Valid()
    {
      if e in entityMap {
        entityMap := entityMap[e := entityMap[e].(aabb := aabb)];
      } else {
        entityMap := entityMap[e := KDObject(e, aabb, false)];
      }
      moved := moved + {e};
    }

    /** Insert: the entity's object is replaced by a fresh one; it has moved. */
    method Insert(e: nat, aabb: AABB)
      requires Valid()
      modifies this
      ensures entityMap == old(entityMap)[e := KDObject(e, aabb, false)]
      ensures moved == old(moved) + {e} && root == old(root)
      ensures Valid()
    {
      entityMap := entityMap[e := KDObject(e, aabb, false)];
      moved := moved + {e};
    }

    /** Remove: the entity leaves the map; it has moved. */
    method Remove(e: nat)
      requires Valid()
      modifies this
      ensures entityMap == old(entityMap) - {e}
      ensures moved == old(moved) + {e} && root == old(root)
      ensures Valid()
    {
      entityMap := entityMap - {e};
      moved := moved + {e};
    }

    /** Query: the entities of the live objects overlapping the region;
     *  between frames, exactly the map's entities whose box overlaps it,
     *  each once. */
    method Query(region: AABB) returns (result: seq<nat>)
      requires Valid()
      ensures result == Hits(AllObjects(root), region)
      ensures moved == {} ==> forall e :: (e in result <==> e in entityMap && Overlaps(entityMap[e].aabb, region))
      ensures moved == {} ==> forall e :: multiset(result)[e] <= 1
    {
      result := QueryNode(root, region, []);
      assert [] + Hits(AllObjects(root), region) == Hits(AllObjects(root), region);
      if moved == {} {
        forall e
          ensures (e in result <==> e in entityMap && Overlaps(entityMap[e].aabb, region)) && multiset(result)[e] <= 1
        {
          QueryReflectsMap(root, entityMap, region, e);
        }
      }
    }

    /** EndFrameUpdate: nothing to do when nothing moved; an empty map
     *  empties the tree; enough moves rebuild it from the map; otherwise a
     *  partial update then a compaction. The moved set is cleared, and the
     *  tree then holds every entity's map object once and nothing else live. */
    method EndFrameUpdate()
      requires Valid()
      modifies this
      ensures Valid() && moved == {} && entityMap == old(entityMap)
      ensures forall e :: LiveCopies(root, e) == Expected(entityMap, e)
      ensures var plan := Plan(|old(moved)|, |old(entityMap)|, rebuildThreshold);
              (plan == Unchanged ==> root == old(root)) &&
              (plan == Cleared ==> root == Nil) &&
              (plan == Rebuilt ==> exists ks :: Enumerates(ks, entityMap.Keys) && root == BuildTree(ValuesAt(entityMap, ks), 0, maxObjects))
    {
      if |moved| == 0 {
        return;
      }
      if |entityMap| == 0 {
        root := Nil;
        moved := {};
        return;
      }
      if |moved| >= RebuildLimit(rebuildThreshold, |entityMap|) {
        var ks := Enumerate(entityMap.Keys);
        root := BuildRecursive(ValuesAt(entityMap, ks), 0, maxObjects);
        moved := {};
        RebuildSync(entityMap, ks, maxObjects);
        return;
      }
      PartialUpdate();
      forall e
        ensures LiveCopies(CompactTree(root), e) == LiveCopies(root, e)
      {
        CompactSameCopies(root, e);
      }
      CompactKeepsLive(root);
      root := CompactTree(root);
      moved := {};
    }

    /** PartialUpdate, with the corrected removal: with no tree, a build
     *  from the map; otherwise the moved entities' live copies flagged as
     *  deleted, their current objects inserted into leaves, and the
     *  touched leaves split. Every entity then has exactly its map object
     *  live in the tree. */
    method PartialUpdate()
      requires Valid()
      modifies this
      ensures entityMap == old(entityMap) && moved == old(moved)
      ensures Full(root) && forall e :: LiveCopies(root, e) == Expected(entityMap, e)
    {
      if root.Nil? {
        var ks := Enumerate(entityMap.Keys);
        root := BuildRecursive(ValuesAt(entityMap, ks), 0, maxObjects);
        RebuildSync(entityMap, ks, maxObjects);
        return;
      }
      var m := entityMap;
      var order := Enumerate(moved);
      var t, touched := RemoveMoved(root, order);
      t := InsertMoved(t, m, order);
      var t' := SplitTouched(t, touched, maxObjects);
      forall e
        ensures LiveCopies(t', e) == Expected(m, e)
      {
        SameObjectsSameCopies(t, t', e);
      }
      root := t';
    }
  }

  // ---------------------------------------------------------------------
  // The source as written, on small inputs
  // ---------------------------------------------------------------------

  /** Three objects whose centres are 1, 1 and 2 on both axes. */
  function StackedBoxes(): seq<KDObject>
  {
    [KDObject(1, AABB(0.0, 0.0, 2.0, 2.0), false),
     KDObject(2, AABB(0.0, 0.0, 2.0, 2.0), false),
     KDObject(3, AABB(1.0, 1.0, 3.0, 3.0), false)]
  }

  /** As written, SplitNodeExternal on a leaf of these three objects with at
   *  most two per leaf: the centres are not all the same, but the median
   *  is the smallest centre, so every object goes to a new right leaf,
   *  which is oversized and split again one level deeper, on either axis
   *  the same way, without end. */
  lemma StackedBoxesSplitAsWritten(depth: nat)
    ensures !AllSame(Centers(StackedBoxes(), AxisAt(depth)))
    ensures SplitAsWritten(StackedBoxes(), depth) == ([], StackedBoxes())
    ensures |StackedBoxes()| > 2
  {
    var objs, axis := StackedBoxes(), AxisAt(depth);
    var cs := Centers(objs, axis);
    StackedCenters(axis);
    assert cs[2] != cs[0];
    SortSorted(cs);
    assert NthElement(cs, 1) == 1.0;
    NoneBelow(objs, axis, 1.0);
  }

  lemma StackedCenters(axis: Axis)
    ensures Centers(StackedBoxes(), axis) == [1.0, 1.0, 2.0]
    ensures forall o :: o in StackedBoxes() ==> 1.0 <= Center(o, axis)
  {
    var objs := StackedBoxes();
    assert Center(objs[0], axis) == 1.0 && Center(objs[1], axis) == 1.0 && Center(objs[2], axis) == 2.0;
  }

  /** Entity 1 centred at x = 0, entity 2 at x = 10, entity 1 moved to x = 20. */
  function FirstAtZero(): KDObject { KDObject(1, AABB(-1.0, -1.0, 1.0, 1.0), false) }
  function SecondAtTen(): KDObject { KDObject(2, AABB(9.0, -1.0, 11.0, 1.0), false) }
  function FirstAtTwenty(): KDObject { KDObject(1, AABB(19.0, -1.0, 21.0, 1.0), false) }

  /** The tree Build makes of the first two with one object per leaf. */
  function TwoLeaves(): Tree
  {
    Node(X, 10.0, [], Leaf(Y, [FirstAtZero()]), Leaf(Y, [SecondAtTen()]))
  }

  /** Build of the first two with one object per leaf: a split at x = 10. */
  lemma TwoObjectTree()
    ensures BuildTree([FirstAtZero(), SecondAtTen()], 0, 1) == TwoLeaves()
  {
    var a, b := FirstAtZero(), SecondAtTen();
    TwoObjectSplit();
    assert BuildTree([a], 1, 1) == Leaf(Y, [a]);
    assert BuildTree([b], 1, 1) == Leaf(Y, [b]);
  }

  lemma TwoObjectSplit()
    ensures var objs := [FirstAtZero(), SecondAtTen()];
            NthElement(Centers(objs, X), 1) == 10.0 &&
            Below(objs, X, 10.0) == [FirstAtZero()] && AtOrAbove(objs, X, 10.0) == [SecondAtTen()]
  {
    var a, b := FirstAtZero(), SecondAtTen();
    var cs := Centers([a, b], X);
    assert cs == [0.0, 10.0];
    SortSorted(cs);
    PairSides(a, b, X, 10.0);
  }

  /** Three objects where the first two share the smallest x centre and
   *  the y centres ascend, as (0, 0), (0, 1) and (1, 2) do. */
  predicate Skewed(a: KDObject, b: KDObject, c: KDObject)
  {
    Center(a, X) == Center(b, X) < Center(c, X) && Center(a, Y) < Center(b, Y) < Center(c, Y)
  }

  /** The tree BuildRecursive makes of them from an x level with two
   *  objects per leaf: the median x is the smallest, so the root has no
   *  left child. */
  function SkewedTreeAsWritten(a: KDObject, b: KDObject, c: KDObject): Tree
  {
    Node(X, Center(a, X), [], Nil, Node(Y, Center(b, Y), [], Leaf(X, [a]), Leaf(X, [b, c])))
  }

  /** The centres of three objects, and their median when sorted. */
  lemma ThreeCenters(a: KDObject, b: KDObject, c: KDObject, axis: Axis)
    requires Center(a, axis) <= Center(b, axis) <= Center(c, axis)
    ensures NthElement(Centers([a, b, c], axis), 1) == Center(b, axis)
  {
    var cs := Centers([a, b, c], axis);
    assert cs == [Center(a, axis), Center(b, axis), Center(c, axis)];
    MedianOfThree(cs);
  }

  /** The median of three ordered centres is the middle one. */
  lemma MedianOfThree(cs: seq<real>)
    requires |cs| == 3 && cs[0] <= cs[1] <= cs[2]
    ensures NthElement(cs, 1) == cs[1]
  {
    assert SortedReals(cs);
    MedianOfSorted(cs, 1);
  }

  /** The median split of such objects on x: every object goes right. */
  lemma SkewedSplitX(a: KDObject, b: KDObject, c: KDObject, depth: nat)
    requires Skewed(a, b, c) && depth % 2 == 0
    ensures NthElement(Centers([a, b, c], X), 1) == Center(a, X)
    ensures SplitAsWritten([a, b, c], depth) == ([], [a, b, c])
  {
    ThreeCenters(a, b, c, X);
    TripleSides(a, b, c, X, Center(a, X));
    assert AxisAt(depth) == X;
    assert Below([a, b, c], X, Center(a, X)) == [];
    assert AtOrAbove([a, b, c], X, Center(a, X)) == [a] + [b] + [c] == [a, b, c];
  }

  /** The median split of such objects on y: the first goes left. */
  lemma SkewedSplitY(a: KDObject, b: KDObject, c: KDObject, depth: nat)
    requires Skewed(a, b, c) && depth % 2 == 1
    ensures NthElement(Centers([a, b, c], Y), 1) == Center(b, Y)
    ensures SplitAsWritten([a, b, c], depth) == ([a], [b, c])
  {
    ThreeCenters(a, b, c, Y);
    TripleSides(a, b, c, Y, Center(b, Y));
    assert AxisAt(depth) == Y;
    assert Below([a, b, c], Y, Center(b, Y)) == [a] + [] + [] == [a];
    assert AtOrAbove([a, b, c], Y, Center(b, Y)) == [] + [b] + [c] == [b, c];
  }

  /** As written the build of such objects from an x level does end, in a
   *  node without a left child. */
  lemma SkewedBuildAsWritten(a: KDObject, b: KDObject, c: KDObject, depth: nat, fuel: nat)
    requires Skewed(a, b, c) && depth % 2 == 0 && fuel >= 2
    ensures BuildAsWritten([a, b, c], depth, 2, fuel) == Some(SkewedTreeAsWritten(a, b, c))
    ensures !Full(SkewedTreeAsWritten(a, b, c))
  {
    SkewedSplitX(a, b, c, depth);
    SkewedBuildY(a, b, c, depth + 1, fuel - 1);
    BuildAsWrittenNode([a, b, c], depth, fuel, Nil, Node(Y, Center(b, Y), [], Leaf(X, [a]), Leaf(X, [b, c])));
  }

  /** One level of the as-written build of more objects than a leaf
   *  holds: a node at the median over the builds of the two sides. */
  lemma BuildAsWrittenNode(objs: seq<KDObject>, depth: nat, fuel: nat, lt: Tree, rt: Tree)
    requires |objs| > 2 && fuel >= 1
    requires BuildAsWritten(SplitAsWritten(objs, depth).0, depth + 1, 2, fuel - 1) == Some(lt)
    requires BuildAsWritten(SplitAsWritten(objs, depth).1, depth + 1, 2, fuel - 1) == Some(rt)
    ensures BuildAsWritten(objs, depth, 2, fuel) == Some(Node(AxisAt(depth), NthElement(Centers(objs, AxisAt(depth)), |objs| / 2), [], lt, rt))
  {
  }

  /** The same build from a y level: the first object goes left, the
   *  other two right, each side a leaf. */
  lemma SkewedBuildY(a: KDObject, b: KDObject, c: KDObject, depth: nat, fuel: nat)
    requires Skewed(a, b, c) && depth % 2 == 1 && fuel >= 1
    ensures BuildAsWritten([a, b, c], depth, 2, fuel) == Some(Node(Y, Center(b, Y), [], Leaf(X, [a]), Leaf(X, [b, c])))
  {
    SkewedSplitY(a, b, c, depth);
    assert AxisAt(depth + 1) == X;
    assert BuildAsWritten([a], depth + 1, 2, fuel - 1) == Some(Leaf(X, [a]));
    assert BuildAsWritten([b, c], depth + 1, 2, fuel - 1) == Some(Leaf(X, [b, c]));
    BuildAsWrittenNode([a, b, c], depth, fuel, Leaf(X, [a]), Leaf(X, [b, c]));
  }

  /** An object centred left of the first is sent to the missing left
   *  child of that tree and dropped; the corrected build keeps the three
   *  in one leaf, where it lands. */
  lemma SkewedInsertDropped(a: KDObject, b: KDObject, c: KDObject, o: KDObject, depth: nat)
    requires Skewed(a, b, c) && depth % 2 == 0 && Center(o, X) < Center(a, X)
    ensures AllObjects(InsertIntoLeaf(SkewedTreeAsWritten(a, b, c), o)) == AllObjects(SkewedTreeAsWritten(a, b, c)) == [a, b, c]
    ensures BuildTree([a, b, c], depth, 2) == Leaf(X, [a, b, c])
    ensures AllObjects(InsertIntoLeaf(BuildTree([a, b, c], depth, 2), o)) == [a, b, c] + [Fresh(o)]
  {
    var t := SkewedTreeAsWritten(a, b, c);
    assert InsertIntoLeaf(t, o) == t;
    assert AllObjects(Leaf(X, [a])) == [a] && AllObjects(Leaf(X, [b, c])) == [b, c];
    assert AllObjects(t) == [a] + [b, c] == [a, b, c];
    SkewedSplitX(a, b, c, depth);
  }

  /** The boxes centred at (0, 0), (0, 1) and (1, 2), and one at (-2, 0). */
  lemma SkewedBoxes()
    ensures var a, b, c := KDObject(1, AABB(-1.0, -1.0, 1.0, 1.0), false),
                           KDObject(2, AABB(-1.0, 0.0, 1.0, 2.0), false),
                           KDObject(3, AABB(0.0, 1.0, 2.0, 3.0), false);
            Skewed(a, b, c) && Center(KDObject(4, AABB(-3.0, -1.0, -1.0, 1.0), false), X) < Center(a, X)
  {
  }

  lemma TripleSides(a: KDObject, b: KDObject, c: KDObject, axis: Axis, v: real)
    ensures Below([a, b, c], axis, v) ==
              (if Center(a, axis) < v then [a] else []) + (if Center(b, axis) < v then [b] else []) + (if Center(c, axis) < v then [c] else [])
    ensures AtOrAbove([a, b, c], axis, v) ==
              (if Center(a, axis) < v then [] else [a]) + (if Center(b, axis) < v then [] else [b]) + (if Center(c, axis) < v then [] else [c])
  {
    assert [a, b, c][1..] == [b, c];
    PairSides(b, c, axis, v);
  }

  lemma PairSides(a: KDObject, b: KDObject, axis: Axis, v: real)
    ensures Below([a, b], axis, v) == (if Center(a, axis) < v then [a] else []) + (if Center(b, axis) < v then [b] else [])
    ensures AtOrAbove([a, b], axis, v) == (if Center(a, axis) < v then [] else [a]) + (if Center(b, axis) < v then [] else [b])
  {
    assert [a, b][1..] == [b];
    assert [b][1..] == [];
    assert Below([b], axis, v) == (if Center(b, axis) < v then [b] else []) + Below([], axis, v);
    assert AtOrAbove([b], axis, v) == (if Center(b, axis) < v then [] else [b]) + AtOrAbove([], axis, v);
  }

  /** The frame as written after the move: what RemoveFromTree, the insert
   *  and the compaction make of the built tree. */
  lemma MovedFrameSteps()
    ensures var m := map[1 := FirstAtTwenty(), 2 := SecondAtTen()];
            RemoveFromTreeAsWritten(TwoLeaves(), 1, m) == (TwoLeaves(), false) &&
            CompactTree(InsertIntoLeaf(TwoLeaves(), FirstAtTwenty())) ==
              Node(X, 10.0, [], Leaf(Y, [FirstAtZero()]), Leaf(Y, [SecondAtTen(), FirstAtTwenty()]))
  {
    var b, a' := SecondAtTen(), FirstAtTwenty();
    MarkFirstAbsent([b], 1);
    assert LiveObjects([b, a']) == [b, a'] by {
      assert [b, a'][1..] == [a'];
      assert [a'][1..] == [];
      assert LiveObjects([a']) == [a'] + LiveObjects([]);
    }
    assert LiveObjects([FirstAtZero()]) == [FirstAtZero()];
  }

  /** What the resulting tree holds: entity 1 live twice. */
  lemma ThreeObjects(a: KDObject, b: KDObject, a': KDObject)
    requires !a.deleted && !b.deleted && !a'.deleted && a.entity == a'.entity != b.entity
    ensures LiveCopies(Node(X, 10.0, [], Leaf(Y, [a]), Leaf(Y, [b, a'])), a.entity) == [a, a']
  {
    var t := Node(X, 10.0, [], Leaf(Y, [a]), Leaf(Y, [b, a']));
    LeafObjects(Y, 0.0, [a]);
    LeafObjects(Y, 0.0, [b, a']);
    InnerObjects(X, 10.0, Leaf(Y, [a]), Leaf(Y, [b, a']));
    assert AllObjects(t) == [a] + [b, a'];
    LiveCopiesSplit([a], [b, a'], a.entity);
    LiveCopiesSplit([b], [a'], a.entity);
    assert [b] + [a'] == [b, a'];
    LiveCopiesOne(a, a.entity);
    LiveCopiesOne(b, a.entity);
    LiveCopiesOne(a', a.entity);
  }

  /** As written, after Build of that tree (threshold 2, so one move of two
   *  entities is a partial update), UpdateBoundingAABB of entity 1 to
   *  x = 20 and EndFrameUpdate: RemoveFromTree goes down the side of the
   *  new box and does not find the old copy, the new copy is inserted
   *  beside entity 2, and no leaf was touched. Entity 1 is then live twice,
   *  and a Query at its old place still reports it. */
  lemma MovedAcrossSplitAsWritten()
    ensures Plan(1, 2, 2.0) == Partial
    ensures var t := BuildTree([FirstAtZero(), SecondAtTen()], 0, 1);
            var m := map[1 := FirstAtTwenty(), 2 := SecondAtTen()];
            var (t1, found) := RemoveFromTreeAsWritten(t, 1, m);
            var t2 := CompactTree(InsertIntoLeaf(t1, m[1]));
            !found && t1 == t &&
            LiveCopies(t2, 1) == [FirstAtZero(), FirstAtTwenty()] && Expected(m, 1) == [FirstAtTwenty()] &&
            1 in Hits(AllObjects(t2), AABB(-2.0, -2.0, 2.0, 2.0)) && !Overlaps(m[1].aabb, AABB(-2.0, -2.0, 2.0, 2.0))
  {
    TwoObjectTree();
    MovedFrameSteps();
    var t2 := Node(X, 10.0, [], Leaf(Y, [FirstAtZero()]), Leaf(Y, [SecondAtTen(), FirstAtTwenty()]));
    ThreeObjects(FirstAtZero(), SecondAtTen(), FirstAtTwenty());
    var region := AABB(-2.0, -2.0, 2.0, 2.0);
    HitsMembers(AllObjects(t2), region, 1);
    LeafObjects(Y, 0.0, [FirstAtZero()]);
    InnerObjects(X, 10.0, Leaf(Y, [FirstAtZero()]), Leaf(Y, [SecondAtTen(), FirstAtTwenty()]));
    assert FirstAtZero() in AllObjects(t2);
    assert RebuildLimit(2.0, 2) == 4;
  }

  /** As written, after Build of that tree, Remove of entity 1 and a partial
   *  EndFrameUpdate: the map no longer holds entity 1, so RemoveFromTree
   *  gives up at the root, nothing is inserted for it, and its copy stays
   *  live; a Query at its place still reports the removed entity. */
  lemma RemovedEntityAsWritten()
    ensures BuildTree([FirstAtZero(), SecondAtTen()], 0, 1) == TwoLeaves()
    ensures var m := map[2 := SecondAtTen()];
            var (t1, found) := RemoveFromTreeAsWritten(TwoLeaves(), 1, m);
            !found && t1 == TwoLeaves() && 1 !in m &&
            FirstAtZero() in LiveCopies(CompactTree(t1), 1) &&
            1 in Hits(AllObjects(CompactTree(t1)), AABB(-2.0, -2.0, 2.0, 2.0))
  {
    TwoObjectTree();
    TwoLeavesObjects();
    var m := map[2 := SecondAtTen()];
    assert RemoveFromTreeAsWritten(TwoLeaves(), 1, m) == (TwoLeaves(), false);
    CompactSameCopies(TwoLeaves(), 1);
    CompactSameHits(TwoLeaves(), AABB(-2.0, -2.0, 2.0, 2.0));
    TwoLeavesReport();
  }

  lemma TwoLeavesObjects()
    ensures AllObjects(TwoLeaves()) == [FirstAtZero(), SecondAtTen()]
    ensures Full(TwoLeaves())
  {
    var a, b := FirstAtZero(), SecondAtTen();
    LeafObjects(Y, 0.0, [a]);
    LeafObjects(Y, 0.0, [b]);
    InnerObjects(X, 10.0, Leaf(Y, [a]), Leaf(Y, [b]));
  }

  lemma TwoLeavesReport()
    ensures FirstAtZero() in LiveCopies(TwoLeaves(), 1)
    ensures 1 in Hits(AllObjects(TwoLeaves()), AABB(-2.0, -2.0, 2.0, 2.0))
  {
    var a, b := FirstAtZero(), SecondAtTen();
    TwoLeavesObjects();
    HitsMembers([a, b], AABB(-2.0, -2.0, 2.0, 2.0), 1);
    LiveIdempotent([a, b]);
    CopiesMembers(LiveObjects([a, b]), 1);
  }

  /** With the corrected removal the same two frames leave entity 1 live
   *  exactly once at its new place, and not at all once removed. */
  lemma CorrectedRemovalFrames()
    ensures var t := BuildTree([FirstAtZero(), SecondAtTen()], 0, 1);
            LiveCopies(CompactTree(InsertIntoLeaf(RemoveEntity(t, 1, []).0, FirstAtTwenty())), 1) == [FirstAtTwenty()] &&
            LiveCopies(CompactTree(RemoveEntity(t, 1, []).0), 1) == []
  {
    TwoObjectTree();
    var t := BuildTree([FirstAtZero(), SecondAtTen()], 0, 1);
    assert Full(t);
    RemoveEntityCopies(t, 1, [], 1);
    var t1 := RemoveEntity(t, 1, []).0;
    InsertOwn(t1, FirstAtTwenty());
    assert Fresh(FirstAtTwenty()) == FirstAtTwenty();
    var _, _ := InsertLands(t1, FirstAtTwenty());
    CompactSameCopies(InsertIntoLeaf(t1, FirstAtTwenty()), 1);
    CompactSameCopies(t1, 1);
  }

  // ---------------------------------------------------------------------
  // GetBoundingAABB
  // ---------------------------------------------------------------------

  /** The loop of GetBoundingAABB over a shape's vertices (the first one
   *  included): the smallest and largest coordinate on each axis. The box
   *  is well formed, holds every vertex, and each bound is some vertex's. */
  method BoundingAABBOf(vertices: seq<(real, real)>) returns (b: AABB)
    requires |vertices| > 0
    ensures WellFormed(b)
    ensures forall i :: 0 <= i < |vertices| ==> Holds(b, vertices[i].0, vertices[i].1)
    ensures exists i :: 0 <= i < |vertices| && vertices[i].0 == b.minX
    ensures exists i :: 0 <= i < |vertices| && vertices[i].1 == b.minY
    ensures exists i :: 0 <= i < |vertices| && vertices[i].0 == b.maxX
    ensures exists i :: 0 <= i < |vertices| && vertices[i].1 == b.maxY
  {
    var minX, minY, maxX, maxY := vertices[0].0, vertices[0].1, vertices[0].0, vertices[0].1;
    ghost var iMinX, iMinY, iMaxX, iMaxY := 0, 0, 0, 0;
    for i := 0 to |vertices|
      invariant minX <= vertices[0].0 <= maxX && minY <= vertices[0].1 <= maxY
      invariant forall k :: 0 <= k < i ==> minX <= vertices[k].0 <= maxX && minY <= vertices[k].1 <= maxY
      invariant 0 <= iMinX < |vertices| && vertices[iMinX].0 == minX
      invariant 0 <= iMinY < |vertices| && vertices[iMinY].1 == minY
      invariant 0 <= iMaxX < |vertices| && vertices[iMaxX].0 == maxX
      invariant 0 <= iMaxY < |vertices| && vertices[iMaxY].1 == maxY
    {
      var v := vertices[i];
      if v.0 < minX { iMinX := i; }
      if v.1 < minY { iMinY := i; }
      if maxX < v.0 { iMaxX := i; }
      if maxY < v.1 { iMaxY := i; }
      minX, minY := Min(minX, v.0), Min(minY, v.1);
      maxX, maxY := Max(maxX, v.0), Max(maxY, v.1);
    }
    b := AABB(minX, minY, maxX, maxY);
  }
}
