/**
 * The per-layer batching of src/renderer/render_data.cpp: each render
 * layer keeps a list of batches, each batch holds up to batch_capacity_
 * shapes of every kind and the textures its quads use (slot 0 being the
 * white texture), and the shape functions dispatch to the primitives.
 *
 * A shape is known by its kind, a quad by its texture, and the points of
 * a rect or polygon by their positions in its vertex list; positions,
 * colours and angles are float data that is not modelled. The batch
 * choice of the header's GetAvailableBatch, which every primitive goes
 * through, is part of the model.
 */
module LayerRendering {
  import Wrappers
  import RenderEngine

  datatype Kind = Quad | Circle | Triangle | Line | Point

  datatype LayerBatch = LayerBatch(textures: seq<nat>, quads: seq<nat>, circles: nat, triangles: nat, lines: nat, points: nat)

  /** Batch(): nothing batched. */
  const EmptyBatch: LayerBatch := LayerBatch([], [], 0, 0, 0, 0)

  /** Batch(texture): a batch that binds exactly that texture. */
  function BatchWithTexture(t: nat): (b: LayerBatch)
    ensures b.textures == [t] && forall k :: Size(b, k) == 0
  {
    LayerBatch([t], [], 0, 0, 0, 0)
  }

  function Size(b: LayerBatch, k: Kind): nat
  {
    match k
    case Quad => |b.quads|
    case Circle => b.circles
    case Triangle => b.triangles
    case Line => b.lines
    case Point => b.points
  }

  /** One more shape of the kind; a quad records its texture index. */
  function Pushed(b: LayerBatch, k: Kind, textureIndex: nat): (r: LayerBatch)
    ensures Size(r, k) == Size(b, k) + 1 && forall j :: j != k ==> Size(r, j) == Size(b, j)
    ensures r.textures == b.textures
    ensures k == Quad ==> r.quads == b.quads + [textureIndex]
    ensures k != Quad ==> r.quads == b.quads
  {
    match k
    case Quad => b.(quads := b.quads + [textureIndex])
    case Circle => b.(circles := b.circles + 1)
    case Triangle => b.(triangles := b.triangles + 1)
    case Line => b.(lines := b.lines + 1)
    case Point => b.(points := b.points + 1)
  }

  /** GetAvailableTextureIndex as a value: the index and the batch after.
   *  A texture already bound keeps its slot i + 1; when the batch is at
   *  max_texture_slots - 1 textures a new one gets 0; otherwise it is
   *  appended and gets the new size. */
  function AvailableTextureIndex(b: LayerBatch, t: nat, maxTextureSlots: nat): (r: (LayerBatch, nat))
    ensures t in b.textures ==> r.0 == b && 1 <= r.1 <= |b.textures| && b.textures[r.1 - 1] == t
    ensures t !in b.textures && |b.textures| + 1 == maxTextureSlots ==> r.0 == b && r.1 == 0
    ensures t !in b.textures && |b.textures| + 1 != maxTextureSlots ==>
              r.0 == b.(textures := b.textures + [t]) && r.1 == |b.textures| + 1
  {
    match RenderEngine.TextureLookup(b.textures, t)
    case Some(i) => (b, i + 1)
    case None =>
      if |b.textures| + 1 == maxTextureSlots then (b, 0)
      else (b.(textures := b.textures + [t]), |b.textures| + 1)
  }

  /** The loop of GetAvailableTextureIndex. */
  method GetAvailableTextureIndex(b: LayerBatch, t: nat, maxTextureSlots: nat) returns (batch: LayerBatch, index: nat)
    ensures (batch, index) == AvailableTextureIndex(b, t, maxTextureSlots)
  {
    var i := 0;
    while i < |b.textures|
      invariant 0 <= i <= |b.textures|
      invariant forall k :: 0 <= k < i ==> b.textures[k] != t
    {
      if b.textures[i] == t {
        assert RenderEngine.TextureLookup(b.textures, t) == Wrappers.Some(i);
        return b, i + 1;
      }
      i := i + 1;
    }
    if |b.textures| + 1 == maxTextureSlots {
      return b, 0;
    }
    batch := b.(textures := b.textures + [t]);
    index := |batch.textures|;
  }

  /** The number of shapes of a kind in a list of batches. */
  function Total(g: seq<LayerBatch>, k: Kind): nat
  {
    if |g| == 0 then 0 else Total(g[..|g| - 1], k) + Size(g[|g| - 1], k)
  }

  lemma {:induction false} TotalAppend(g: seq<LayerBatch>, b: LayerBatch, k: Kind)
    ensures Total(g + [b], k) == Total(g, k) + Size(b, k)
  {
    assert (g + [b])[..|g|] == g;
  }

  lemma {:induction false} TotalUpdate(g: seq<LayerBatch>, i: nat, b: LayerBatch, k: Kind)
    requires i < |g|
    ensures Total(g[i := b], k) + Size(g[i], k) == Total(g, k) + Size(b, k)
  {
    var n := |g| - 1;
    if i == n {
      assert g[i := b][..n] == g[..n];
    } else {
      assert g[i := b][..n] == g[..n][i := b];
      TotalUpdate(g[..n], i, b, k);
    }
  }

  /** A shape drawn by a shape function; points are positions in the
   *  shape's vertex list. */
  datatype Shape = QuadShape(texture: nat) | CircleShape | TriangleShape(a: nat, b: nat, c: nat)
                 | LineShape(a: nat, b: nat) | PointShape(p: nat)

  function KindOf(s: Shape): Kind
  {
    match s
    case QuadShape(_) => Quad
    case CircleShape => Circle
    case TriangleShape(_, _, _) => Triangle
    case LineShape(_, _) => Line
    case PointShape(_) => Point
  }

  /** The first batch with quad room where the texture gets a slot. */
  function FirstTexturedBatch(g: seq<LayerBatch>, t: nat, capacity: nat, maxTextureSlots: nat): (r: Wrappers.Option<nat>)
    ensures r.Some? ==> r.value < |g| && |g[r.value].quads| != capacity &&
                        AvailableTextureIndex(g[r.value], t, maxTextureSlots).1 != 0
    ensures r.Some? ==> forall j :: 0 <= j < r.value ==>
                          |g[j].quads| == capacity || AvailableTextureIndex(g[j], t, maxTextureSlots).1 == 0
    ensures r.None? ==> forall j :: 0 <= j < |g| ==>
                          |g[j].quads| == capacity || AvailableTextureIndex(g[j], t, maxTextureSlots).1 == 0
  {
    if |g| == 0 then Wrappers.None
    else if |g[0].quads| != capacity && AvailableTextureIndex(g[0], t, maxTextureSlots).1 != 0 then Wrappers.Some(0)
    else match FirstTexturedBatch(g[1..], t, capacity, maxTextureSlots)
      case None => Wrappers.None
      case Some(i) => Wrappers.Some(i + 1)
  }

  /** Every batch holds at most the capacity of every kind, 1 to
   *  max_texture_slots - 1 slots' worth of distinct textures, and quads
   *  whose texture index names the white texture or a bound one. */
  predicate BatchValid(b: LayerBatch, capacity: nat, maxTextureSlots: nat)
  {
    && (forall k :: Size(b, k) <= capacity)
    && |b.textures| < maxTextureSlots
    && (forall i, j :: 0 <= i < j < |b.textures| ==> b.textures[i] != b.textures[j])
    && (forall q :: 0 <= q < |b.quads| ==> b.quads[q] <= |b.textures|)
  }

  predicate GroupValid(g: seq<LayerBatch>, capacity: nat, maxTextureSlots: nat)
  {
    |g| > 0 && forall i :: 0 <= i < |g| ==> BatchValid(g[i], capacity, maxTextureSlots)
  }

  lemma TextureIndexValid(b: LayerBatch, t: nat, capacity: nat, maxTextureSlots: nat)
    requires BatchValid(b, capacity, maxTextureSlots)
    ensures BatchValid(AvailableTextureIndex(b, t, maxTextureSlots).0, capacity, maxTextureSlots)
  {
    var r := AvailableTextureIndex(b, t, maxTextureSlots);
    if t !in b.textures && |b.textures| + 1 != maxTextureSlots {
      forall k ensures Size(r.0, k) <= capacity {
        assert Size(r.0, k) == Size(b, k);
      }
      forall i, j | 0 <= i < j < |r.0.textures|
        ensures r.0.textures[i] != r.0.textures[j]
      {
        if j == |b.textures| {
          assert r.0.textures[i] == b.textures[i];
        }
      }
    }
  }

  lemma PushedValid(b: LayerBatch, k: Kind, textureIndex: nat, capacity: nat, maxTextureSlots: nat)
    requires BatchValid(b, capacity, maxTextureSlots) && Size(b, k) < capacity
    requires k == Quad ==> textureIndex <= |b.textures|
    ensures BatchValid(Pushed(b, k, textureIndex), capacity, maxTextureSlots)
  {
    var r := Pushed(b, k, textureIndex);
    forall j ensures Size(r, j) <= capacity {
      if j != k {
        assert Size(r, j) == Size(b, j);
      }
    }
    forall q | 0 <= q < |r.quads| ensures r.quads[q] <= |r.textures| {
      if q < |b.quads| {
        assert r.quads[q] == b.quads[q];
      }
    }
  }

  lemma SetValid(g: seq<LayerBatch>, i: nat, b: LayerBatch, capacity: nat, maxTextureSlots: nat)
    requires GroupValid(g, capacity, maxTextureSlots) && i < |g| && BatchValid(b, capacity, maxTextureSlots)
    ensures GroupValid(g[i := b], capacity, maxTextureSlots)
  {
  }

  lemma AppendValid(g: seq<LayerBatch>, b: LayerBatch, capacity: nat, maxTextureSlots: nat)
    requires GroupValid(g, capacity, maxTextureSlots) && BatchValid(b, capacity, maxTextureSlots)
    ensures GroupValid(g + [b], capacity, maxTextureSlots)
  {
    forall i | 0 <= i < |g| + 1
      ensures BatchValid((g + [b])[i], capacity, maxTextureSlots)
    {
      if i < |g| {
        assert (g + [b])[i] == g[i];
      }
    }
  }

  class RenderData {
    /** Render layer to its batches, in ascending layer order as a
     *  std::map keeps them. */
    var layers: map<int, seq<LayerBatch>>
    var refreshViewProjection: bool
    /** The layers handed to the draw calls, in the order drawn. */
    var flushed: seq<int>
    const capacity: nat
    const maxTextureSlots: nat
    const whiteTexture: nat

    ghost predicate Valid()
      reads this
    {
      capacity >= 1 && maxTextureSlots >= 2 &&
      LayersValid(layers, capacity, maxTextureSlots)
    }

    constructor (capacity: nat, maxTextureSlots: nat, whiteTexture: nat)
      requires capacity >= 1 && maxTextureSlots >= 2
      ensures Valid() && layers == map[] && refreshViewProjection && flushed == []
      ensures this.capacity == capacity && this.maxTextureSlots == maxTextureSlots && this.whiteTexture == whiteTexture
    {
      layers := map[];
      refreshViewProjection := true;
      flushed := [];
      this.capacity := capacity;
      this.maxTextureSlots := maxTextureSlots;
      this.whiteTexture := whiteTexture;
    }

    /** GetLayerBatches: a missing layer is created with one empty batch. */
    method GetLayerBatches(layer: int)
      requires Valid()
      modifies this`layers
      ensures Valid() && layer in layers
      ensures layers == if layer in old(layers) then old(layers) else old(layers)[layer := [EmptyBatch]]
    {
      if layer !in layers {
        layers := layers[layer := [EmptyBatch]];
      }
    }

    /** SetViewProjection: the shaders get the new matrix at the next
     *  flush. */
    method SetViewProjection()
      modifies this`refreshViewProjection
      ensures refreshViewProjection
    {
      refreshViewProjection := true;
    }

    /** Flush: nothing when no layer holds batches; otherwise every layer
     *  is drawn in ascending layer order, the view projection is marked
     *  current, and the layers are cleared. */
    method Flush()
      requires Valid()
      modifies this`layers, this`refreshViewProjection, this`flushed
      ensures Valid()
      ensures old(layers) == map[] ==> unchanged(this)
      ensures old(layers) != map[] ==>
                layers == map[] && !refreshViewProjection &&
                |flushed| >= |old(flushed)| && flushed[..|old(flushed)|] == old(flushed) &&
                Ascending(flushed[|old(flushed)|..]) && Elements(flushed[|old(flushed)|..]) == old(layers).Keys
    {
      if layers == map[] {
        return;
      }
      if refreshViewProjection {
        refreshViewProjection := false;
      }
      var drawn := AscendingKeys(layers.Keys);
      assert (flushed + drawn)[..|flushed|] == flushed && (flushed + drawn)[|flushed|..] == drawn;
      flushed := flushed + drawn;
      layers := map[];
    }

    /** The primitives of a shape function, one after the other. Each
     *  AddPrimitive creates the layer, so no shape creates none. */
    method AddShapes(layer: int, shapes: seq<Shape>)
      requires Valid()
      modifies this`layers
      ensures Valid()
      ensures shapes == [] ==> layers == old(layers)
      ensures shapes != [] ==>
                layer in layers && layers == old(layers)[layer := layers[layer]] &&
                Grew(BatchesOf(old(layers), layer), layers[layer], shapes) &&
                layers[layer] == AddedAll(BatchesOf(old(layers), layer), shapes, capacity, maxTextureSlots, whiteTexture)
    {
      if shapes == [] {
        return;
      }
      GetLayerBatches(layer);
      AddShapesAt(layer, shapes);
    }

    /** The loop of AddShapes, once the layer exists. */
    method AddShapesAt(layer: int, shapes: seq<Shape>)
      requires Valid() && layer in layers
      modifies this`layers
      ensures Valid() && layer in layers
      ensures layers == old(layers)[layer := layers[layer]]
      ensures Grew(old(layers)[layer], layers[layer], shapes)
      ensures layers[layer] == AddedAll(old(layers)[layer], shapes, capacity, maxTextureSlots, whiteTexture)
    {
      ghost var before := layers[layer];
      ghost var start := layers;
      assert Grew(before, layers[layer], shapes[..0]);
      var n := 0;
      while n < |shapes|
        invariant 0 <= n <= |shapes|
        invariant Valid() && layer in layers && layers == start[layer := layers[layer]]
        invariant Grew(before, layers[layer], shapes[..n])
        invariant layers[layer] == AddedAll(before, shapes[..n], capacity, maxTextureSlots, whiteTexture)
      {
        AddNext(layer, shapes, n, before, start);
        n := n + 1;
      }
      assert shapes[..|shapes|] == shapes;
    }

    /** One turn of AddShapesAt's loop: the shape at `n` joins the first `n`. */
    method AddNext(layer: int, shapes: seq<Shape>, n: nat, ghost before: seq<LayerBatch>, ghost start: map<int, seq<LayerBatch>>)
      requires Valid() && layer in layers && n < |shapes| && |before| > 0
      requires layers == start[layer := layers[layer]]
      requires Grew(before, layers[layer], shapes[..n])
      requires layers[layer] == AddedAll(before, shapes[..n], capacity, maxTextureSlots, whiteTexture)
      modifies this`layers
      ensures Valid() && layer in layers && layers == start[layer := layers[layer]]
      ensures Grew(before, layers[layer], shapes[..n + 1])
      ensures layers[layer] == AddedAll(before, shapes[..n + 1], capacity, maxTextureSlots, whiteTexture)
    {
      ghost var current := layers[layer];
      AddOne(layer, shapes[n]);
      AddedAllStep(before, shapes, n, capacity, maxTextureSlots, whiteTexture);
      GrewStep(before, current, layers[layer], shapes, n);
    }

    /** AddPrimitive with the frame and the new batches only, as the
     *  shape functions use it. */
    method AddOne(layer: int, s: Shape)
      requires Valid()
      modifies this`layers
      ensures Valid() && layer in layers
      ensures layers == old(layers)[layer := layers[layer]]
      ensures Grew(BatchesOf(old(layers), layer), layers[layer], [s])
      ensures layers[layer] == AddedToGroup(BatchesOf(old(layers), layer), s, capacity, maxTextureSlots, whiteTexture)
    {
      var _, _ := AddPrimitive(layer, s);
    }

    /** AddTexture: one quad of the texture. */
    method AddTexture(texture: nat, layer: int)
      requires Valid()
      modifies this`layers
      ensures Valid() && layer in layers
      ensures Grew(BatchesOf(old(layers), layer), layers[layer], [QuadShape(texture)])
      ensures layers == old(layers)[layer := AddedToGroup(BatchesOf(old(layers), layer), QuadShape(texture), capacity, maxTextureSlots, whiteTexture)]
      ensures var p := Placement(BatchesOf(old(layers), layer), QuadShape(texture), capacity, maxTextureSlots, whiteTexture);
              var b := layers[layer][p.0];
              |b.quads| > 0 && b.quads[|b.quads| - 1] == p.1 &&
              (texture == whiteTexture ==> p.1 == 0) &&
              (texture != whiteTexture ==> 1 <= p.1 <= |b.textures| && b.textures[p.1 - 1] == texture)
    {
      var _, _ := AddPrimitive(layer, QuadShape(texture));
    }

    /** AddLine, from the first to the second vertex of a line. */
    method AddLine(lineWidth: real, layer: int)
      requires Valid() && lineWidth >= 0.0
      modifies this`layers
      ensures Valid() && layer in layers
      ensures Grew(BatchesOf(old(layers), layer), layers[layer], LineShapes(0, 1, lineWidth, whiteTexture))
      ensures layers == old(layers)[layer := AddedAll(BatchesOf(old(layers), layer), LineShapes(0, 1, lineWidth, whiteTexture), capacity, maxTextureSlots, whiteTexture)]
    {
      AddShapes(layer, LineShapes(0, 1, lineWidth, whiteTexture));
    }

    /** AddPoint: a point primitive or a filled ellipse. */
    method AddPoint(radius: real, layer: int)
      requires Valid()
      modifies this`layers
      ensures Valid() && layer in layers
      ensures Grew(BatchesOf(old(layers), layer), layers[layer], PointShapes(radius))
      ensures layers == old(layers)[layer := AddedAll(BatchesOf(old(layers), layer), PointShapes(radius), capacity, maxTextureSlots, whiteTexture)]
    {
      AddShapes(layer, PointShapes(radius));
    }

    /** AddTriangle: a triangle primitive or its outline. */
    method AddTriangle(lineWidth: real, layer: int)
      requires Valid() && (lineWidth == -1.0 || lineWidth >= 0.0)
      modifies this`layers
      ensures Valid() && layer in layers
      ensures Grew(BatchesOf(old(layers), layer), layers[layer], TriangleOutline(lineWidth, whiteTexture))
      ensures layers == old(layers)[layer := AddedAll(BatchesOf(old(layers), layer), TriangleOutline(lineWidth, whiteTexture), capacity, maxTextureSlots, whiteTexture)]
    {
      AddShapes(layer, TriangleOutline(lineWidth, whiteTexture));
    }

    /** AddRect: a filled rect is one white quad, a hollow one its four
     *  edges. */
    method AddRect(lineWidth: real, layer: int)
      requires Valid() && (lineWidth == -1.0 || lineWidth >= 0.0)
      modifies this`layers
      ensures Valid() && layer in layers
      ensures Grew(BatchesOf(old(layers), layer), layers[layer], RectShapes(lineWidth, whiteTexture))
      ensures layers == old(layers)[layer := AddedAll(BatchesOf(old(layers), layer), RectShapes(lineWidth, whiteTexture), capacity, maxTextureSlots, whiteTexture)]
    {
      AddShapes(layer, RectShapes(lineWidth, whiteTexture));
    }

    /** AddPolygon: a filled polygon is its triangulation, a hollow one its
     *  edges, the last joined to the first. */
    method AddPolygon(vertexCount: nat, triangles: seq<(nat, nat, nat)>, lineWidth: real, layer: int)
      requires Valid() && (lineWidth == -1.0 || lineWidth >= 0.0)
      modifies this`layers
      ensures Valid()
      ensures PolygonShapes(vertexCount, triangles, lineWidth, whiteTexture) == [] <==>
                (if lineWidth == -1.0 then triangles == [] else vertexCount == 0)
      ensures PolygonShapes(vertexCount, triangles, lineWidth, whiteTexture) == [] ==> layers == old(layers)
      ensures PolygonShapes(vertexCount, triangles, lineWidth, whiteTexture) != [] ==>
                layer in layers &&
                Grew(BatchesOf(old(layers), layer), layers[layer], PolygonShapes(vertexCount, triangles, lineWidth, whiteTexture)) &&
                layers == old(layers)[layer := AddedAll(BatchesOf(old(layers), layer), PolygonShapes(vertexCount, triangles, lineWidth, whiteTexture), capacity, maxTextureSlots, whiteTexture)]
    {
      AddShapes(layer, PolygonShapes(vertexCount, triangles, lineWidth, whiteTexture));
    }

    /** GetAvailableBatch and the emplace of AddPrimitive: the shape goes to
     *  its layer. A textured quad goes to the first batch with quad room
     *  that binds its texture or can, or to a new batch bound to it with
     *  index 1; any other shape goes to the last batch, or to a new empty
     *  one when that batch is full of its kind. */
    method AddPrimitive(layer: int, s: Shape) returns (i: nat, textureIndex: nat)
      requires Valid()
      modifies this`layers
      ensures Valid() && layer in layers
      ensures layers == old(layers)[layer := layers[layer]]
      ensures Grew(BatchesOf(old(layers), layer), layers[layer], [s])
      ensures i < |layers[layer]| && Size(layers[layer][i], KindOf(s)) > 0
      ensures s.QuadShape? ==> |layers[layer][i].quads| > 0 && layers[layer][i].quads[|layers[layer][i].quads| - 1] == textureIndex
      ensures s.QuadShape? && s.texture != whiteTexture ==>
                1 <= textureIndex <= |layers[layer][i].textures| && layers[layer][i].textures[textureIndex - 1] == s.texture
      ensures !(s.QuadShape? && s.texture != whiteTexture) ==> textureIndex == 0 && i == |layers[layer]| - 1
      ensures layers[layer] == AddedToGroup(BatchesOf(old(layers), layer), s, capacity, maxTextureSlots, whiteTexture)
      ensures (i, textureIndex) == Placement(BatchesOf(old(layers), layer), s, capacity, maxTextureSlots, whiteTexture)
    {
      GetLayerBatches(layer);
      var g';
      g', i, textureIndex := AddToGroup(layers[layer], s, capacity, maxTextureSlots, whiteTexture);
      LayersValidSet(layers, layer, g', capacity, maxTextureSlots);
      layers := layers[layer := g'];
    }
  }

  /** AddPrimitive on the batches of one layer. */
  method AddToGroup(g: seq<LayerBatch>, s: Shape, capacity: nat, maxTextureSlots: nat, whiteTexture: nat)
    returns (g': seq<LayerBatch>, i: nat, textureIndex: nat)
    requires capacity >= 1 && maxTextureSlots >= 2 && GroupValid(g, capacity, maxTextureSlots)
    ensures GroupValid(g', capacity, maxTextureSlots) && Grew(g, g', [s])
    ensures i < |g'| && Size(g'[i], KindOf(s)) > 0
    ensures s.QuadShape? ==> |g'[i].quads| > 0 && g'[i].quads[|g'[i].quads| - 1] == textureIndex
    ensures s.QuadShape? && s.texture != whiteTexture ==>
              1 <= textureIndex <= |g'[i].textures| && g'[i].textures[textureIndex - 1] == s.texture
    ensures !(s.QuadShape? && s.texture != whiteTexture) ==> textureIndex == 0 && i == |g'| - 1
    ensures g' == AddedToGroup(g, s, capacity, maxTextureSlots, whiteTexture)
    ensures (i, textureIndex) == Placement(g, s, capacity, maxTextureSlots, whiteTexture)
  {
    if s.QuadShape? && s.texture != whiteTexture {
      g', i, textureIndex := AddTexturedQuad(g, s.texture, capacity, maxTextureSlots);
    } else {
      g', i := AddToLastBatch(g, KindOf(s), capacity, maxTextureSlots);
      textureIndex := 0;
    }
    GrewOne(g, g', s);
  }

  /** The batch a shape goes to, and the texture index it gets there. */
  function Placement(g: seq<LayerBatch>, s: Shape, capacity: nat, maxTextureSlots: nat, whiteTexture: nat): (r: (nat, nat))
    requires |g| > 0
    ensures r.0 <= |g|
    ensures !(s.QuadShape? && s.texture != whiteTexture) ==> r.1 == 0 && r.0 >= |g| - 1
  {
    if s.QuadShape? && s.texture != whiteTexture then
      match FirstTexturedBatch(g, s.texture, capacity, maxTextureSlots)
      case Some(j) => (j, AvailableTextureIndex(g[j], s.texture, maxTextureSlots).1)
      case None => (|g|, 1)
    else if Size(g[|g| - 1], KindOf(s)) == capacity then (|g|, 0)
    else (|g| - 1, 0)
  }

  /** AddPrimitive on the batches of one layer, as a value. */
  function AddedToGroup(g: seq<LayerBatch>, s: Shape, capacity: nat, maxTextureSlots: nat, whiteTexture: nat): (r: seq<LayerBatch>)
    requires |g| > 0
    ensures |g| <= |r| <= |g| + 1
  {
    if s.QuadShape? && s.texture != whiteTexture then
      match FirstTexturedBatch(g, s.texture, capacity, maxTextureSlots)
      case Some(j) =>
        var a := AvailableTextureIndex(g[j], s.texture, maxTextureSlots);
        g[j := Pushed(a.0, Quad, a.1)]
      case None => g + [Pushed(BatchWithTexture(s.texture), Quad, 1)]
    else if Size(g[|g| - 1], KindOf(s)) == capacity then g + [Pushed(EmptyBatch, KindOf(s), 0)]
    else g[|g| - 1 := Pushed(g[|g| - 1], KindOf(s), 0)]
  }

  /** Only the batch Placement names changes, or one batch is appended
   *  when it names the end; that batch holds the shape, a quad with the
   *  index Placement gives. */
  lemma AddedToGroupChanges(g: seq<LayerBatch>, s: Shape, capacity: nat, maxTextureSlots: nat, whiteTexture: nat)
    requires |g| > 0
    ensures var p := Placement(g, s, capacity, maxTextureSlots, whiteTexture);
            var r := AddedToGroup(g, s, capacity, maxTextureSlots, whiteTexture);
            p.0 < |r| && (|r| == |g| + 1 <==> p.0 == |g|) &&
            (forall m :: 0 <= m < |g| && m != p.0 ==> r[m] == g[m]) &&
            Size(r[p.0], KindOf(s)) > 0 && (s.QuadShape? ==> r[p.0].quads[|r[p.0].quads| - 1] == p.1)
  {
  }

  /** The shapes added one after the other. */
  function AddedAll(g: seq<LayerBatch>, shapes: seq<Shape>, capacity: nat, maxTextureSlots: nat, whiteTexture: nat): (r: seq<LayerBatch>)
    requires |g| > 0
    ensures |g| <= |r| <= |g| + |shapes|
  {
    if |shapes| == 0 then g
    else AddedToGroup(AddedAll(g, shapes[..|shapes| - 1], capacity, maxTextureSlots, whiteTexture), shapes[|shapes| - 1], capacity, maxTextureSlots, whiteTexture)
  }

  /** One more shape of a list is one more AddedToGroup. */
  lemma AddedAllStep(g: seq<LayerBatch>, shapes: seq<Shape>, n: nat, capacity: nat, maxTextureSlots: nat, whiteTexture: nat)
    requires |g| > 0 && n < |shapes|
    ensures AddedAll(g, shapes[..n + 1], capacity, maxTextureSlots, whiteTexture)
            == AddedToGroup(AddedAll(g, shapes[..n], capacity, maxTextureSlots, whiteTexture), shapes[n], capacity, maxTextureSlots, whiteTexture)
  {
    assert shapes[..n + 1][..n] == shapes[..n];
  }

  predicate LayersValid(layers: map<int, seq<LayerBatch>>, capacity: nat, maxTextureSlots: nat)
  {
    forall l :: l in layers ==> GroupValid(layers[l], capacity, maxTextureSlots)
  }

  /** The batches of a layer, as GetLayerBatches finds or creates them. */
  function BatchesOf(layers: map<int, seq<LayerBatch>>, layer: int): (g: seq<LayerBatch>)
    ensures layer in layers ==> g == layers[layer]
    ensures layer !in layers ==> g == [EmptyBatch]
  {
    if layer in layers then layers[layer] else [EmptyBatch]
  }

  /** The second list of batches holds the shapes of the first and, of
   *  each kind, as many more as the shapes have. */
  predicate Grew(g: seq<LayerBatch>, g': seq<LayerBatch>, shapes: seq<Shape>)
  {
    forall k :: Total(g', k) == Total(g, k) + Count(shapes, k)
  }

  lemma LayersValidSet(layers: map<int, seq<LayerBatch>>, layer: int, g: seq<LayerBatch>, capacity: nat, maxTextureSlots: nat)
    requires LayersValid(layers, capacity, maxTextureSlots) && GroupValid(g, capacity, maxTextureSlots)
    ensures LayersValid(layers[layer := g], capacity, maxTextureSlots)
  {
  }

  lemma CountOne(s: Shape)
    ensures forall k :: Count([s], k) == if k == KindOf(s) then 1 else 0
  {
    assert [s][..0] == [];
  }

  lemma GrewOne(g: seq<LayerBatch>, g': seq<LayerBatch>, s: Shape)
    requires forall k :: Total(g', k) == Total(g, k) + (if k == KindOf(s) then 1 else 0)
    ensures Grew(g, g', [s])
  {
    CountOne(s);
  }

  lemma GrewTrans(a: seq<LayerBatch>, b: seq<LayerBatch>, c: seq<LayerBatch>, first: seq<Shape>, second: seq<Shape>)
    requires Grew(a, b, first) && Grew(b, c, second)
    ensures Grew(a, c, first + second)
  {
    forall k ensures Total(c, k) == Total(a, k) + Count(first + second, k) {
      CountConcat(first, second, k);
    }
  }

  /** GrewTrans for the next shape of a list. */
  lemma GrewStep(a: seq<LayerBatch>, b: seq<LayerBatch>, c: seq<LayerBatch>, shapes: seq<Shape>, n: nat)
    requires n < |shapes| && Grew(a, b, shapes[..n]) && Grew(b, c, [shapes[n]])
    ensures Grew(a, c, shapes[..n + 1])
  {
    assert shapes[..n + 1] == shapes[..n] + [shapes[n]];
    GrewTrans(a, b, c, shapes[..n], [shapes[n]]);
  }

  function Elements(s: seq<int>): set<int>
  {
    set x | x in s
  }

  predicate Ascending(s: seq<int>)
  {
    forall i, j :: 0 <= i < j < |s| ==> s[i] < s[j]
  }

  /** The layers of a set in ascending order: each is drawn once. */
  method AscendingKeys(keys: set<int>) returns (drawn: seq<int>)
    ensures Ascending(drawn) && Elements(drawn) == keys
  {
    var remaining := keys;
    drawn := [];
    while remaining != {}
      invariant remaining <= keys && Elements(drawn) == keys - remaining
      invariant Below(drawn, remaining)
      decreases |remaining|
    {
      var next := MinOf(remaining);
      AscendingStep(drawn, remaining, next);
      drawn := drawn + [next];
      remaining := remaining - {next};
    }
  }

  /** Every drawn layer is below every one still to draw, and the drawn
   *  ones ascend. */
  predicate Below(drawn: seq<int>, remaining: set<int>)
  {
    Ascending(drawn) && forall i, x :: 0 <= i < |drawn| && x in remaining ==> drawn[i] < x
  }

  lemma AscendingStep(drawn: seq<int>, remaining: set<int>, next: int)
    requires Below(drawn, remaining) && next in remaining
    requires forall x :: x in remaining ==> next <= x
    ensures Below(drawn + [next], remaining - {next})
    ensures Elements(drawn + [next]) == Elements(drawn) + {next}
  {
    var d := drawn + [next];
    forall i, j | 0 <= i < j < |d| ensures d[i] < d[j] {
      if j < |drawn| {
        assert d[i] == drawn[i] && d[j] == drawn[j];
      } else {
        assert d[i] == drawn[i];
      }
    }
    forall i, x | 0 <= i < |d| && x in remaining - {next} ensures d[i] < x {
      if i < |drawn| {
        assert d[i] == drawn[i];
      }
    }
    assert Elements(d) == Elements(drawn) + {next} by {
      forall x ensures x in Elements(d) <==> x in Elements(drawn) + {next} {
        if x in Elements(d) {
          var i :| 0 <= i < |d| && d[i] == x;
          if i < |drawn| {
            assert drawn[i] == x;
          }
        }
        if x in Elements(drawn) {
          var i :| 0 <= i < |drawn| && drawn[i] == x;
          assert d[i] == x;
        }
      }
    }
  }

  lemma HasElement(s: set<int>)
    requires s != {}
    ensures exists x :: x in s
  {
    if forall x :: x !in s {
      assert false;
    }
  }

  /** The smallest layer of a non-empty set. */
  method MinOf(s: set<int>) returns (m: int)
    requires s != {}
    ensures m in s && forall x :: x in s ==> m <= x
  {
    HasElement(s);
    m :| m in s;
    var rest := s - {m};
    while rest != {}
      invariant rest <= s && m in s
      invariant forall x :: x in s && x !in rest ==> m <= x
      decreases |rest|
    {
      HasElement(rest);
      var y :| y in rest;
      if y < m {
        m := y;
      }
      rest := rest - {y};
    }
  }

  /** The number of shapes of a kind. */
  function Count(shapes: seq<Shape>, k: Kind): nat
  {
    if |shapes| == 0 then 0
    else Count(shapes[..|shapes| - 1], k) + (if KindOf(shapes[|shapes| - 1]) == k then 1 else 0)
  }

  lemma {:induction false} CountConcat(a: seq<Shape>, b: seq<Shape>, k: Kind)
    ensures Count(a + b, k) == Count(a, k) + Count(b, k)
    decreases |b|
  {
    if |b| == 0 {
      assert a + b == a;
    } else {
      var b' := b[..|b| - 1];
      assert (a + b)[..|a + b| - 1] == a + b';
      CountConcat(a, b', k);
    }
  }

  /** AddLine: a line at most 1 wide is a line primitive; a wider one is
   *  the filled rect around it, a white quad. */
  function LineShapes(a: nat, b: nat, lineWidth: real, white: nat): (r: seq<Shape>)
    requires lineWidth >= 0.0
    ensures |r| == 1
    ensures lineWidth <= 1.0 <==> r[0] == LineShape(a, b)
    ensures lineWidth > 1.0 <==> r[0] == QuadShape(white)
  {
    if lineWidth <= 1.0 then [LineShape(a, b)] else [QuadShape(white)]
  }

  /** The edges from vertex i to vertex (i + 1) mod n, for i < m. */
  function EdgeShapes(n: nat, m: nat, lineWidth: real, white: nat): (r: seq<Shape>)
    requires lineWidth >= 0.0 && m <= n
    ensures |r| == m
  {
    if m == 0 then [] else EdgeShapes(n, m - 1, lineWidth, white) + LineShapes(m - 1, m % n, lineWidth, white)
  }

  /** Each of the edge shapes is the line from i to (i + 1) mod n, or the
   *  white quad of a thick line. */
  lemma {:induction false} EdgeShapesAre(n: nat, m: nat, lineWidth: real, white: nat)
    requires lineWidth >= 0.0 && m <= n
    ensures forall i :: 0 <= i < m ==>
              EdgeShapes(n, m, lineWidth, white)[i] ==
                (if lineWidth <= 1.0 then LineShape(i, (i + 1) % n) else QuadShape(white))
  {
    if m > 0 {
      EdgeShapesAre(n, m - 1, lineWidth, white);
    }
  }

  function RectShapes(lineWidth: real, white: nat): seq<Shape>
    requires lineWidth == -1.0 || lineWidth >= 0.0
  {
    if lineWidth == -1.0 then [QuadShape(white)] else EdgeShapes(4, 4, lineWidth, white)
  }

  /** A filled rect is one white quad; a hollow one at most 1 wide is the
   *  four lines from vertex i to vertex (i + 1) mod 4, and a thicker one
   *  four white quads. */
  lemma HollowRect(lineWidth: real, white: nat)
    requires lineWidth == -1.0 || lineWidth >= 0.0
    ensures lineWidth == -1.0 ==> RectShapes(lineWidth, white) == [QuadShape(white)]
    ensures 0.0 <= lineWidth <= 1.0 ==>
              RectShapes(lineWidth, white) == [LineShape(0, 1), LineShape(1, 2), LineShape(2, 3), LineShape(3, 0)]
    ensures lineWidth > 1.0 ==> RectShapes(lineWidth, white) == seq(4, _ => QuadShape(white))
  {
    if lineWidth != -1.0 {
      EdgeShapesAre(4, 4, lineWidth, white);
    }
  }

  function TriangleShapes(triangles: seq<(nat, nat, nat)>): (r: seq<Shape>)
    ensures |r| == |triangles|
    ensures forall i :: 0 <= i < |r| ==> r[i] == TriangleShape(triangles[i].0, triangles[i].1, triangles[i].2)
  {
    seq(|triangles|, i requires 0 <= i < |triangles| => TriangleShape(triangles[i].0, triangles[i].1, triangles[i].2))
  }

  /** AddPolygon with a given triangulation. */
  function PolygonShapes(n: nat, triangles: seq<(nat, nat, nat)>, lineWidth: real, white: nat): seq<Shape>
    requires lineWidth == -1.0 || lineWidth >= 0.0
  {
    if lineWidth == -1.0 then TriangleShapes(triangles) else EdgeShapes(n, n, lineWidth, white)
  }

  /** AddTriangle: a filled triangle is one primitive; a hollow one is the
   *  polygon of its three vertices. */
  function TriangleOutline(lineWidth: real, white: nat): (r: seq<Shape>)
    requires lineWidth == -1.0 || lineWidth >= 0.0
    ensures lineWidth == -1.0 ==> r == [TriangleShape(0, 1, 2)]
    ensures 0.0 <= lineWidth <= 1.0 ==> r == [LineShape(0, 1), LineShape(1, 2), LineShape(2, 0)]
  {
    if lineWidth == -1.0 then [TriangleShape(0, 1, 2)]
    else
      EdgeShapesAre(3, 3, lineWidth, white);
      PolygonShapes(3, [], lineWidth, white)
  }

  /** AddPoint: a point at most 1 in radius is a point primitive, a larger
   *  one a filled ellipse. */
  function PointShapes(radius: real): (r: seq<Shape>)
    ensures radius <= 1.0 <==> r == [PointShape(0)]
    ensures radius > 1.0 <==> r == [CircleShape]
  {
    if radius <= 1.0 then [PointShape(0)] else [CircleShape]
  }

  /** The other branch of GetAvailableBatch, with the emplace: the last
   *  batch takes the shape unless it is full of the kind, in which case a
   *  new empty batch does. */
  method AddToLastBatch(g: seq<LayerBatch>, k: Kind, capacity: nat, maxTextureSlots: nat)
    returns (g': seq<LayerBatch>, i: nat)
    requires capacity >= 1 && maxTextureSlots >= 2 && GroupValid(g, capacity, maxTextureSlots)
    ensures GroupValid(g', capacity, maxTextureSlots)
    ensures forall j :: Total(g', j) == Total(g, j) + (if j == k then 1 else 0)
    ensures i == |g'| - 1 && Size(g'[i], k) > 0
    ensures k == Quad ==> |g'[i].quads| > 0 && g'[i].quads[|g'[i].quads| - 1] == 0
    ensures Size(g[|g| - 1], k) != capacity ==> g' == g[|g| - 1 := Pushed(g[|g| - 1], k, 0)]
    ensures Size(g[|g| - 1], k) == capacity ==> g' == g + [Pushed(EmptyBatch, k, 0)]
  {
    var h := g;
    if Size(g[|g| - 1], k) == capacity {
      EmptyAppended(g, capacity, maxTextureSlots);
      h := g + [EmptyBatch];
    }
    i := |h| - 1;
    PushLast(h, k, capacity, maxTextureSlots);
    g' := h[i := Pushed(h[i], k, 0)];
    if Size(g[|g| - 1], k) == capacity {
      assert g' == g + [Pushed(EmptyBatch, k, 0)];
    }
  }

  /** A new empty batch keeps the group valid and holds nothing. */
  lemma EmptyAppended(g: seq<LayerBatch>, capacity: nat, maxTextureSlots: nat)
    requires maxTextureSlots >= 2 && GroupValid(g, capacity, maxTextureSlots)
    ensures GroupValid(g + [EmptyBatch], capacity, maxTextureSlots)
    ensures forall j :: Total(g + [EmptyBatch], j) == Total(g, j)
  {
    AppendValid(g, EmptyBatch, capacity, maxTextureSlots);
    forall j ensures Total(g + [EmptyBatch], j) == Total(g, j) {
      TotalAppend(g, EmptyBatch, j);
    }
  }

  /** Pushing a shape with texture index 0 into a last batch with room
   *  keeps the group valid and adds one shape of the kind. */
  lemma PushLast(h: seq<LayerBatch>, k: Kind, capacity: nat, maxTextureSlots: nat)
    requires GroupValid(h, capacity, maxTextureSlots) && Size(h[|h| - 1], k) < capacity
    ensures GroupValid(h[|h| - 1 := Pushed(h[|h| - 1], k, 0)], capacity, maxTextureSlots)
    ensures forall j :: Total(h[|h| - 1 := Pushed(h[|h| - 1], k, 0)], j) == Total(h, j) + (if j == k then 1 else 0)
  {
    var i := |h| - 1;
    PushedValid(h[i], k, 0, capacity, maxTextureSlots);
    SetValid(h, i, Pushed(h[i], k, 0), capacity, maxTextureSlots);
    forall j ensures Total(h[i := Pushed(h[i], k, 0)], j) == Total(h, j) + (if j == k then 1 else 0) {
      TotalUpdate(h, i, Pushed(h[i], k, 0), j);
    }
  }

  /** The textured-quad branch of GetAvailableBatch, with the emplace: the
   *  first batch with quad room that gives the texture a slot takes the
   *  quad, or else a new batch bound to the texture takes it with index 1. */
  method AddTexturedQuad(g: seq<LayerBatch>, t: nat, capacity: nat, maxTextureSlots: nat)
    returns (g': seq<LayerBatch>, i: nat, textureIndex: nat)
    requires capacity >= 1 && maxTextureSlots >= 2 && GroupValid(g, capacity, maxTextureSlots)
    ensures GroupValid(g', capacity, maxTextureSlots)
    ensures forall k :: Total(g', k) == Total(g, k) + (if k == Quad then 1 else 0)
    ensures i < |g'| && |g'[i].quads| > 0 && g'[i].quads[|g'[i].quads| - 1] == textureIndex
    ensures 1 <= textureIndex <= |g'[i].textures| && g'[i].textures[textureIndex - 1] == t
    ensures match FirstTexturedBatch(g, t, capacity, maxTextureSlots)
            case Some(j) =>
              var r := AvailableTextureIndex(g[j], t, maxTextureSlots);
              i == j && textureIndex == r.1 && g' == g[j := Pushed(r.0, Quad, r.1)]
            case None =>
              i == |g| && textureIndex == 1 && g' == g + [Pushed(BatchWithTexture(t), Quad, 1)]
  {
    var j := 0;
    while j < |g|
      invariant 0 <= j <= |g|
      invariant forall m :: 0 <= m < j ==>
                  |g[m].quads| == capacity || AvailableTextureIndex(g[m], t, maxTextureSlots).1 == 0
    {
      if |g[j].quads| != capacity {
        var b, index := GetAvailableTextureIndex(g[j], t, maxTextureSlots);
        if index != 0 {
          FirstTexturedBatchAt(g, t, capacity, maxTextureSlots, j);
          SlotTaken(g, j, t, capacity, maxTextureSlots);
          return g[j := Pushed(b, Quad, index)], j, index;
        }
      }
      j := j + 1;
    }
    FirstTexturedBatchNone(g, t, capacity, maxTextureSlots);
    NewTexturedBatch(g, t, capacity, maxTextureSlots);
    g', i, textureIndex := g + [Pushed(BatchWithTexture(t), Quad, 1)], |g|, 1;
  }

  /** The first batch of the loop's search is the one FirstTexturedBatch
   *  names. */
  lemma {:induction false} FirstTexturedBatchAt(g: seq<LayerBatch>, t: nat, capacity: nat, maxTextureSlots: nat, j: nat)
    requires j < |g| && |g[j].quads| != capacity && AvailableTextureIndex(g[j], t, maxTextureSlots).1 != 0
    requires forall m :: 0 <= m < j ==>
               |g[m].quads| == capacity || AvailableTextureIndex(g[m], t, maxTextureSlots).1 == 0
    ensures FirstTexturedBatch(g, t, capacity, maxTextureSlots) == Wrappers.Some(j)
  {
    if j > 0 {
      assert forall m :: 0 <= m < j - 1 ==> g[1..][m] == g[m + 1];
      FirstTexturedBatchAt(g[1..], t, capacity, maxTextureSlots, j - 1);
    }
  }

  lemma {:induction false} FirstTexturedBatchNone(g: seq<LayerBatch>, t: nat, capacity: nat, maxTextureSlots: nat)
    requires forall m :: 0 <= m < |g| ==>
               |g[m].quads| == capacity || AvailableTextureIndex(g[m], t, maxTextureSlots).1 == 0
    ensures FirstTexturedBatch(g, t, capacity, maxTextureSlots).None?
  {
    if |g| > 0 {
      assert forall m :: 0 <= m < |g| - 1 ==> g[1..][m] == g[m + 1];
      FirstTexturedBatchNone(g[1..], t, capacity, maxTextureSlots);
    }
  }

  /** A batch with quad room that gives the texture a slot takes the quad,
   *  and the batches stay valid. */
  lemma SlotTaken(g: seq<LayerBatch>, j: nat, t: nat, capacity: nat, maxTextureSlots: nat)
    requires GroupValid(g, capacity, maxTextureSlots) && j < |g| && |g[j].quads| != capacity
    requires AvailableTextureIndex(g[j], t, maxTextureSlots).1 != 0
    ensures var r := AvailableTextureIndex(g[j], t, maxTextureSlots);
            var g' := g[j := Pushed(r.0, Quad, r.1)];
            GroupValid(g', capacity, maxTextureSlots) &&
            (forall k :: Total(g', k) == Total(g, k) + (if k == Quad then 1 else 0)) &&
            1 <= r.1 <= |g'[j].textures| && g'[j].textures[r.1 - 1] == t
  {
    var r := AvailableTextureIndex(g[j], t, maxTextureSlots);
    TextureIndexValid(g[j], t, capacity, maxTextureSlots);
    assert |r.0.quads| == |g[j].quads| && r.0.textures[r.1 - 1] == t;
    PushedValid(r.0, Quad, r.1, capacity, maxTextureSlots);
    SetValid(g, j, Pushed(r.0, Quad, r.1), capacity, maxTextureSlots);
    forall k ensures Total(g[j := Pushed(r.0, Quad, r.1)], k) == Total(g, k) + (if k == Quad then 1 else 0) {
      TotalUpdate(g, j, Pushed(r.0, Quad, r.1), k);
      assert Size(r.0, k) == Size(g[j], k);
    }
  }

  /** A new batch bound to the texture takes the quad with index 1. */
  lemma NewTexturedBatch(g: seq<LayerBatch>, t: nat, capacity: nat, maxTextureSlots: nat)
    requires GroupValid(g, capacity, maxTextureSlots) && capacity >= 1 && maxTextureSlots >= 2
    ensures var g' := g + [Pushed(BatchWithTexture(t), Quad, 1)];
            GroupValid(g', capacity, maxTextureSlots) &&
            forall k :: Total(g', k) == Total(g, k) + (if k == Quad then 1 else 0)
  {
    var created := Pushed(BatchWithTexture(t), Quad, 1);
    AppendValid(g, created, capacity, maxTextureSlots);
    forall k ensures Total(g + [created], k) == Total(g, k) + (if k == Quad then 1 else 0) {
      TotalAppend(g, created, k);
    }
  }
}
