/**
 * The batching of src/renderer/batch.cpp: per render layer and per z-index
 * a group of batches, each holding up to 2000 shapes of every kind and,
 * for textured quads, the textures it binds. Texture slot 0 is the white
 * texture, so a batch binds at most max_texture_slots - 1 textures.
 *
 * A Batch is held by value in its group, as in the source; a shape is
 * known by its kind, and a quad by the texture index it was given (the
 * float vertex data is not modelled). The renderer state is a class whose
 * layer map the methods update.
 */
module Batching {
  import Wrappers
  import RenderEngine

  const BatchCapacity: nat := 2000
  const QuadPattern: seq<nat> := [0, 1, 2, 2, 3, 0]

  datatype BatchType = Quad | Triangle | Line | Circle | Point | Shader

  datatype Batch = Batch(quads: seq<nat>, textures: seq<nat>, textureCapacity: nat,
                         triangles: nat, lines: nat, circles: nat, points: nat, shaders: nat)

  /** Batch(max_texture_slots): nothing batched, and room for all texture
   *  slots but the white texture's. */
  function NewBatch(maxTextureSlots: nat): (b: Batch)
    requires maxTextureSlots >= 1
    ensures b.textureCapacity == maxTextureSlots - 1 && b.textures == []
    ensures forall t :: Size(b, t) == 0
  {
    Batch([], [], maxTextureSlots - 1, 0, 0, 0, 0, 0)
  }

  function Size(b: Batch, t: BatchType): nat
  {
    match t
    case Quad => |b.quads|
    case Triangle => b.triangles
    case Line => b.lines
    case Circle => b.circles
    case Point => b.points
    case Shader => b.shaders
  }

  /** IsAvailable: the data of the kind is not at the batch capacity. */
  predicate IsAvailable(b: Batch, t: BatchType)
  {
    Size(b, t) != BatchCapacity
  }

  predicate IsFlushed(b: Batch, t: BatchType)
  {
    Size(b, t) == 0
  }

  /** Get for a shape other than a quad: one more of its kind. */
  function Pushed(b: Batch, t: BatchType): (r: Batch)
    requires t != Quad && Size(b, t) + 1 <= BatchCapacity
    ensures Size(r, t) == Size(b, t) + 1
    ensures forall u :: u != t ==> Size(r, u) == Size(b, u)
    ensures r.quads == b.quads && r.textures == b.textures && r.textureCapacity == b.textureCapacity
  {
    match t
    case Triangle => b.(triangles := b.triangles + 1)
    case Line => b.(lines := b.lines + 1)
    case Circle => b.(circles := b.circles + 1)
    case Point => b.(points := b.points + 1)
    case Shader => b.(shaders := b.shaders + 1)
  }

  /** Get for a quad, given the texture index of its vertices. */
  function PushedQuad(b: Batch, textureIndex: nat): (r: Batch)
    requires |b.quads| + 1 <= BatchCapacity
    ensures r.quads == b.quads + [textureIndex] && r.textures == b.textures && r.textureCapacity == b.textureCapacity
    ensures forall u :: u != Quad ==> Size(r, u) == Size(b, u)
  {
    b.(quads := b.quads + [textureIndex])
  }

  /** Batch::Clear: the shapes of every kind and the textures. */
  function Cleared(b: Batch): (r: Batch)
    ensures forall t :: IsFlushed(r, t)
    ensures r.textures == [] && r.textureCapacity == b.textureCapacity
  {
    Batch([], [], b.textureCapacity, 0, 0, 0, 0, 0)
  }

  /** Flush of one kind: its data is drawn and cleared; a quad flush keeps
   *  the textures bound. */
  function Flushed(b: Batch, t: BatchType): (r: Batch)
    ensures IsFlushed(r, t) && forall u :: u != t ==> Size(r, u) == Size(b, u)
    ensures r.textures == b.textures && r.textureCapacity == b.textureCapacity
  {
    match t
    case Quad => b.(quads := [])
    case Triangle => b.(triangles := 0)
    case Line => b.(lines := 0)
    case Circle => b.(circles := 0)
    case Point => b.(points := 0)
    case Shader => b.(shaders := 0)
  }

  /** The batch keeps within its capacities, its textures are distinct, and
   *  every quad names the white texture or one of the batch's textures. */
  predicate BatchValid(b: Batch, maxTextureSlots: nat)
  {
    && (forall t :: Size(b, t) <= BatchCapacity)
    && b.textureCapacity + 1 == maxTextureSlots && |b.textures| <= b.textureCapacity
    && (forall i, j :: 0 <= i < j < |b.textures| ==> b.textures[i] != b.textures[j])
    && (forall q :: 0 <= q < |b.quads| ==> b.quads[q] <= |b.textures|)
  }

  // ------------------------------------------------------------- textures

  datatype TextureSlot = TextureSlot(batch: Batch, index: nat, available: bool)

  /** GetTextureIndex: the slot of a texture already bound (i + 1 for the
   *  i-th texture); none when the texture is new and the slots are full;
   *  otherwise the texture is added in the next slot. */
  function TextureSlotOf(b: Batch, t: nat): (r: TextureSlot)
    ensures r.available ==> 1 <= r.index <= |r.batch.textures| && r.batch.textures[r.index - 1] == t
    ensures !r.available <==> t !in b.textures && |b.textures| == b.textureCapacity
    ensures !r.available ==> r.index == 0 && r.batch == b
    ensures t in b.textures ==> r.batch == b
    ensures t !in b.textures && r.available ==> r.batch == b.(textures := b.textures + [t]) && r.index == |b.textures| + 1
  {
    match RenderEngine.TextureLookup(b.textures, t)
    case Some(i) => TextureSlot(b, i + 1, true)
    case None =>
      if |b.textures| == b.textureCapacity then TextureSlot(b, 0, false)
      else TextureSlot(b.(textures := b.textures + [t]), |b.textures| + 1, true)
  }

  /** Adding a texture keeps a batch valid. */
  lemma TextureSlotValid(b: Batch, t: nat, maxTextureSlots: nat)
    requires BatchValid(b, maxTextureSlots)
    ensures BatchValid(TextureSlotOf(b, t).batch, maxTextureSlots)
  {
    var r := TextureSlotOf(b, t);
    if t !in b.textures && r.available {
      assert r.batch.textures == b.textures + [t];
      forall u ensures Size(r.batch, u) <= BatchCapacity {
        assert Size(r.batch, u) == Size(b, u);
      }
      forall i, j | 0 <= i < j < |r.batch.textures|
        ensures r.batch.textures[i] != r.batch.textures[j]
      {
        if j == |b.textures| {
          assert r.batch.textures[i] == b.textures[i];
        }
      }
    }
  }

  /** The loop of GetTextureIndex. */
  method GetTextureIndex(b: Batch, t: nat) returns (r: TextureSlot)
    ensures r == TextureSlotOf(b, t)
  {
    var i := 0;
    while i < |b.textures|
      invariant 0 <= i <= |b.textures|
      invariant forall k :: 0 <= k < i ==> b.textures[k] != t
    {
      if b.textures[i] == t {
        assert RenderEngine.TextureLookup(b.textures, t) == Wrappers.Some(i);
        return TextureSlot(b, i + 1, true);
      }
      i := i + 1;
    }
    if |b.textures| == b.textureCapacity {
      return TextureSlot(b, 0, false);
    }
    r := TextureSlot(b.(textures := b.textures + [t]), |b.textures| + 1, true);
  }

  // -------------------------------------------------------- index buffers

  /** The k-th index of the quad index buffer. */
  function QuadIndex(k: nat): nat
  {
    4 * (k / 6) + QuadPattern[k % 6]
  }

  /** Each quad's six indices name its own four vertices, so the quad
   *  index buffer of a full batch names only that batch's vertices. */
  lemma QuadIndexNamesOwnQuad(k: nat)
    ensures 4 * (k / 6) <= QuadIndex(k) < 4 * (k / 6) + 4
    ensures k < 6 * BatchCapacity ==> QuadIndex(k) < 4 * BatchCapacity
  {
    if k < 6 * BatchCapacity {
      assert k / 6 < BatchCapacity;
      assert 4 * (k / 6) + 4 <= 4 * BatchCapacity;
    }
  }

  lemma DivStep(k: nat)
    ensures k % 6 == 5 ==> (k + 1) / 6 == k / 6 + 1 && (k + 1) % 6 == 0
    ensures k % 6 != 5 ==> (k + 1) / 6 == k / 6 && (k + 1) % 6 == k % 6 + 1
  {
  }

  /** The quad generator of RendererData::Init, run for n indices: an
   *  offset and a pattern position, the offset growing by 4 after every
   *  six indices. */
  method QuadIndices(n: nat) returns (indices: seq<nat>)
    ensures |indices| == n
    ensures forall k :: 0 <= k < n ==> indices[k] == QuadIndex(k)
  {
    indices := [];
    var offset := 0;
    var patternIndex := 0;
    while |indices| < n
      invariant |indices| <= n
      invariant patternIndex == |indices| % 6 && offset == 4 * (|indices| / 6)
      invariant forall k :: 0 <= k < |indices| ==> indices[k] == QuadIndex(k)
    {
      DivStep(|indices|);
      indices := indices + [offset + QuadPattern[patternIndex]];
      patternIndex := patternIndex + 1;
      if patternIndex % 6 == 0 {
        offset := offset + 4;
        patternIndex := 0;
      }
    }
  }

  /** The iota generator of the triangle, line and point buffers. */
  method IotaIndices(n: nat) returns (indices: seq<nat>)
    ensures |indices| == n
    ensures forall k :: 0 <= k < n ==> indices[k] == k
  {
    indices := [];
    var i := 0;
    while i < n
      invariant i == |indices| <= n
      invariant forall k :: 0 <= k < i ==> indices[k] == k
    {
      indices := indices + [i];
      i := i + 1;
    }
  }

  // ---------------------------------------------------------------- flips

  datatype TexCoord = TexCoord(x: real, y: real)

  datatype Flip = None | Horizontal | Vertical | Both

  /** flip_x: the x coordinates of corners 0 and 1, and of 2 and 3, swap. */
  function FlipX(c: seq<TexCoord>): (r: seq<TexCoord>)
    requires |c| == 4
    ensures |r| == 4 && forall k :: 0 <= k < 4 ==> r[k].y == c[k].y
  {
    [c[0].(x := c[1].x), c[1].(x := c[0].x), c[2].(x := c[3].x), c[3].(x := c[2].x)]
  }

  /** flip_y: the y coordinates of corners 0 and 3, and of 1 and 2, swap. */
  function FlipY(c: seq<TexCoord>): (r: seq<TexCoord>)
    requires |c| == 4
    ensures |r| == 4 && forall k :: 0 <= k < 4 ==> r[k].x == c[k].x
  {
    [c[0].(y := c[3].y), c[1].(y := c[2].y), c[2].(y := c[1].y), c[3].(y := c[0].y)]
  }

  function Flipped(c: seq<TexCoord>, flip: Flip): (r: seq<TexCoord>)
    requires |c| == 4
    ensures |r| == 4
  {
    match flip
    case None => c
    case Horizontal => FlipX(c)
    case Vertical => FlipY(c)
    case Both => FlipY(FlipX(c))
  }

  /** Every flip undoes itself, None changes nothing, and the two axes
   *  commute, so Both is the same in either order. */
  lemma FlipInvolution(c: seq<TexCoord>, flip: Flip)
    requires |c| == 4
    ensures Flipped(Flipped(c, flip), flip) == c
    ensures Flipped(c, None) == c
    ensures Flipped(c, Both) == FlipX(FlipY(c))
  {
    assert FlipX(FlipX(c)) == c;
    assert FlipY(FlipY(c)) == c;
    assert FlipY(FlipX(c)) == FlipX(FlipY(c));
    assert FlipY(FlipX(FlipY(FlipX(c)))) == FlipY(FlipY(FlipX(FlipX(c))));
  }

  /** FlipTextureCoordinates: the swaps, in place. */
  method FlipTextureCoordinates(coords: array<TexCoord>, flip: Flip)
    requires coords.Length == 4
    modifies coords
    ensures coords[..] == Flipped(old(coords[..]), flip)
  {
    if flip == Horizontal || flip == Both {
      var t := coords[0].x;
      coords[0] := coords[0].(x := coords[1].x);
      coords[1] := coords[1].(x := t);
      t := coords[2].x;
      coords[2] := coords[2].(x := coords[3].x);
      coords[3] := coords[3].(x := t);
    }
    if flip == Vertical || flip == Both {
      var t := coords[0].y;
      coords[0] := coords[0].(y := coords[3].y);
      coords[3] := coords[3].(y := t);
      t := coords[1].y;
      coords[1] := coords[1].(y := coords[2].y);
      coords[2] := coords[2].(y := t);
    }
  }

  // -------------------------------------------------------------- groups

  /** static_cast<std::int64_t> of a float: truncation toward zero. */
  function ZIndexKey(z: real): (k: int)
    ensures z >= 0.0 ==> k as real <= z < k as real + 1.0
    ensures z < 0.0 ==> k as real - 1.0 < z <= k as real
  {
    if z >= 0.0 then z.Floor else -((-z).Floor)
  }

  /** The first batch of a group with quad room that can bind the
   *  texture. */
  function FirstTextureBatch(g: seq<Batch>, t: nat): (r: Wrappers.Option<nat>)
    ensures r.Some? ==> r.value < |g| && IsAvailable(g[r.value], Quad) && TextureSlotOf(g[r.value], t).available
    ensures r.Some? ==> forall j :: 0 <= j < r.value ==> !IsAvailable(g[j], Quad) || !TextureSlotOf(g[j], t).available
    ensures r.None? ==> forall j :: 0 <= j < |g| ==> !IsAvailable(g[j], Quad) || !TextureSlotOf(g[j], t).available
  {
    if |g| == 0 then Wrappers.None
    else if IsAvailable(g[0], Quad) && TextureSlotOf(g[0], t).available then Wrappers.Some(0)
    else match FirstTextureBatch(g[1..], t)
      case None => Wrappers.None
      case Some(i) => Wrappers.Some(i + 1)
  }

  /** Every batch of every group is valid, and no group is empty. */
  ghost predicate LayersValid(layers: map<nat, map<int, seq<Batch>>>, maxTextureSlots: nat)
  {
    && maxTextureSlots >= 2
    && (forall l, k :: l in layers && k in layers[l] ==> |layers[l][k]| > 0)
    && (forall l, k, i :: l in layers && k in layers[l] && 0 <= i < |layers[l][k]| ==>
          BatchValid(layers[l][k][i], maxTextureSlots))
  }

  lemma LayersValidUpdate(layers: map<nat, map<int, seq<Batch>>>, maxTextureSlots: nat, l: nat, k: int, g: seq<Batch>)
    requires LayersValid(layers, maxTextureSlots) && l in layers
    requires |g| > 0 && forall i :: 0 <= i < |g| ==> BatchValid(g[i], maxTextureSlots)
    ensures LayersValid(layers[l := layers[l][k := g]], maxTextureSlots)
  {
  }

  /** The layers with the group of one layer and key set to g: the layer
   *  is created when missing, and every other group stays. */
  function WithGroup(layers: map<nat, map<int, seq<Batch>>>, layer: nat, key: int, g: seq<Batch>): (r: map<nat, map<int, seq<Batch>>>)
    ensures layer in r && key in r[layer] && r[layer][key] == g
    ensures forall l :: l in r <==> l in layers || l == layer
    ensures forall l :: l in layers && l != layer ==> r[l] == layers[l]
    ensures forall k :: k in r[layer] <==> k == key || (layer in layers && k in layers[layer])
    ensures forall k :: layer in layers && k in layers[layer] && k != key ==> r[layer][k] == layers[layer][k]
  {
    var m := if layer in layers then layers[layer] else map[];
    layers[layer := m[key := g]]
  }

  /** Setting a group twice keeps the second. */
  lemma WithGroupTwice(layers: map<nat, map<int, seq<Batch>>>, layer: nat, key: int, g: seq<Batch>, g': seq<Batch>)
    ensures WithGroup(WithGroup(layers, layer, key, g), layer, key, g') == WithGroup(layers, layer, key, g')
  {
    var m := if layer in layers then layers[layer] else map[];
    assert WithGroup(layers, layer, key, g)[layer][key := g'] == m[key := g'];
  }

  /** Setting a group to what it holds changes nothing. */
  lemma WithGroupSame(layers: map<nat, map<int, seq<Batch>>>, layer: nat, key: int)
    requires layer in layers && key in layers[layer]
    ensures WithGroup(layers, layer, key, layers[layer][key]) == layers
  {
    assert layers[layer][key := layers[layer][key]] == layers[layer];
  }

  /** The group GetBatchGroup yields: the existing one, or one new
   *  batch. */
  ghost function GroupAt(layers: map<nat, map<int, seq<Batch>>>, layer: nat, key: int, maxTextureSlots: nat): (g: seq<Batch>)
    requires LayersValid(layers, maxTextureSlots)
    ensures |g| > 0 && forall m :: 0 <= m < |g| ==> BatchValid(g[m], maxTextureSlots)
    ensures layer in layers && key in layers[layer] ==> g == layers[layer][key]
    ensures !(layer in layers && key in layers[layer]) ==> g == [NewBatch(maxTextureSlots)]
  {
    if layer in layers && key in layers[layer] then layers[layer][key] else [NewBatch(maxTextureSlots)]
  }

  /** Adding a new group to the layer GetRenderLayer found or made is
   *  WithGroup on the layers before. */
  lemma NewGroupAfterLayer(before: map<nat, map<int, seq<Batch>>>, layers: map<nat, map<int, seq<Batch>>>, layer: nat, key: int, g: seq<Batch>)
    requires layers == if layer in before then before else before[layer := map[]]
    ensures layers[layer := layers[layer][key := g]] == WithGroup(before, layer, key, g)
  {
    var m := if layer in before then before[layer] else map[];
    assert layers[layer] == m;
    assert layers[layer := m[key := g]] == before[layer := m[key := g]];
  }

  /** GetBatch on one group: its last batch when that has room for the
   *  kind, otherwise a new batch appended; the chosen batch has room. */
  function ShapeGroup(g: seq<Batch>, t: BatchType, maxTextureSlots: nat): (r: (seq<Batch>, nat))
    requires maxTextureSlots >= 1 && |g| > 0 && forall m :: 0 <= m < |g| ==> BatchValid(g[m], maxTextureSlots)
    ensures r.1 == |r.0| - 1 && Size(r.0[r.1], t) < BatchCapacity
    ensures r.0 == g || r.0 == g + [NewBatch(maxTextureSlots)]
    ensures r.0 == g <==> IsAvailable(g[|g| - 1], t)
  {
    if IsAvailable(g[|g| - 1], t) then
      assert BatchValid(g[|g| - 1], maxTextureSlots);
      (g, |g| - 1)
    else
      assert Size(NewBatch(maxTextureSlots), t) == 0;
      (g + [NewBatch(maxTextureSlots)], |g|)
  }

  /** The batch and texture index a quad gets in one group: the white
   *  texture as ShapeGroup chooses with index 0, any other texture in the
   *  batch FirstTextureBatch names, bound there, or in a new batch where
   *  it takes slot 1. */
  function QuadGroup(g: seq<Batch>, texture: nat, whiteTexture: nat, maxTextureSlots: nat): (r: (seq<Batch>, nat, nat))
    requires maxTextureSlots >= 2 && |g| > 0 && forall m :: 0 <= m < |g| ==> BatchValid(g[m], maxTextureSlots)
    ensures r.1 < |r.0| && |r.0| >= |g| && Size(r.0[r.1], Quad) < BatchCapacity
    ensures texture == whiteTexture ==> r.2 == 0
    ensures texture != whiteTexture ==> 1 <= r.2 <= |r.0[r.1].textures| && r.0[r.1].textures[r.2 - 1] == texture
    ensures forall m :: 0 <= m < |g| && m != r.1 ==> r.0[m] == g[m]
  {
    if texture == whiteTexture then
      var (g', i) := ShapeGroup(g, Quad, maxTextureSlots);
      (g', i, 0)
    else
      match FirstTextureBatch(g, texture)
      case Some(j) =>
        assert BatchValid(g[j], maxTextureSlots);
        (g[j := TextureSlotOf(g[j], texture).batch], j, TextureSlotOf(g[j], texture).index)
      case None =>
        (g + [TextureSlotOf(NewBatch(maxTextureSlots), texture).batch], |g|, 1)
  }

  /** GetTextureBatch on one group: the first batch with quad room that
   *  gives the texture a slot, or else a new batch holding the texture. */
  method TextureBatch(g: seq<Batch>, texture: nat, maxTextureSlots: nat) returns (g': seq<Batch>, i: nat, textureIndex: nat)
    requires maxTextureSlots >= 2 && |g| > 0 && forall m :: 0 <= m < |g| ==> BatchValid(g[m], maxTextureSlots)
    ensures |g'| > 0 && forall m :: 0 <= m < |g'| ==> BatchValid(g'[m], maxTextureSlots)
    ensures i < |g'| && IsAvailable(g'[i], Quad) && 1 <= textureIndex <= |g'[i].textures| && g'[i].textures[textureIndex - 1] == texture
    ensures match FirstTextureBatch(g, texture)
            case Some(j) =>
              i == j && textureIndex == TextureSlotOf(g[j], texture).index && g' == g[j := TextureSlotOf(g[j], texture).batch]
            case None =>
              i == |g| && textureIndex == 1 && g' == g + [TextureSlotOf(NewBatch(maxTextureSlots), texture).batch]
  {
    var j := 0;
    while j < |g|
      invariant 0 <= j <= |g|
      invariant forall m :: 0 <= m < j ==> !IsAvailable(g[m], Quad) || !TextureSlotOf(g[m], texture).available
    {
      if IsAvailable(g[j], Quad) {
        var slot := GetTextureIndex(g[j], texture);
        if slot.available {
          FirstTextureBatchAt(g, texture, j);
          TextureSlotValid(g[j], texture, maxTextureSlots);
          return g[j := slot.batch], j, slot.index;
        }
      }
      j := j + 1;
    }
    FirstTextureBatchNone(g, texture);
    var created := NewBatch(maxTextureSlots);
    var slot := GetTextureIndex(created, texture);
    TextureSlotValid(created, texture, maxTextureSlots);
    g' := g + [slot.batch];
    forall m | 0 <= m < |g'|
      ensures BatchValid(g'[m], maxTextureSlots)
    {
      if m < |g| {
        assert g'[m] == g[m];
      }
    }
    i, textureIndex := |g|, slot.index;
  }

  lemma {:induction false} FirstTextureBatchAt(g: seq<Batch>, t: nat, j: nat)
    requires j < |g| && IsAvailable(g[j], Quad) && TextureSlotOf(g[j], t).available
    requires forall m :: 0 <= m < j ==> !IsAvailable(g[m], Quad) || !TextureSlotOf(g[m], t).available
    ensures FirstTextureBatch(g, t) == Wrappers.Some(j)
  {
    if j > 0 {
      assert forall m :: 0 <= m < j - 1 ==> g[1..][m] == g[m + 1];
      FirstTextureBatchAt(g[1..], t, j - 1);
    }
  }

  lemma {:induction false} FirstTextureBatchNone(g: seq<Batch>, t: nat)
    requires forall m :: 0 <= m < |g| ==> !IsAvailable(g[m], Quad) || !TextureSlotOf(g[m], t).available
    ensures FirstTextureBatch(g, t).None?
  {
    if |g| > 0 {
      assert forall m :: 0 <= m < |g| - 1 ==> g[1..][m] == g[m + 1];
      FirstTextureBatchNone(g[1..], t);
    }
  }

  class RendererData {
    /** Render layer, then z-index key, to batch group. */
    var layers: map<nat, map<int, seq<Batch>>>
    const maxTextureSlots: nat
    const whiteTexture: nat

    ghost predicate Valid()
      reads this
    {
      LayersValid(layers, maxTextureSlots)
    }

    constructor (maxTextureSlots: nat, whiteTexture: nat)
      requires maxTextureSlots >= 2
      ensures Valid() && layers == map[] && this.maxTextureSlots == maxTextureSlots && this.whiteTexture == whiteTexture
    {
      layers := map[];
      this.maxTextureSlots := maxTextureSlots;
      this.whiteTexture := whiteTexture;
    }

    /** GetRenderLayer: a missing layer is created empty. */
    method GetRenderLayer(layer: nat)
      requires Valid()
      modifies this`layers
      ensures Valid() && layer in layers
      ensures layers == if layer in old(layers) then old(layers) else old(layers)[layer := map[]]
    {
      if layer !in layers {
        layers := layers[layer := map[]];
      }
    }

    /** GetBatchGroup (with the layer lookup of its callers): the group of
     *  the z-index, truncated to an integer key, created with one new
     *  batch when missing. */
    method GetBatchGroup(layer: nat, zIndex: real) returns (key: int)
      requires Valid()
      modifies this`layers
      ensures Valid() && key == ZIndexKey(zIndex) && layer in layers && key in layers[layer]
      ensures layer in old(layers) && key in old(layers)[layer] ==> layers == old(layers)
      ensures !(layer in old(layers) && key in old(layers)[layer]) ==>
                layers[layer][key] == [NewBatch(maxTextureSlots)] &&
                forall l :: l in layers && l != layer ==> l in old(layers) && layers[l] == old(layers)[l]
      ensures layers[layer][key][0].textureCapacity == maxTextureSlots - 1
      ensures layers == WithGroup(old(layers), layer, key, GroupAt(old(layers), layer, key, maxTextureSlots))
    {
      GetRenderLayer(layer);
      key := ZIndexKey(zIndex);
      if key in layers[layer] {
        WithGroupSame(old(layers), layer, key);
      } else {
        var g := [NewBatch(maxTextureSlots)];
        LayersValidUpdate(layers, maxTextureSlots, layer, key, g);
        NewGroupAfterLayer(old(layers), layers, layer, key, g);
        layers := layers[layer := layers[layer][key := g]];
      }
    }

    /** GetBatch: the last batch of the group when it has room for the
     *  kind, otherwise a new batch appended to the group. */
    method GetBatch(layer: nat, key: int, t: BatchType) returns (i: nat)
      requires Valid() && layer in layers && key in layers[layer]
      modifies this`layers
      ensures Valid() && layer in layers && key in layers[layer]
      ensures var g := old(layers)[layer][key];
              if IsAvailable(g[|g| - 1], t) then layers == old(layers) && i == |g| - 1
              else layers == old(layers)[layer := old(layers)[layer][key := g + [NewBatch(maxTextureSlots)]]] && i == |g|
      ensures i == |layers[layer][key]| - 1 && Size(layers[layer][key][i], t) < BatchCapacity
      ensures var r := ShapeGroup(old(layers)[layer][key], t, maxTextureSlots);
              layers == WithGroup(old(layers), layer, key, r.0) && i == r.1
    {
      var g := layers[layer][key];
      if IsAvailable(g[|g| - 1], t) {
        assert BatchValid(g[|g| - 1], maxTextureSlots);
        WithGroupSame(layers, layer, key);
        return |g| - 1;
      }
      var g' := g + [NewBatch(maxTextureSlots)];
      assert forall j :: 0 <= j < |g'| ==> BatchValid(g'[j], maxTextureSlots) by {
        forall j | 0 <= j < |g'|
          ensures BatchValid(g'[j], maxTextureSlots)
        {
          if j < |g| {
            assert g'[j] == g[j];
          }
        }
      }
      LayersValidUpdate(layers, maxTextureSlots, layer, key, g');
      layers := layers[layer := layers[layer][key := g']];
      i := |g|;
    }

    /** GetTextureBatch: the first batch of the group with quad room that
     *  binds the texture or has a free slot for it, binding it there;
     *  otherwise a new batch, where the texture takes slot 1. */
    method GetTextureBatch(layer: nat, key: int, texture: nat) returns (i: nat, textureIndex: nat)
      requires Valid() && layer in layers && key in layers[layer]
      modifies this`layers
      ensures Valid() && layer in layers && key in layers[layer]
      ensures var g := layers[layer][key];
              i < |g| && IsAvailable(g[i], Quad) && 1 <= textureIndex <= |g[i].textures| && g[i].textures[textureIndex - 1] == texture
      ensures var g := old(layers)[layer][key];
              match FirstTextureBatch(g, texture)
              case Some(j) =>
                i == j && textureIndex == TextureSlotOf(g[j], texture).index &&
                layers == old(layers)[layer := old(layers)[layer][key := g[j := TextureSlotOf(g[j], texture).batch]]]
              case None =>
                i == |g| && textureIndex == 1 &&
                layers == old(layers)[layer := old(layers)[layer][key := g + [TextureSlotOf(NewBatch(maxTextureSlots), texture).batch]]]
    {
      var g';
      g', i, textureIndex := TextureBatch(layers[layer][key], texture, maxTextureSlots);
      LayersValidUpdate(layers, maxTextureSlots, layer, key, g');
      layers := layers[layer := layers[layer][key := g']];
    }

    /** Append a shape to batch i of a group. */
    method PushShape(layer: nat, key: int, i: nat, t: BatchType, textureIndex: nat)
      requires Valid() && layer in layers && key in layers[layer] && i < |layers[layer][key]|
      requires Size(layers[layer][key][i], t) < BatchCapacity
      requires t == Quad ==> textureIndex <= |layers[layer][key][i].textures|
      requires t != Quad ==> textureIndex == 0
      modifies this`layers
      ensures Valid()
      ensures var b := old(layers)[layer][key][i];
              layers == old(layers)[layer := old(layers)[layer][key := old(layers)[layer][key][i := if t == Quad then PushedQuad(b, textureIndex) else Pushed(b, t)]]]
      ensures layer in layers && key in layers[layer] && i < |layers[layer][key]|
      ensures t == Quad ==> layers[layer][key][i] == PushedQuad(old(layers)[layer][key][i], textureIndex)
    {
      var g := layers[layer][key];
      var b := if t == Quad then PushedQuad(g[i], textureIndex) else Pushed(g[i], t);
      assert BatchValid(g[i], maxTextureSlots);
      assert BatchValid(b, maxTextureSlots) by {
        forall u ensures Size(b, u) <= BatchCapacity {
          assert Size(g[i], u) <= BatchCapacity;
        }
        if t == Quad {
          assert b.quads == g[i].quads + [textureIndex];
          forall q | 0 <= q < |b.quads| ensures b.quads[q] <= |b.textures| {
            if q < |g[i].quads| {
              assert b.quads[q] == g[i].quads[q];
            }
          }
        }
      }
      var g' := g[i := b];
      assert forall m :: 0 <= m < |g'| ==> BatchValid(g'[m], maxTextureSlots) by {
        forall m | 0 <= m < |g'|
          ensures BatchValid(g'[m], maxTextureSlots)
        {
          if m != i {
            assert g'[m] == g[m];
          }
        }
      }
      LayersValidUpdate(layers, maxTextureSlots, layer, key, g');
      layers := layers[layer := layers[layer][key := g']];
    }

    /** AddLine, AddPoint, AddCircle, AddTriangle and AddShader: the shape
     *  goes to a batch with room in the group of its layer and z-index. */
    method AddShape(t: BatchType, layer: nat, zIndex: real) returns (key: int, i: nat)
      requires Valid() && t != Quad
      modifies this`layers
      ensures Valid() && layer in layers && key == ZIndexKey(zIndex) && key in layers[layer]
      ensures i == |layers[layer][key]| - 1 && Size(layers[layer][key][i], t) > 0
      ensures var r := ShapeGroup(GroupAt(old(layers), layer, key, maxTextureSlots), t, maxTextureSlots);
              i == r.1 && layers == WithGroup(old(layers), layer, key, r.0[r.1 := Pushed(r.0[r.1], t)])
    {
      ghost var g := GroupAt(layers, layer, ZIndexKey(zIndex), maxTextureSlots);
      key := GetBatchGroup(layer, zIndex);
      ghost var mid := layers;
      i := GetBatch(layer, key, t);
      ghost var r := ShapeGroup(g, t, maxTextureSlots);
      WithGroupTwice(old(layers), layer, key, g, r.0);
      PushShape(layer, key, i, t, 0);
      WithGroupTwice(old(layers), layer, key, r.0, r.0[i := Pushed(r.0[i], t)]);
    }

    /** AddQuad: an untextured quad goes to a batch with quad room with
     *  texture index 0; a textured one to the batch GetTextureBatch picks,
     *  with the slot of its texture. */
    method AddQuad(texture: nat, layer: nat, zIndex: real) returns (key: int, i: nat, textureIndex: nat)
      requires Valid()
      modifies this`layers
      ensures Valid() && layer in layers && key == ZIndexKey(zIndex) && key in layers[layer]
      ensures i < |layers[layer][key]|
      ensures var b := layers[layer][key][i];
              |b.quads| > 0 && b.quads[|b.quads| - 1] == textureIndex
      ensures texture == whiteTexture ==> textureIndex == 0
      ensures texture != whiteTexture ==>
                var b := layers[layer][key][i];
                1 <= textureIndex <= |b.textures| && b.textures[textureIndex - 1] == texture
      ensures var r := QuadGroup(GroupAt(old(layers), layer, key, maxTextureSlots), texture, whiteTexture, maxTextureSlots);
              i == r.1 && textureIndex == r.2 &&
              layers == WithGroup(old(layers), layer, key, r.0[r.1 := PushedQuad(r.0[r.1], r.2)])
    {
      ghost var g := GroupAt(layers, layer, ZIndexKey(zIndex), maxTextureSlots);
      key := GetBatchGroup(layer, zIndex);
      i, textureIndex := QuadSlot(layer, key, texture);
      ghost var r := QuadGroup(g, texture, whiteTexture, maxTextureSlots);
      WithGroupTwice(old(layers), layer, key, g, r.0);
      PushShape(layer, key, i, Quad, textureIndex);
      WithGroupTwice(old(layers), layer, key, r.0, r.0[i := PushedQuad(r.0[i], r.2)]);
    }

    /** The batch and texture index a quad goes to. */
    method QuadSlot(layer: nat, key: int, texture: nat) returns (i: nat, textureIndex: nat)
      requires Valid() && layer in layers && key in layers[layer]
      modifies this`layers
      ensures Valid() && layer in layers && key in layers[layer] && i < |layers[layer][key]|
      ensures var b := layers[layer][key][i];
              Size(b, Quad) < BatchCapacity && textureIndex <= |b.textures| &&
              (texture == whiteTexture ==> textureIndex == 0) &&
              (texture != whiteTexture ==> 1 <= textureIndex && b.textures[textureIndex - 1] == texture)
      ensures var r := QuadGroup(old(layers)[layer][key], texture, whiteTexture, maxTextureSlots);
              layers == WithGroup(old(layers), layer, key, r.0) && i == r.1 && textureIndex == r.2
    {
      if texture == whiteTexture {
        i := GetBatch(layer, key, Quad);
        textureIndex := 0;
      } else {
        i, textureIndex := GetTextureBatch(layer, key, texture);
      }
    }
  }
}
