/**
 * The batching core of engine/src/renderer/render_data.cpp: the vertex and
 * index buffers of the batch being built, the render state that decides
 * when a batch is flushed, the pool of off-screen draw contexts, and the
 * computation of the display viewport from the window and game sizes.
 *
 * The GL side is abstracted: a flush appends the batch it hands to the
 * draw calls to `drawn`. Line geometry and texture coordinates are float
 * computations; the four vertices of a line quad are a parameter
 * (`lineQuad`). Timers and shared-pointer use counts are fields of a draw
 * context that the caller sets.
 */
module RenderEngine {
  import Wrappers

  const BatchCapacity: nat := 10000
  const VertexCapacity: nat := BatchCapacity * 4
  const IndexCapacity: nat := BatchCapacity * 6
  /** Index is a 32-bit unsigned integer. */
  const IndexModulus: nat := 0x1_0000_0000
  const QuadIndices: seq<nat> := [0, 1, 2, 2, 3, 0]
  const MaxContextWidth: int := 4096
  const MaxContextHeight: int := 2160

  /** A vertex; its texture index names a slot, 0 being the white texture. */
  datatype Vertex = Vertex(x: real, y: real, tint: nat, depth: real, textureIndex: nat)

  function WithTextureIndex(vs: seq<Vertex>, index: nat): (r: seq<Vertex>)
    ensures |r| == |vs|
    ensures forall k :: 0 <= k < |r| ==> r[k] == vs[k].(textureIndex := index)
  {
    seq(|vs|, k requires 0 <= k < |vs| => vs[k].(textureIndex := index))
  }

  /** The position of a texture in the batch's texture list. */
  function TextureLookup(textures: seq<nat>, id: nat): (r: Wrappers.Option<nat>)
    ensures r.Some? ==> r.value < |textures| && textures[r.value] == id &&
                        forall k :: 0 <= k < r.value ==> textures[k] != id
    ensures r.None? <==> id !in textures
  {
    if |textures| == 0 then Wrappers.None
    else if textures[0] == id then Wrappers.Some(0)
    else match TextureLookup(textures[1..], id)
      case None => Wrappers.None
      case Some(i) => Wrappers.Some(i + 1)
  }

  /** DrawTexture's texture bookkeeping as written, for a batch of the
   *  given texture list and buffer sizes and a quad of 4 vertices and 6
   *  indices: the texture index given to the vertices and the texture list
   *  afterwards. The index is chosen before AddVertices, whose capacity
   *  flush empties the texture list. */
  function DrawTextureAsWritten(textures: seq<nat>, vertexCount: nat, indexCount: nat, id: nat, maxTextureSlots: nat)
    : (r: (nat, seq<nat>))
  {
    var found := TextureLookup(textures, id);
    var index := if found.Some? then found.value + 1 else if |textures| + 1 == maxTextureSlots then 1 else |textures| + 1;
    var before := if found.None? && |textures| + 1 == maxTextureSlots then [] else textures;
    var flushed := vertexCount + 4 > VertexCapacity || indexCount + 6 > IndexCapacity;
    var after := if flushed then [] else before;
    (index, if found.Some? then after else after + [id])
  }

  /** With one texture in a batch whose vertex buffer is full, a new
   *  texture gets index 2 while it becomes the only texture (slot 1). A
   *  texture already in the batch gets index 1 while no texture is left in
   *  the batch at all. */
  lemma StaleTextureIndexAsWritten()
    ensures DrawTextureAsWritten([5], VertexCapacity, 0, 7, 32).0 == 2
    ensures DrawTextureAsWritten([5], VertexCapacity, 0, 7, 32).1 == [7]
    ensures DrawTextureAsWritten([5], VertexCapacity, 0, 5, 32).0 == 1
    ensures DrawTextureAsWritten([5], VertexCapacity, 0, 5, 32).1 == []
  {
    assert TextureLookup([5], 7) == Wrappers.None;
    assert TextureLookup([5], 5) == Wrappers.Some(0);
  }

  /** A shader pass is known by an id; 0 is the default quad pass. */
  datatype RenderState = RenderState(shaderPass: Wrappers.Option<nat>, blendMode: nat, camera: nat, postFx: seq<nat>)
  {
    /** IsSet: a state without a shader pass has been reset, and a flush
     *  in it draws nothing. */
    predicate IsSet()
    {
      shaderPass.Some?
    }
  }

  /** The vertices of a batch that a flush in the given state draws. */
  function Drawable(state: RenderState, vs: seq<Vertex>): (r: seq<Vertex>)
    ensures state.IsSet() ==> r == vs
    ensures !state.IsSet() ==> r == []
  {
    if state.IsSet() then vs else []
  }

  /** RenderState{}: the quad shader pass, ReplaceRGBA blending, the
   *  default camera and no post effects. */
  const DefaultRenderState: RenderState := RenderState(Wrappers.Some(0), 0, 0, [])

  /** What a flush hands to the draw calls. */
  datatype DrawnBatch = DrawnBatch(state: RenderState, vertices: seq<Vertex>, indices: seq<nat>, textures: seq<nat>)

  /** The draw a flush makes: the batch in a set state, and none in a
   *  reset one. */
  function FlushedBatch(state: RenderState, vertices: seq<Vertex>, indices: seq<nat>, textures: seq<nat>): (r: seq<DrawnBatch>)
    ensures state.IsSet() <==> r == [DrawnBatch(state, vertices, indices, textures)]
    ensures !state.IsSet() <==> r == []
  {
    if state.IsSet() then [DrawnBatch(state, vertices, indices, textures)] else []
  }

  // ---------------------------------------------------------------- pool

  datatype DrawContext = DrawContext(width: int, height: int, format: nat, inUse: bool, keepAlive: bool,
                                     elapsedMs: int, useCount: nat)

  function Min(a: int, b: int): int
  {
    if a < b then a else b
  }

  /** A context TrimExpired erases: unused, not kept alive, older than the
   *  pool's maximum age and held by nobody else. */
  predicate Expired(c: DrawContext, maxAgeMs: int)
  {
    !c.inUse && !c.keepAlive && c.elapsedMs > maxAgeMs && c.useCount <= 1
  }

  /** A context TrimExpired keeps: released unless kept alive. */
  function Survivor(c: DrawContext): (r: DrawContext)
    ensures r.keepAlive == c.keepAlive && (c.keepAlive ==> r == c) && (!c.keepAlive ==> r == c.(inUse := false))
  {
    if c.keepAlive then c else c.(inUse := false)
  }

  function Trimmed(cs: seq<DrawContext>, maxAgeMs: int): seq<DrawContext>
  {
    if |cs| == 0 then []
    else
      var rest := Trimmed(cs[..|cs| - 1], maxAgeMs);
      var last := cs[|cs| - 1];
      if Expired(last, maxAgeMs) then rest else rest + [Survivor(last)]
  }

  /** After a trim, every context is released or kept alive, no kept-alive
   *  context is lost, and exactly the expired ones are gone. */
  lemma {:induction false} TrimmedSpec(cs: seq<DrawContext>, maxAgeMs: int)
    ensures forall k :: 0 <= k < |Trimmed(cs, maxAgeMs)| ==>
              !Trimmed(cs, maxAgeMs)[k].inUse || Trimmed(cs, maxAgeMs)[k].keepAlive
    ensures forall c :: c in cs && c.keepAlive ==> c in Trimmed(cs, maxAgeMs)
    ensures forall x :: x in Trimmed(cs, maxAgeMs) <==> exists c :: c in cs && !Expired(c, maxAgeMs) && x == Survivor(c)
  {
    if |cs| > 0 {
      var init := cs[..|cs| - 1];
      TrimmedSpec(init, maxAgeMs);
      assert cs == init + [cs[|cs| - 1]];
    }
  }

  /** The first spare context of the format. */
  function FirstSpare(cs: seq<DrawContext>, format: nat): (r: Wrappers.Option<nat>)
    ensures r.Some? ==> r.value < |cs| && !cs[r.value].inUse && cs[r.value].format == format &&
                        forall k :: 0 <= k < r.value ==> cs[k].inUse || cs[k].format != format
    ensures r.None? ==> forall k :: 0 <= k < |cs| ==> cs[k].inUse || cs[k].format != format
  {
    if |cs| == 0 then Wrappers.None
    else if !cs[0].inUse && cs[0].format == format then Wrappers.Some(0)
    else match FirstSpare(cs[1..], format)
      case None => Wrappers.None
      case Some(i) => Wrappers.Some(i + 1)
  }

  class DrawContextPool {
    var contexts: seq<DrawContext>
    const maxAgeMs: int

    constructor (maxAgeMs: int)
      ensures contexts == [] && this.maxAgeMs == maxAgeMs
    {
      contexts := [];
      this.maxAgeMs := maxAgeMs;
    }

    /** TrimExpired: erase the expired contexts and release the rest that
     *  are not kept alive. */
    method TrimExpired()
      modifies this`contexts
      ensures contexts == Trimmed(old(contexts), maxAgeMs)
    {
      var kept := [];
      var i := 0;
      while i < |contexts|
        invariant 0 <= i <= |contexts|
        invariant kept == Trimmed(contexts[..i], maxAgeMs)
      {
        assert contexts[..i + 1][..i] == contexts[..i];
        if !Expired(contexts[i], maxAgeMs) {
          kept := kept + [Survivor(contexts[i])];
        }
        i := i + 1;
      }
      assert contexts[..|contexts|] == contexts;
      contexts := kept;
    }

    /** Get: a context of the format at the size clamped to 4096x2160, in
     *  use and restarted; the first spare one of the format is reused
     *  (resized when needed), otherwise a new one is appended. */
    method Get(width: int, height: int, format: nat) returns (i: nat)
      requires width > 0 && height > 0
      modifies this`contexts
      ensures i < |contexts| && contexts[i].inUse && contexts[i].format == format && contexts[i].elapsedMs == 0
      ensures contexts[i].width == Min(width, MaxContextWidth) && contexts[i].height == Min(height, MaxContextHeight)
      ensures FirstSpare(old(contexts), format).Some? ==>
                i == FirstSpare(old(contexts), format).value && |contexts| == |old(contexts)| &&
                contexts[i].keepAlive == old(contexts[i].keepAlive) &&
                forall k :: 0 <= k < |contexts| && k != i ==> contexts[k] == old(contexts[k])
      ensures FirstSpare(old(contexts), format).None? ==>
                i == |old(contexts)| && contexts[..i] == old(contexts) && !contexts[i].keepAlive
    {
      var w := Min(width, MaxContextWidth);
      var h := Min(height, MaxContextHeight);
      var k := 0;
      while k < |contexts| && (contexts[k].inUse || contexts[k].format != format)
        invariant 0 <= k <= |contexts|
        invariant forall j :: 0 <= j < k ==> contexts[j].inUse || contexts[j].format != format
      {
        k := k + 1;
      }
      if k == |contexts| {
        assert FirstSpare(contexts, format).None?;
        contexts := contexts + [DrawContext(w, h, format, true, false, 0, 1)];
        return k;
      }
      assert FirstSpare(contexts, format) == Wrappers.Some(k);
      var spare := contexts[k];
      if spare.width != w || spare.height != h {
        spare := spare.(width := w, height := h);
      }
      contexts := contexts[k := spare.(inUse := true, elapsedMs := 0)];
      i := k;
    }
  }

  // ------------------------------------------------------------- batching

  /** The point indices shifted by the index offset, in 32-bit arithmetic. */
  function Shifted(indices: seq<nat>, offset: nat): (r: seq<nat>)
    ensures |r| == |indices|
    ensures forall k :: 0 <= k < |r| ==> r[k] == (indices[k] + offset) % IndexModulus
  {
    if |indices| == 0 then []
    else Shifted(indices[..|indices| - 1], offset) + [(indices[|indices| - 1] + offset) % IndexModulus]
  }

  /** Every index names a vertex of the batch. */
  predicate IndicesInRange(indices: seq<nat>, vertexCount: nat)
  {
    forall k :: 0 <= k < |indices| ==> indices[k] < vertexCount
  }

  /** Shifting a point's own indices past the vertices already batched
   *  makes them name the point's vertices. */
  lemma ShiftedInRange(indices: seq<nat>, pointCount: nat, offset: nat)
    requires IndicesInRange(indices, pointCount) && offset + pointCount <= IndexModulus
    ensures IndicesInRange(Shifted(indices, offset), offset + pointCount)
  {
    forall k | 0 <= k < |indices|
      ensures Shifted(indices, offset)[k] < offset + pointCount
    {
      assert indices[k] + offset < IndexModulus;
    }
  }

  /** The segments, as pairs of point indices, that DrawLines draws as
   *  written: count segments from i to (i + 1) mod m, where m is the count
   *  for a closed line and one less for an open one. */
  function LineSegmentsAsWritten(count: nat, connect: bool): (r: seq<(nat, nat)>)
    requires if connect then count >= 3 else count >= 2
    ensures |r| == count
  {
    var m := if connect then count else count - 1;
    seq(count, i requires 0 <= i < count => (i, (i + 1) % m))
  }

  /** The segments of the polyline: from each point to the next, and from
   *  the last to the first when closed. */
  function LineSegments(count: nat, connect: bool): (r: seq<(nat, nat)>)
    ensures |r| == (if connect then count else if count == 0 then 0 else count - 1)
    ensures forall k :: 0 <= k < |r| ==> r[k].0 == k && r[k].0 < count && r[k].1 < count
    ensures forall k :: 0 <= k < |r| ==> r[k].1 == (if k + 1 == count then 0 else k + 1)
  {
    var n := if connect then count else if count == 0 then 0 else count - 1;
    seq(n, i requires 0 <= i < n => (i, if i + 1 == count then 0 else i + 1))
  }

  /** For an open line the written loop draws one segment too many and,
   *  from the second on, the wrong ones: three open points give (0,1),
   *  (1,0), (2,1) instead of (0,1), (1,2). */
  lemma OpenLinesAsWritten()
    ensures LineSegmentsAsWritten(3, false) == [(0, 1), (1, 0), (2, 1)]
    ensures LineSegments(3, false) == [(0, 1), (1, 2)]
  {
    assert LineSegmentsAsWritten(3, false)[1] == (1, 0);
    assert LineSegmentsAsWritten(3, false)[2] == (2, 1);
  }

  /** For a closed line the written loop is right. */
  lemma ClosedLinesAsWritten(count: nat)
    requires count >= 3
    ensures LineSegmentsAsWritten(count, true) == LineSegments(count, true)
  {
    var a, b := LineSegmentsAsWritten(count, true), LineSegments(count, true);
    forall k | 0 <= k < count
      ensures a[k] == b[k]
    {
      NextPoint(k, count);
    }
  }

  /** The point after i, counting round a closed line. */
  lemma NextPoint(i: nat, count: nat)
    requires i < count
    ensures (i + 1) % count == (if i + 1 == count then 0 else i + 1)
  {
  }

  /** The vertices of the flushed batches, in the order they were drawn. */
  function DrawnVertices(ds: seq<DrawnBatch>): seq<Vertex>
  {
    if |ds| == 0 then [] else DrawnVertices(ds[..|ds| - 1]) + ds[|ds| - 1].vertices
  }

  /** Drawing one more batch adds its vertices after the others. */
  lemma DrawnVerticesAppend(ds: seq<DrawnBatch>, b: DrawnBatch)
    ensures DrawnVertices(ds + [b]) == DrawnVertices(ds) + b.vertices
  {
    assert (ds + [b])[..|ds|] == ds;
  }

  /** The vertices of one line quad per segment, in segment order. */
  function QuadVertices(lineQuad: (nat, nat) -> seq<Vertex>, segments: seq<(nat, nat)>): seq<Vertex>
  {
    if |segments| == 0 then []
    else QuadVertices(lineQuad, segments[..|segments| - 1]) + lineQuad(segments[|segments| - 1].0, segments[|segments| - 1].1)
  }

  /** One more segment adds its quad after the others. */
  lemma QuadVerticesStep(lineQuad: (nat, nat) -> seq<Vertex>, all: seq<(nat, nat)>, i: nat)
    requires i < |all|
    ensures QuadVertices(lineQuad, all[..i + 1]) == QuadVertices(lineQuad, all[..i]) + lineQuad(all[i].0, all[i].1)
  {
    assert all[..i + 1][..i] == all[..i];
  }

  class RenderData {
    var vertices: seq<Vertex>
    var indices: seq<nat>
    var textures: seq<nat>
    var indexOffset: nat
    var forceFlush: bool
    var renderState: RenderState
    var drawn: seq<DrawnBatch>
    /** The texture that commands draw to, 0 for none. */
    var drawingTo: nat
    var drawQueues: map<nat, seq<nat>>
    var debugQueue: seq<nat>
    const pool: DrawContextPool
    const maxTextureSlots: nat

    /** The index offset is the number of vertices batched, as a 32-bit
     *  value, every index is a 32-bit value, and the batch's textures are
     *  distinct and leave slot 0 to the white texture. */
    ghost predicate Valid()
      reads this
    {
      && indexOffset == |vertices| % IndexModulus
      && (forall k :: 0 <= k < |indices| ==> indices[k] < IndexModulus)
      && 2 <= maxTextureSlots && |textures| < maxTextureSlots
      && (forall j, k :: 0 <= j < k < |textures| ==> textures[j] != textures[k])
    }

    constructor (pool: DrawContextPool, maxTextureSlots: nat)
      requires maxTextureSlots >= 2
      ensures Valid() && vertices == [] && indices == [] && textures == [] && indexOffset == 0
      ensures !forceFlush && renderState == DefaultRenderState && drawn == [] && this.pool == pool
      ensures drawingTo == 0 && drawQueues == map[] && debugQueue == [] && this.maxTextureSlots == maxTextureSlots
    {
      drawingTo := 0;
      drawQueues := map[];
      debugQueue := [];
      this.maxTextureSlots := maxTextureSlots;
      vertices := [];
      indices := [];
      textures := [];
      indexOffset := 0;
      forceFlush := false;
      renderState := DefaultRenderState;
      drawn := [];
      this.pool := pool;
    }

    /** Every vertex drawn so far or still to be drawn: the flushed
     *  batches' vertices, then the current batch's when its state is set
     *  (a batch in a reset state is dropped by the next flush). */
    function Stream(): seq<Vertex>
      reads this
    {
      DrawnVertices(drawn) + Drawable(renderState, vertices)
    }

    /** Submit: queue a command (known by an id) for the current target,
     *  or on the debug queue. */
    method Submit(command: nat, debug: bool)
      requires drawingTo != 0
      modifies this`debugQueue, this`drawQueues
      ensures debug ==> debugQueue == old(debugQueue) + [command] && drawQueues == old(drawQueues)
      ensures !debug ==> debugQueue == old(debugQueue) &&
                         drawQueues == old(drawQueues)[drawingTo := QueueOf(old(drawQueues), drawingTo) + [command]]
    {
      if debug {
        debugQueue := debugQueue + [command];
      } else {
        drawQueues := drawQueues[drawingTo := QueueOf(drawQueues, drawingTo) + [command]];
      }
    }

    /** Reset: an empty batch, no forced flush, and the pool trimmed. */
    method Reset()
      requires Valid()
      modifies this, pool`contexts
      ensures Valid() && vertices == [] && indices == [] && textures == [] && indexOffset == 0 && !forceFlush
      ensures renderState == old(renderState) && drawn == old(drawn)
      ensures pool.contexts == Trimmed(old(pool.contexts), pool.maxAgeMs)
    {
      vertices := [];
      indices := [];
      textures := [];
      indexOffset := 0;
      forceFlush := false;
      pool.TrimExpired();
    }

    /** Flush: hand the batch to the draw calls when the render state is
     *  set, and reset; a final flush also resets the render state. */
    method Flush(finalFlush: bool)
      requires Valid()
      modifies this, pool`contexts
      ensures Valid() && vertices == [] && indices == [] && textures == [] && indexOffset == 0 && !forceFlush
      ensures drawn == old(drawn) + FlushedBatch(old(renderState), old(vertices), old(indices), old(textures))
      ensures renderState == (if finalFlush then DefaultRenderState else old(renderState))
      ensures Stream() == old(Stream())
    {
      if renderState.IsSet() {
        DrawnVerticesAppend(drawn, DrawnBatch(renderState, vertices, indices, textures));
        drawn := drawn + [DrawnBatch(renderState, vertices, indices, textures)];
      }
      Reset();
      if finalFlush {
        renderState := DefaultRenderState;
      }
    }

    /** SetState: flush and switch exactly when the state differs or a
     *  flush is forced; the result says whether that happened. */
    method SetState(newState: RenderState) returns (changed: bool)
      requires Valid()
      modifies this, pool`contexts
      ensures changed <==> newState != old(renderState) || old(forceFlush)
      ensures renderState == newState
      ensures changed ==> drawn == old(drawn) + FlushedBatch(old(renderState), old(vertices), old(indices), old(textures)) &&
                          Valid() && vertices == [] && indices == [] && indexOffset == 0 && !forceFlush
      ensures !changed ==> unchanged(this) && unchanged(pool)
      ensures Stream() == old(Stream())
    {
      if newState != renderState || forceFlush {
        Flush(false);
        renderState := newState;
        return true;
      }
      return false;
    }

    /** Whether AddVertices flushes first: the batch would outgrow the
     *  vertex or the index capacity. */
    function WouldOverflow(pointVertices: nat, pointIndices: nat): bool
      reads this
    {
      |vertices| + pointVertices > VertexCapacity || |indices| + pointIndices > IndexCapacity
    }

    /** AddVertices: flush first if the batch would overflow, then append
     *  the vertices and the indices shifted by the offset, and advance the
     *  offset by the vertex count. */
    method AddVertices(pointVertices: seq<Vertex>, pointIndices: seq<nat>)
      requires Valid()
      modifies this, pool`contexts
      ensures Valid() && renderState == old(renderState)
      ensures old(WouldOverflow(|pointVertices|, |pointIndices|)) ==>
                drawn == old(drawn) + FlushedBatch(old(renderState), old(vertices), old(indices), old(textures)) &&
                vertices == pointVertices && indices == Shifted(pointIndices, 0) && textures == []
      ensures !old(WouldOverflow(|pointVertices|, |pointIndices|)) ==>
                drawn == old(drawn) && textures == old(textures) &&
                vertices == old(vertices) + pointVertices && indices == old(indices) + Shifted(pointIndices, old(indexOffset))
      ensures indexOffset == |vertices| % IndexModulus
      ensures (IndicesInRange(old(indices), |old(vertices)|) && IndicesInRange(pointIndices, |pointVertices|) &&
               |vertices| <= IndexModulus) ==> IndicesInRange(indices, |vertices|)
      ensures Stream() == old(Stream()) + Drawable(renderState, pointVertices)
    {
      if WouldOverflow(|pointVertices|, |pointIndices|) {
        Flush(false);
      }
      AppendPoint(pointVertices, pointIndices);
    }

    /** The append of AddVertices, after any flush. */
    method AppendPoint(pointVertices: seq<Vertex>, pointIndices: seq<nat>)
      requires Valid()
      modifies this`vertices, this`indices, this`indexOffset
      ensures Valid()
      ensures vertices == old(vertices) + pointVertices && indices == old(indices) + Shifted(pointIndices, old(indexOffset))
      ensures (IndicesInRange(old(indices), |old(vertices)|) && IndicesInRange(pointIndices, |pointVertices|) &&
               |vertices| <= IndexModulus) ==> IndicesInRange(indices, |vertices|)
    {
      ghost var oldCount := |vertices|;
      var added := ShiftIndices(pointIndices, indexOffset);
      InRangeAfterAppend(indices, pointIndices, oldCount, |pointVertices|, indexOffset);
      vertices := vertices + pointVertices;
      indices := indices + added;
      indexOffset := (indexOffset + |pointVertices|) % IndexModulus;
    }

    /** AddVertices as the line loops rely on it: the batch stays valid
     *  in the same render state, ends with the quad's vertices and its
     *  indices shifted to them, and the stream grows by the quad. */
    method AddQuadVertices(pointVertices: seq<Vertex>, pointIndices: seq<nat>)
      requires Valid()
      modifies this, pool`contexts
      ensures Valid() && renderState == old(renderState)
      ensures Stream() == old(Stream()) + Drawable(renderState, pointVertices)
      ensures |vertices| >= |pointVertices| && vertices[|vertices| - |pointVertices|..] == pointVertices
      ensures |indices| >= |pointIndices| &&
              indices[|indices| - |pointIndices|..] == Shifted(pointIndices, (|vertices| - |pointVertices|) % IndexModulus)
    {
      AddVertices(pointVertices, pointIndices);
    }

    /** One segment's quad, as the line loops need it. */
    method AddSegmentQuad(pointVertices: seq<Vertex>, pointIndices: seq<nat>)
      requires Valid()
      modifies this, pool`contexts
      ensures Valid() && renderState == old(renderState)
      ensures Stream() == old(Stream()) + Drawable(renderState, pointVertices)
    {
      AddQuadVertices(pointVertices, pointIndices);
    }

    /** DrawLines: switch to the command's state and add one quad per
     *  segment of the polyline; `segments` is what was drawn. */
    method DrawLines(count: nat, connect: bool, lineWidth: real, state: RenderState,
                     lineQuad: (nat, nat) -> seq<Vertex>) returns (segments: seq<(nat, nat)>)
      requires Valid() && lineWidth >= 1.0
      requires if connect then count >= 3 else count >= 2
      modifies this, pool`contexts
      ensures Valid() && renderState == state
      ensures segments == LineSegments(count, connect)
      ensures Stream() == old(Stream()) + Drawable(state, QuadVertices(lineQuad, segments))
    {
      var _ := SetState(state);
      segments := LineSegments(count, connect);
      AddSegmentQuads(lineQuad, segments, QuadIndices);
    }

    /** AddLinesImpl: one quad per segment from each point to the next,
     *  the last joined to the first. */
    method AddLines(count: nat, lineWidth: real, lineQuad: (nat, nat) -> seq<Vertex>, lineIndices: seq<nat>)
      returns (segments: seq<(nat, nat)>)
      requires Valid() && lineWidth >= 1.0
      modifies this, pool`contexts
      ensures Valid() && renderState == old(renderState)
      ensures segments == LineSegments(count, true)
      ensures Stream() == old(Stream()) + Drawable(renderState, QuadVertices(lineQuad, segments))
    {
      segments := LineSegments(count, true);
      AddSegmentQuads(lineQuad, segments, lineIndices);
    }

    /** The loop of DrawLines and AddLinesImpl: one quad per segment, in
     *  order. */
    method AddSegmentQuads(lineQuad: (nat, nat) -> seq<Vertex>, all: seq<(nat, nat)>, lineIndices: seq<nat>)
      requires Valid()
      modifies this, pool`contexts
      ensures Valid() && renderState == old(renderState)
      ensures Stream() == old(Stream()) + Drawable(renderState, QuadVertices(lineQuad, all))
    {
      ghost var start := Stream();
      var i := 0;
      while i < |all|
        invariant 0 <= i <= |all|
        invariant Valid() && renderState == old(renderState)
        invariant Stream() == start + Drawable(renderState, QuadVertices(lineQuad, all[..i]))
      {
        AddSegment(lineQuad, all, i, lineIndices, start);
        i := i + 1;
      }
      assert all[..i] == all;
    }

    /** One turn of the line loops: the quad of segment `i` follows the
     *  quads of the segments before it. */
    method AddSegment(lineQuad: (nat, nat) -> seq<Vertex>, all: seq<(nat, nat)>, i: nat, lineIndices: seq<nat>, ghost start: seq<Vertex>)
      requires Valid() && i < |all| && Stream() == start + Drawable(renderState, QuadVertices(lineQuad, all[..i]))
      modifies this, pool`contexts
      ensures Valid() && renderState == old(renderState)
      ensures Stream() == start + Drawable(renderState, QuadVertices(lineQuad, all[..i + 1]))
    {
      QuadVerticesStep(lineQuad, all, i);
      AddSegmentQuad(lineQuad(all[i].0, all[i].1), lineIndices);
      assert Stream() == start + (Drawable(renderState, QuadVertices(lineQuad, all[..i])) + Drawable(renderState, lineQuad(all[i].0, all[i].1)));
    }

    /** DrawTexture: a textured quad. A quad of no area draws nothing.
     *  Otherwise switch to the command's state, flush first if the quad
     *  would overflow the buffers, then give the vertices the index of the
     *  texture's slot (slot i + 1 for the batch's i-th texture, slot 0
     *  being the white texture), flushing when a new texture finds the
     *  texture slots full, and add the texture when it is new. */
    method DrawTexture(textureId: nat, hasArea: bool, state: RenderState, quad: seq<Vertex>) returns (textureIndex: nat)
      requires Valid() && textureId != 0 && |quad| == 4
      modifies this, pool`contexts
      ensures Valid()
      ensures !hasArea ==> unchanged(this) && unchanged(pool) && textureIndex == 0
      ensures hasArea ==>
                && renderState == state
                && 1 <= textureIndex <= |textures| && textures[textureIndex - 1] == textureId
                && |vertices| >= 4 && vertices[|vertices| - 4..] == WithTextureIndex(quad, textureIndex)
                && (old(textureId in textures) && !old(WouldOverflow(4, 6)) && state == old(renderState) && !old(forceFlush)
                    ==> textures == old(textures) && drawn == old(drawn) && vertices == old(vertices) + WithTextureIndex(quad, textureIndex))
    {
      if !hasArea {
        return 0;
      }
      var _ := SetState(state);
      ghost var kept := textureId in old(textures) && !old(WouldOverflow(4, 6)) && state == old(renderState) && !old(forceFlush);
      assert kept ==> textures == old(textures) && drawn == old(drawn) && vertices == old(vertices) && !WouldOverflow(4, 6);
      if WouldOverflow(|quad|, |QuadIndices|) {
        Flush(false);
      }
      assert !WouldOverflow(4, 6);
      textureIndex := AddTexturedQuad(textureId, quad);
    }

    /** The rest of DrawTexture, once the quad fits the buffers. */
    method AddTexturedQuad(textureId: nat, quad: seq<Vertex>) returns (textureIndex: nat)
      requires Valid() && |quad| == 4 && !WouldOverflow(4, 6)
      modifies this, pool`contexts
      ensures Valid() && renderState == old(renderState)
      ensures 1 <= textureIndex <= |textures| && textures[textureIndex - 1] == textureId
      ensures |vertices| >= 4 && vertices[|vertices| - 4..] == WithTextureIndex(quad, textureIndex)
      ensures old(textureId in textures) ==>
                textures == old(textures) && drawn == old(drawn) && vertices == old(vertices) + WithTextureIndex(quad, textureIndex)
    {
      var isNew;
      textureIndex, isNew := PickTextureSlot(textureId);
      assert !WouldOverflow(4, 6);
      ghost var picked := textures;
      ghost var before := vertices;
      AddVertices(WithTextureIndex(quad, textureIndex), QuadIndices);
      assert textures == picked && vertices == before + WithTextureIndex(quad, textureIndex);
      if isNew {
        textures := textures + [textureId];
      }
    }

    /** The texture index DrawTexture gives its vertices: the slot of a
     *  texture already in the batch, or else the next slot, after flushing
     *  when the texture slots are full. */
    method PickTextureSlot(textureId: nat) returns (textureIndex: nat, isNew: bool)
      requires Valid()
      modifies this, pool`contexts
      ensures Valid() && renderState == old(renderState)
      ensures isNew <==> textureId !in old(textures)
      ensures !isNew ==> unchanged(this) && 1 <= textureIndex <= |textures| && textures[textureIndex - 1] == textureId
      ensures isNew ==> textureIndex == |textures| + 1 < maxTextureSlots && textureId !in textures
      ensures (vertices == old(vertices) && indices == old(indices) && textures == old(textures) && drawn == old(drawn)) ||
              (vertices == [] && indices == [] && textures == [])
    {
      var found := TextureLookup(textures, textureId);
      if found.Some? {
        return found.value + 1, false;
      }
      if |textures| + 1 == maxTextureSlots {
        Flush(false);
      }
      return |textures| + 1, true;
    }
  }

  /** The loop of AddVertices that shifts each point index by the offset. */
  method ShiftIndices(pointIndices: seq<nat>, offset: nat) returns (added: seq<nat>)
    ensures added == Shifted(pointIndices, offset)
  {
    added := [];
    var k := 0;
    while k < |pointIndices|
      invariant 0 <= k <= |pointIndices|
      invariant added == Shifted(pointIndices[..k], offset)
    {
      assert pointIndices[..k + 1][..k] == pointIndices[..k];
      added := added + [(pointIndices[k] + offset) % IndexModulus];
      k := k + 1;
    }
    assert pointIndices[..|pointIndices|] == pointIndices;
  }

  /** The commands queued for a target; a missing target has none. */
  function QueueOf(queues: map<nat, seq<nat>>, target: nat): (r: seq<nat>)
    ensures target !in queues ==> r == []
    ensures target in queues ==> r == queues[target]
  {
    if target in queues then queues[target] else []
  }

  lemma InRangeAfterAppend(before: seq<nat>, pointIndices: seq<nat>, oldCount: nat, pointCount: nat, offset: nat)
    requires offset == oldCount % IndexModulus
    ensures IndicesInRange(before, oldCount) && IndicesInRange(pointIndices, pointCount) && oldCount + pointCount <= IndexModulus ==>
            IndicesInRange(before + Shifted(pointIndices, offset), oldCount + pointCount)
  {
    if IndicesInRange(before, oldCount) && IndicesInRange(pointIndices, pointCount) && oldCount + pointCount <= IndexModulus {
      assert offset <= oldCount;
      ShiftedInRange(pointIndices, pointCount, offset);
    }
  }

  // ------------------------------------------------------------- viewport

  datatype V2 = V2(x: int, y: int)

  datatype Viewport = Viewport(position: V2, size: V2)

  datatype ScalingMode = Disabled | Stretch | Letterbox | Overscan | IntegerScale

  /** C++ integer division, which truncates toward zero. */
  function TruncDiv(a: int, b: int): (q: int)
    requires b != 0
    ensures b > 0 && a >= 0 ==> q == a / b
    ensures b > 0 ==> (q * b <= a < q * b + b) || (a < 0 && q * b - b < a <= q * b)
  {
    if (a >= 0) == (b > 0) then (if a >= 0 then a / b else (-a) / (-b))
    else -((if a < 0 then -a else a) / (if b < 0 then -b else b))
  }

  function BothAboveZero(v: V2): bool
  {
    v.x > 0 && v.y > 0
  }

  /** The integer scale: the smaller of the whole ratios of window to
   *  game size along the two axes, and at least 1. */
  function IntegerScaleFactor(window: V2, game: V2): (s: int)
    requires BothAboveZero(window) && BothAboveZero(game)
    ensures s >= 1
  {
    var m := Min(window.x / game.x, window.y / game.y);
    if m >= 1 then m else 1
  }

  lemma MulDivBounds(a: int, b: int)
    requires a >= 0 && b > 0
    ensures (a / b) * b <= a < (a / b + 1) * b
  {
  }

  lemma MulMonotone(a: int, b: int, c: int)
    requires a <= b && c >= 0
    ensures a * c <= b * c
  {
  }

  /** A game that fits the window fits it at the integer scale, and one
   *  step larger it no longer fits along some axis. */
  lemma {:induction false} IntegerScaleFits(window: V2, game: V2)
    requires BothAboveZero(window) && BothAboveZero(game)
    requires game.x <= window.x && game.y <= window.y
    ensures IntegerScaleFactor(window, game) * game.x <= window.x
    ensures IntegerScaleFactor(window, game) * game.y <= window.y
    ensures (IntegerScaleFactor(window, game) + 1) * game.x > window.x ||
            (IntegerScaleFactor(window, game) + 1) * game.y > window.y
  {
    var rx, ry := window.x / game.x, window.y / game.y;
    MulDivBounds(window.x, game.x);
    MulDivBounds(window.y, game.y);
    assert rx >= 1 && ry >= 1;
    var s := IntegerScaleFactor(window, game);
    assert s == Min(rx, ry);
    MulMonotone(s, rx, game.x);
    MulMonotone(s, ry, game.y);
  }

  /** The viewport RecomputeDisplaySize computes; the aspect-fitted
   *  viewport of the letterbox and overscan modes, a float computation,
   *  is given. */
  function ComputeViewport(window: V2, game: V2, mode: ScalingMode, fitted: Viewport): (vp: Viewport)
    requires BothAboveZero(window) && BothAboveZero(game)
    ensures mode == Stretch ==> vp == Viewport(V2(0, 0), window)
    ensures mode == Disabled ==> vp.size == game
    ensures mode == IntegerScale ==>
              var s := IntegerScaleFactor(window, game);
              vp.size == V2(game.x * s, game.y * s) &&
              (game.x <= window.x && game.y <= window.y ==>
                 vp.size.x <= window.x && vp.size.y <= window.y &&
                 0 <= vp.position.x && vp.position.x + vp.size.x <= window.x &&
                 0 <= vp.position.y && vp.position.y + vp.size.y <= window.y)
    ensures mode in {Disabled, IntegerScale} ==>
              vp.position == V2(TruncDiv(window.x - vp.size.x, 2), TruncDiv(window.y - vp.size.y, 2))
  {
    match mode
    case Letterbox => fitted
    case Overscan => fitted
    case Stretch => Viewport(V2(0, 0), window)
    case Disabled => Centered(window, game)
    case IntegerScale =>
      var s := IntegerScaleFactor(window, game);
      if game.x <= window.x && game.y <= window.y then
        IntegerScaleFits(window, game);
        Centered(window, V2(game.x * s, game.y * s))
      else
        Centered(window, V2(game.x * s, game.y * s))
  }

  /** A viewport of the given size centred in the window. */
  function Centered(window: V2, size: V2): (vp: Viewport)
    ensures vp.size == size
    ensures vp.position == V2(TruncDiv(window.x - size.x, 2), TruncDiv(window.y - size.y, 2))
    ensures 0 <= size.x <= window.x ==> 0 <= vp.position.x && vp.position.x + size.x <= window.x
    ensures 0 <= size.y <= window.y ==> 0 <= vp.position.y && vp.position.y + size.y <= window.y
  {
    Viewport(V2(TruncDiv(window.x - size.x, 2), TruncDiv(window.y - size.y, 2)), size)
  }

  class Display {
    var gameSize: V2
    var mode: ScalingMode
    var viewport: Viewport
    var gameSizeChanged: bool
    var displaySizeChanged: bool

    constructor ()
      ensures gameSize == V2(1, 1) && mode == Letterbox && viewport == Viewport(V2(0, 0), V2(1, 1))
      ensures !gameSizeChanged && !displaySizeChanged
    {
      gameSize := V2(1, 1);
      mode := Letterbox;
      viewport := Viewport(V2(0, 0), V2(1, 1));
      gameSizeChanged := false;
      displaySizeChanged := false;
    }

    /** The end of RecomputeDisplaySize: the viewport changes, and the
     *  display size is marked changed, only when it differs. */
    method ApplyViewport(window: V2, fitted: Viewport)
      requires BothAboveZero(window) && BothAboveZero(gameSize)
      modifies this`viewport, this`displaySizeChanged
      ensures viewport == ComputeViewport(window, gameSize, mode, fitted)
      ensures displaySizeChanged == (old(displaySizeChanged) || viewport != old(viewport))
    {
      var vp := ComputeViewport(window, gameSize, mode, fitted);
      if vp != viewport {
        viewport := vp;
        displaySizeChanged := true;
      }
    }

    /** RecomputeDisplaySize: a game size that is not positive is first
     *  replaced by the window size (through UpdateResolutions), and then
     *  the viewport is recomputed. */
    method RecomputeDisplaySize(window: V2, fitted: Viewport)
      requires BothAboveZero(window)
      modifies this`gameSize, this`gameSizeChanged, this`viewport, this`displaySizeChanged
      ensures gameSize == (if BothAboveZero(old(gameSize)) then old(gameSize) else window) && mode == old(mode)
      ensures gameSizeChanged == (old(gameSizeChanged) || !BothAboveZero(old(gameSize)))
      ensures viewport == ComputeViewport(window, gameSize, mode, fitted)
      ensures displaySizeChanged == (old(displaySizeChanged) || viewport != old(viewport))
    {
      if !BothAboveZero(gameSize) {
        gameSize := window;
        gameSizeChanged := true;
        ApplyViewport(window, fitted);
      }
      ApplyViewport(window, fitted);
    }

    /** UpdateResolutions: nothing when neither the game size nor the mode
     *  changes; otherwise adopt both, note whether the game size changed,
     *  and recompute the viewport. */
    method UpdateResolutions(game: V2, newMode: ScalingMode, window: V2, fitted: Viewport)
      requires BothAboveZero(window)
      modifies this`gameSize, this`mode, this`gameSizeChanged, this`viewport, this`displaySizeChanged
      ensures game == old(gameSize) && newMode == old(mode) ==> unchanged(this)
      ensures !(game == old(gameSize) && newMode == old(mode)) ==>
                gameSize == (if BothAboveZero(game) then game else window) && mode == newMode &&
                gameSizeChanged == (game != old(gameSize) || !BothAboveZero(game)) &&
                viewport == ComputeViewport(window, gameSize, mode, fitted) &&
                displaySizeChanged == (old(displaySizeChanged) || viewport != old(viewport))
    {
      if game == gameSize && newMode == mode {
        return;
      }
      var newGameSize := game != gameSize;
      gameSize := game;
      mode := newMode;
      gameSizeChanged := newGameSize;
      RecomputeDisplaySize(window, fitted);
    }
  }
}
