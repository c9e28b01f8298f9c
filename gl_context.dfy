/**
 * The bound-state cache of engine/src/renderer/gl/gl_context.h. The context
 * keeps a copy of the GL state it last set (`bound_`), and each setter
 * skips its GL call when the requested value is already cached.
 *
 * The GL calls a setter makes are appended to `calls`, in order; what the
 * driver does with them is not modelled. A handle is its GL id, 0 being the
 * null handle. The shader's uniform location caches are kept per shader
 * id, and the location the driver would return for a name not yet cached
 * is a parameter.
 */
module GLContextState {

  // The GL enums the pure helpers compare with.
  const GlStencilIndex: nat := 0x1901
  const GlDepthComponent: nat := 0x1902
  const GlRed: nat := 0x1903
  const GlGreen: nat := 0x1904
  const GlBlue: nat := 0x1905
  const GlRgb: nat := 0x1907
  const GlRgba: nat := 0x1908
  const GlBgr: nat := 0x80E0
  const GlBgra: nat := 0x80E1
  const GlRg: nat := 0x8227
  const GlDepthStencil: nat := 0x84F9

  const GlNearest: nat := 0x2600
  const GlLinear: nat := 0x2601
  const GlNearestMipmapNearest: nat := 0x2700
  const GlLinearMipmapNearest: nat := 0x2701
  const GlNearestMipmapLinear: nat := 0x2702
  const GlLinearMipmapLinear: nat := 0x2703

  const GlTexture0: nat := 0x84C0

  /** The blend modes SetBlendMode knows. */
  datatype BlendMode =
    | Blend | PremultipliedBlend | ReplaceRGBA | ReplaceRGB | ReplaceAlpha
    | AddRGB | AddRGBA | AddAlpha | PremultipliedAddRGB | PremultipliedAddRGBA
    | MultiplyRGB | MultiplyRGBA | MultiplyAlpha
    | MultiplyRGBWithAlphaBlend | MultiplyRGBAWithAlphaBlend

  datatype Factor = Zero | One | SrcAlpha | OneMinusSrcAlpha | DstAlpha | DstColor

  /** The four arguments of glBlendFuncSeparate. */
  datatype BlendFactors = BlendFactors(srcRgb: Factor, dstRgb: Factor, srcAlpha: Factor, dstAlpha: Factor)

  /** The resource kinds Bind handles. */
  datatype Resource =
    | VertexBuffer | ElementBuffer | UniformBuffer | Shader
    | RenderBuffer | Texture | FrameBuffer | VertexArray

  datatype Capability = BlendCap | DepthTestCap | LineSmoothCap | ScissorTestCap | CullFaceCap | StencilTestCap

  datatype Face = Front | Back | FrontAndBack

  datatype Viewport = Viewport(x: int, y: int, width: int, height: int)
  datatype Color = Color(r: nat, g: nat, b: nat, a: nat)
  datatype ColorMask = ColorMask(red: bool, green: bool, blue: bool, alpha: bool)
  datatype Scissor = Scissor(enabled: bool, x: int, y: int, width: int, height: int)
  datatype Cull = Cull(enabled: bool, face: nat, front: nat)
  datatype Stencil = Stencil(enabled: bool, func: nat, ref: int, mask: nat,
                             failOp: nat, zfailOp: nat, zpassOp: nat, writeMask: nat)

  /** The buffers a vertex array object has bound. */
  datatype VertexArrayBuffers = VertexArrayBuffers(vertexBuffer: nat, elementBuffer: nat)

  datatype UniformValue = Floats(fs: seq<real>) | Ints(ns: seq<int>) | Matrix(entries: seq<real>) | Flag(b: bool)

  datatype GLCall =
    | Enable(cap: Capability)
    | Disable(cap: Capability)
    | ClearDepth(depth: real)
    | DepthMask(write: bool)
    | DepthFunc(func: nat)
    | LineWidth(width: real)
    | PolygonMode(face: Face, mode: nat)
    | BlendEquationAdd
    | BlendFuncSeparate(factors: BlendFactors)
    | SetViewportCall(viewport: Viewport)
    | ClearColor(color: Color)
    | SetColorMaskCall(mask: ColorMask)
    | ScissorBox(left: int, bottom: int, boxWidth: int, boxHeight: int)
    | CullFace(cullFace: nat)
    | FrontFace(front: nat)
    | StencilFunc(stencilFunc: nat, stencilRef: int, stencilMask: nat)
    | StencilOp(failOp: nat, zfailOp: nat, zpassOp: nat)
    | StencilMask(writeMask: nat)
    | ActiveTexture(unit: nat)
    | BindCall(kind: Resource, id: nat)
    | GetUniformLocation(program: nat, name: string)
    | UniformCall(location: int, value: UniformValue)

  /** The cached GL state (`bound_`). */
  datatype State = State(
    depthWrite: bool, depthFunc: nat, depthTest: bool,
    blending: bool, blendMode: BlendMode,
    lineWidth: real, polygonFront: nat, polygonBack: nat,
    viewport: Viewport, clearColor: Color, colorMask: ColorMask,
    scissor: Scissor, cull: Cull, stencil: Stencil,
    activeSlot: nat, textureUnits: seq<nat>,
    vertexArray: nat, arrayBuffers: map<nat, VertexArrayBuffers>,
    uniformBuffer: nat, shader: nat, renderBuffer: nat, frameBuffer: nat)

  /** Blending and depth testing are never both enabled. */
  predicate Exclusive(s: State)
  {
    !(s.blending && s.depthTest)
  }

  /** The glBlendFuncSeparate arguments of each blend mode. */
  function Factors(mode: BlendMode): BlendFactors
  {
    match mode
    case Blend => BlendFactors(SrcAlpha, OneMinusSrcAlpha, One, OneMinusSrcAlpha)
    case PremultipliedBlend => BlendFactors(One, OneMinusSrcAlpha, One, OneMinusSrcAlpha)
    case ReplaceRGBA => BlendFactors(One, Zero, One, Zero)
    case ReplaceRGB => BlendFactors(One, Zero, Zero, One)
    case ReplaceAlpha => BlendFactors(Zero, One, One, Zero)
    case AddRGB => BlendFactors(SrcAlpha, One, Zero, One)
    case AddRGBA => BlendFactors(SrcAlpha, One, One, One)
    case AddAlpha => BlendFactors(Zero, One, One, One)
    case PremultipliedAddRGB => BlendFactors(One, One, Zero, One)
    case PremultipliedAddRGBA => BlendFactors(One, One, One, One)
    case MultiplyRGB => BlendFactors(DstColor, Zero, Zero, One)
    case MultiplyRGBA => BlendFactors(DstColor, Zero, DstAlpha, Zero)
    case MultiplyAlpha => BlendFactors(Zero, One, DstAlpha, Zero)
    case MultiplyRGBWithAlphaBlend => BlendFactors(DstColor, OneMinusSrcAlpha, Zero, One)
    case MultiplyRGBAWithAlphaBlend => BlendFactors(DstColor, OneMinusSrcAlpha, DstAlpha, Zero)
  }

  /** No two blend modes share their factors, so the cached mode names the
   *  GL blend function exactly. */
  lemma FactorsInjective(m: BlendMode, n: BlendMode)
    ensures Factors(m) == Factors(n) <==> m == n
  {
    match m
    case Blend =>
    case PremultipliedBlend =>
    case ReplaceRGBA =>
    case ReplaceRGB =>
    case ReplaceAlpha =>
    case AddRGB =>
    case AddRGBA =>
    case AddAlpha =>
    case PremultipliedAddRGB =>
    case PremultipliedAddRGBA =>
    case MultiplyRGB =>
    case MultiplyRGBA =>
    case MultiplyAlpha =>
    case MultiplyRGBWithAlphaBlend =>
    case MultiplyRGBAWithAlphaBlend =>
  }

  /** GetColorComponentCount: the channels a GL format stores; an unknown
   *  format fails its assertion and yields 0. */
  function GetColorComponentCount(format: nat): (r: nat)
    ensures r <= 4
    ensures r == 1 <==> format in {GlStencilIndex, GlDepthComponent, GlRed, GlGreen, GlBlue}
    ensures r == 2 <==> format in {GlDepthStencil, GlRg}
    ensures r == 3 <==> format in {GlRgb, GlBgr}
    ensures r == 4 <==> format in {GlRgba, GlBgra}
    ensures r == 0 <==> !KnownFormat(format)
  {
    if format == GlStencilIndex then 1
    else if format == GlDepthComponent then 1
    else if format == GlDepthStencil then 2
    else if format == GlRed then 1
    else if format == GlGreen then 1
    else if format == GlBlue then 1
    else if format == GlRg then 2
    else if format == GlRgb then 3
    else if format == GlBgr then 3
    else if format == GlRgba then 4
    else if format == GlBgra then 4
    else 0
  }

  predicate KnownFormat(format: nat)
  {
    format in {GlStencilIndex, GlDepthComponent, GlDepthStencil, GlRed, GlGreen, GlBlue,
               GlRg, GlRgb, GlBgr, GlRgba, GlBgra}
  }

  datatype Channel = RedChannel | GreenChannel | BlueChannel | AlphaChannel | DepthChannel | StencilChannel

  /** The channels of each known format, in the order the format stores
   *  them. */
  function Channels(format: nat): seq<Channel>
  {
    if format == GlStencilIndex then [StencilChannel]
    else if format == GlDepthComponent then [DepthChannel]
    else if format == GlDepthStencil then [DepthChannel, StencilChannel]
    else if format == GlRed then [RedChannel]
    else if format == GlGreen then [GreenChannel]
    else if format == GlBlue then [BlueChannel]
    else if format == GlRg then [RedChannel, GreenChannel]
    else if format == GlRgb then [RedChannel, GreenChannel, BlueChannel]
    else if format == GlBgr then [BlueChannel, GreenChannel, RedChannel]
    else if format == GlRgba then [RedChannel, GreenChannel, BlueChannel, AlphaChannel]
    else if format == GlBgra then [BlueChannel, GreenChannel, RedChannel, AlphaChannel]
    else []
  }

  /** The component count is the number of channels the format stores, and
   *  a format and its reversed-order twin store as many. */
  lemma ComponentCountIsChannels(format: nat)
    ensures GetColorComponentCount(format) == |Channels(format)|
    ensures GetColorComponentCount(GlBgr) == GetColorComponentCount(GlRgb)
    ensures GetColorComponentCount(GlBgra) == GetColorComponentCount(GlRgba)
  {
  }

  /** SupportsMipmaps: whether a minifying filter samples mipmaps. */
  function SupportsMipmaps(minFilter: nat): (r: bool)
    ensures r <==> GlNearestMipmapNearest <= minFilter <= GlLinearMipmapLinear
  {
    minFilter == GlLinearMipmapLinear || minFilter == GlLinearMipmapNearest ||
    minFilter == GlNearestMipmapLinear || minFilter == GlNearestMipmapNearest
  }

  /** The two filters without mipmaps do not support them. */
  lemma PlainFiltersLackMipmaps()
    ensures !SupportsMipmaps(GlNearest) && !SupportsMipmaps(GlLinear)
    ensures SupportsMipmaps(GlNearestMipmapNearest) && SupportsMipmaps(GlLinearMipmapLinear)
  {
  }

  /** GetBound<T>, on a cached state: the handle bound for a resource kind.
   *  The buffer bindings live in the bound vertex array. */
  function BoundIn(s: State, kind: Resource): nat
    requires kind in {VertexBuffer, ElementBuffer} ==> s.vertexArray in s.arrayBuffers
    requires kind == Texture ==> s.activeSlot < |s.textureUnits|
  {
    match kind
    case VertexBuffer => s.arrayBuffers[s.vertexArray].vertexBuffer
    case ElementBuffer => s.arrayBuffers[s.vertexArray].elementBuffer
    case UniformBuffer => s.uniformBuffer
    case Texture => s.textureUnits[s.activeSlot]
    case RenderBuffer => s.renderBuffer
    case FrameBuffer => s.frameBuffer
    case VertexArray => s.vertexArray
    case Shader => s.shader
  }

  /** Whether the kind's handle can be read from the state. */
  predicate Readable(s: State, kind: Resource)
  {
    (kind in {VertexBuffer, ElementBuffer} ==> s.vertexArray in s.arrayBuffers) &&
    (kind == Texture ==> s.activeSlot < |s.textureUnits|)
  }

  /** Bind's update of the cache: the kind's binding becomes the handle. */
  function WithBound(s: State, kind: Resource, handle: nat): (r: State)
    requires Readable(s, kind)
    ensures Readable(r, kind) && BoundIn(r, kind) == handle
    ensures r.blending == s.blending && r.depthTest == s.depthTest && r.activeSlot == s.activeSlot
    ensures |r.textureUnits| == |s.textureUnits|
  {
    match kind
    case VertexBuffer =>
      s.(arrayBuffers := s.arrayBuffers[s.vertexArray := s.arrayBuffers[s.vertexArray].(vertexBuffer := handle)])
    case ElementBuffer =>
      s.(arrayBuffers := s.arrayBuffers[s.vertexArray := s.arrayBuffers[s.vertexArray].(elementBuffer := handle)])
    case UniformBuffer => s.(uniformBuffer := handle)
    case Texture => s.(textureUnits := s.textureUnits[s.activeSlot := handle])
    case RenderBuffer => s.(renderBuffer := handle)
    case FrameBuffer => s.(frameBuffer := handle)
    case VertexArray => s.(vertexArray := handle)
    case Shader => s.(shader := handle)
  }

  /** Binding one kind leaves the binding of every other kind alone, except
   *  that the buffer bindings follow the bound vertex array. */
  lemma BindKeepsOthers(s: State, kind: Resource, handle: nat, other: Resource)
    requires Readable(s, kind) && Readable(s, other) && other != kind
    requires kind == VertexArray ==> other !in {VertexBuffer, ElementBuffer}
    ensures Readable(WithBound(s, kind, handle), other)
    ensures BoundIn(WithBound(s, kind, handle), other) == BoundIn(s, other)
  {
  }

  /** Binding the previous handle again, as the restoring bind guard does,
   *  gives back the cache as it was. */
  lemma RestoreUndoesBind(s: State, kind: Resource, handle: nat)
    requires Readable(s, kind)
    ensures WithBound(WithBound(s, kind, handle), kind, BoundIn(s, kind)) == s
  {
    match kind
    case VertexBuffer =>
      assert s.arrayBuffers[s.vertexArray := s.arrayBuffers[s.vertexArray]] == s.arrayBuffers;
    case ElementBuffer =>
      assert s.arrayBuffers[s.vertexArray := s.arrayBuffers[s.vertexArray]] == s.arrayBuffers;
    case Texture =>
      assert s.textureUnits[s.activeSlot := s.textureUnits[s.activeSlot]] == s.textureUnits;
    case _ =>
  }

  /** The uniform location cache lookup of GetUniform: a cached name gives
   *  its location; otherwise the queried location is returned and stored. */
  function LookupLocation(cache: map<string, int>, name: string, queried: int): (r: (int, map<string, int>))
    ensures name in r.1 && r.1[name] == r.0
    ensures r.1.Keys == cache.Keys + {name}
    ensures forall n :: n in cache ==> n in r.1 && r.1[n] == cache[n]
    ensures name !in cache ==> r.0 == queried
  {
    if name in cache then (cache[name], cache) else (queried, cache[name := queried])
  }

  /** After the first lookup of a name, further lookups return the same
   *  location and leave the cache alone, whatever the driver would answer. */
  lemma LookupCached(cache: map<string, int>, name: string, first: int, later: int)
    ensures LookupLocation(LookupLocation(cache, name, first).1, name, later) == LookupLocation(cache, name, first)
  {
  }

  /** The GL context's state cache and the calls it has made. */
  class GLContext {
    var bound: State
    var calls: seq<GLCall>
    /** Each shader's uniform location cache, by shader id. */
    var locationCaches: map<nat, map<string, int>>

    predicate Valid()
      reads this
    {
      Exclusive(bound)
    }

    constructor (initial: State)
      requires Exclusive(initial)
      ensures bound == initial && calls == [] && locationCaches == map[] && Valid()
    {
      bound := initial;
      calls := [];
      locationCaches := map[];
    }

    method SetDepthMask(enabled: bool)
      requires Valid()
      modifies this`bound, this`calls
      ensures Valid()
      ensures bound == old(bound).(depthWrite := enabled)
      ensures calls == old(calls) + (if old(bound).depthWrite == enabled then [] else [DepthMask(enabled)])
    {
      if bound.depthWrite == enabled {
        return;
      }
      calls := calls + [DepthMask(enabled)];
      bound := bound.(depthWrite := enabled);
    }

    /** SetBlending: enabling blending first disables depth testing. */
    method SetBlending(enabled: bool)
      modifies this`bound, this`calls
      decreases if enabled then 1 else 0
      ensures Valid() && bound.blending == enabled
      ensures bound == old(bound).(blending := enabled, depthTest := !enabled && old(bound).depthTest)
      ensures calls == old(calls)
                       + (if enabled && old(bound).depthTest then [Disable(DepthTestCap)] else [])
                       + (if old(bound).blending == enabled then []
                          else if enabled then [Enable(BlendCap)] else [Disable(BlendCap)])
    {
      if enabled {
        SetDepthTesting(false);
      }
      if bound.blending == enabled {
        return;
      }
      if enabled {
        calls := calls + [Enable(BlendCap)];
      } else {
        calls := calls + [Disable(BlendCap)];
      }
      bound := bound.(blending := enabled);
    }

    method SetDepthFunc(func: nat)
      requires Valid()
      modifies this`bound, this`calls
      ensures Valid()
      ensures bound == old(bound).(depthFunc := func)
      ensures calls == old(calls) + (if old(bound).depthFunc == func then [] else [DepthFunc(func)])
    {
      if bound.depthFunc == func {
        return;
      }
      calls := calls + [DepthFunc(func)];
      bound := bound.(depthFunc := func);
    }

    /** SetDepthTesting: enabling depth testing first disables blending;
     *  enabling it also sets the depth clear value to 1. */
    method SetDepthTesting(enabled: bool)
      modifies this`bound, this`calls
      decreases if enabled then 1 else 0
      ensures Valid() && bound.depthTest == enabled
      ensures bound == old(bound).(depthTest := enabled, blending := !enabled && old(bound).blending)
      ensures calls == old(calls)
                       + (if enabled && old(bound).blending then [Disable(BlendCap)] else [])
                       + (if old(bound).depthTest == enabled then []
                          else if enabled then [ClearDepth(1.0), Enable(DepthTestCap)] else [Disable(DepthTestCap)])
    {
      if enabled {
        SetBlending(false);
      }
      if bound.depthTest == enabled {
        return;
      }
      if enabled {
        calls := calls + [ClearDepth(1.0), Enable(DepthTestCap)];
      } else {
        calls := calls + [Disable(DepthTestCap)];
      }
      bound := bound.(depthTest := enabled);
    }

    method SetLineWidth(width: real)
      requires Valid()
      modifies this`bound, this`calls
      ensures Valid()
      ensures bound == old(bound).(lineWidth := width)
      ensures calls == old(calls) + (if old(bound).lineWidth == width then [] else [LineWidth(width)])
    {
      if bound.lineWidth == width {
        return;
      }
      calls := calls + [LineWidth(width)];
      bound := bound.(lineWidth := width);
    }

    /** SetLineSmoothing: smoothing needs blending, which it enables; the
     *  smoothing flag itself is not cached. */
    method SetLineSmoothing(enabled: bool)
      requires Valid()
      modifies this`bound, this`calls
      ensures Valid() && (enabled ==> bound.blending && !bound.depthTest)
      ensures !enabled ==> bound == old(bound) && calls == old(calls) + [Disable(LineSmoothCap)]
      ensures enabled ==> bound == old(bound).(blending := true, depthTest := false)
      ensures enabled ==> calls == old(calls)
                                   + (if old(bound).depthTest then [Disable(DepthTestCap)] else [])
                                   + (if old(bound).blending then [] else [Enable(BlendCap)])
                                   + [Enable(LineSmoothCap)]
    {
      if enabled {
        SetBlending(true);
        calls := calls + [Enable(LineSmoothCap)];
      } else {
        calls := calls + [Disable(LineSmoothCap)];
      }
    }

    /** SetPolygonMode: one call for both faces when the modes agree. */
    method SetPolygonMode(frontMode: nat, backMode: nat)
      requires Valid()
      modifies this`bound, this`calls
      ensures Valid()
      ensures bound == old(bound).(polygonFront := frontMode, polygonBack := backMode)
      ensures calls == old(calls) +
        (if old(bound).polygonFront == frontMode && old(bound).polygonBack == backMode then []
         else if frontMode == backMode then [PolygonMode(FrontAndBack, frontMode)]
         else [PolygonMode(Front, frontMode), PolygonMode(Back, backMode)])
    {
      if bound.polygonFront == frontMode && bound.polygonBack == backMode {
        return;
      }
      if frontMode == backMode {
        calls := calls + [PolygonMode(FrontAndBack, frontMode)];
      } else {
        calls := calls + [PolygonMode(Front, frontMode), PolygonMode(Back, backMode)];
      }
      bound := bound.(polygonFront := frontMode, polygonBack := backMode);
    }

    /** SetBlendMode: blending is enabled (so depth testing is off) and the
     *  mode's blend function is set unless the mode is already cached. */
    method SetBlendMode(mode: BlendMode)
      requires Valid()
      modifies this`bound, this`calls
      ensures Valid() && bound.blending && !bound.depthTest && bound.blendMode == mode
      ensures bound == old(bound).(blending := true, depthTest := false, blendMode := mode)
      ensures calls == old(calls)
                       + (if old(bound).depthTest then [Disable(DepthTestCap)] else [])
                       + (if old(bound).blending then [] else [Enable(BlendCap)])
                       + (if old(bound).blendMode == mode then []
                          else [BlendEquationAdd, BlendFuncSeparate(Factors(mode))])
    {
      SetBlending(true);
      if bound.blendMode == mode {
        return;
      }
      calls := calls + [BlendEquationAdd, BlendFuncSeparate(Factors(mode))];
      bound := bound.(blendMode := mode);
    }

    method SetViewport(viewport: Viewport)
      requires Valid()
      modifies this`bound, this`calls
      ensures Valid()
      ensures bound == old(bound).(viewport := viewport)
      ensures calls == old(calls) + (if old(bound).viewport == viewport then [] else [SetViewportCall(viewport)])
    {
      if bound.viewport == viewport {
        return;
      }
      calls := calls + [SetViewportCall(viewport)];
      bound := bound.(viewport := viewport);
    }

    method SetClearColor(color: Color)
      requires Valid()
      modifies this`bound, this`calls
      ensures Valid()
      ensures bound == old(bound).(clearColor := color)
      ensures calls == old(calls) + (if old(bound).clearColor == color then [] else [ClearColor(color)])
    {
      if bound.clearColor == color {
        return;
      }
      calls := calls + [ClearColor(color)];
      bound := bound.(clearColor := color);
    }

    method SetColorMask(mask: ColorMask)
      requires Valid()
      modifies this`bound, this`calls
      ensures Valid()
      ensures bound == old(bound).(colorMask := mask)
      ensures calls == old(calls) + (if old(bound).colorMask == mask then [] else [SetColorMaskCall(mask)])
    {
      if bound.colorMask == mask {
        return;
      }
      calls := calls + [SetColorMaskCall(mask)];
      bound := bound.(colorMask := mask);
    }

    /** SetScissor: the box is only sent when the test is enabled, but the
     *  whole scissor state is cached either way. */
    method SetScissor(scissor: Scissor)
      requires Valid()
      modifies this`bound, this`calls
      ensures Valid()
      ensures bound == old(bound).(scissor := scissor)
      ensures calls == old(calls) +
        (if old(bound).scissor == scissor then []
         else if scissor.enabled
         then [Enable(ScissorTestCap), ScissorBox(scissor.x, scissor.y, scissor.width, scissor.height)]
         else [Disable(ScissorTestCap)])
    {
      if bound.scissor == scissor {
        return;
      }
      if scissor.enabled {
        calls := calls + [Enable(ScissorTestCap), ScissorBox(scissor.x, scissor.y, scissor.width, scissor.height)];
      } else {
        calls := calls + [Disable(ScissorTestCap)];
      }
      bound := bound.(scissor := scissor);
    }

    method SetCull(cull: Cull)
      requires Valid()
      modifies this`bound, this`calls
      ensures Valid()
      ensures bound == old(bound).(cull := cull)
      ensures calls == old(calls) +
        (if old(bound).cull == cull then []
         else [if cull.enabled then Enable(CullFaceCap) else Disable(CullFaceCap),
               CullFace(cull.face), FrontFace(cull.front)])
    {
      if bound.cull == cull {
        return;
      }
      if cull.enabled {
        calls := calls + [Enable(CullFaceCap)];
      } else {
        calls := calls + [Disable(CullFaceCap)];
      }
      calls := calls + [CullFace(cull.face), FrontFace(cull.front)];
      bound := bound.(cull := cull);
    }

    method SetStencil(stencil: Stencil)
      requires Valid()
      modifies this`bound, this`calls
      ensures Valid()
      ensures bound == old(bound).(stencil := stencil)
      ensures calls == old(calls) +
        (if old(bound).stencil == stencil then []
         else [if stencil.enabled then Enable(StencilTestCap) else Disable(StencilTestCap),
               StencilFunc(stencil.func, stencil.ref, stencil.mask),
               StencilOp(stencil.failOp, stencil.zfailOp, stencil.zpassOp),
               StencilMask(stencil.writeMask)])
    {
      if bound.stencil == stencil {
        return;
      }
      if stencil.enabled {
        calls := calls + [Enable(StencilTestCap)];
      } else {
        calls := calls + [Disable(StencilTestCap)];
      }
      calls := calls + [StencilFunc(stencil.func, stencil.ref, stencil.mask),
                        StencilOp(stencil.failOp, stencil.zfailOp, stencil.zpassOp),
                        StencilMask(stencil.writeMask)];
      bound := bound.(stencil := stencil);
    }

    /** SetActiveTexture: a new slot must be below the number of texture
     *  units. */
    method SetActiveTexture(slot: nat)
      requires Valid()
      requires slot != bound.activeSlot ==> slot < |bound.textureUnits|
      modifies this`bound, this`calls
      ensures Valid()
      ensures bound == old(bound).(activeSlot := slot)
      ensures calls == old(calls) + (if old(bound).activeSlot == slot then [] else [ActiveTexture(GlTexture0 + slot)])
    {
      if bound.activeSlot == slot {
        return;
      }
      calls := calls + [ActiveTexture(GlTexture0 + slot)];
      bound := bound.(activeSlot := slot);
    }

    function GetBound(kind: Resource): (h: nat)
      reads this
      requires Readable(bound, kind)
      ensures h == BoundIn(bound, kind)
    {
      BoundIn(bound, kind)
    }

    function IsBound(kind: Resource, handle: nat): (r: bool)
      reads this
      requires Readable(bound, kind)
      ensures r <==> BoundIn(bound, kind) == handle
    {
      GetBound(kind) == handle
    }

    /** Bind: nothing happens when the handle is already bound; otherwise the
     *  bind call is made and cached. With `restore`, the previous handle is
     *  returned for the guard that binds it back. */
    method Bind(kind: Resource, handle: nat, restore: bool) returns (previous: BindGuard)
      requires Valid() && Readable(bound, kind)
      modifies this`bound, this`calls
      ensures Valid() && Readable(bound, kind) && BoundIn(bound, kind) == handle
      ensures old(BoundIn(bound, kind)) == handle ==> bound == old(bound) && calls == old(calls) && previous == NoGuard
      ensures old(BoundIn(bound, kind)) != handle ==>
                bound == WithBound(old(bound), kind, handle) && calls == old(calls) + [BindCall(kind, handle)]
      ensures old(BoundIn(bound, kind)) != handle ==>
                previous == (if restore then Guard(old(BoundIn(bound, kind))) else NoGuard)
    {
      var before := GetBound(kind);
      if handle == before {
        return NoGuard;
      }
      calls := calls + [BindCall(kind, handle)];
      bound := WithBound(bound, kind, handle);
      previous := if restore then Guard(before) else NoGuard;
    }

    /** GetUniform: the shader must be bound; a name is queried from the
     *  driver (answer `queried`) only the first time. */
    method GetUniform(shader: nat, name: string, queried: int) returns (location: int)
      requires Valid() && bound.shader == shader
      modifies this`locationCaches, this`calls
      ensures Valid()
      ensures var cache := if shader in old(locationCaches) then old(locationCaches)[shader] else map[];
              shader in locationCaches && (location, locationCaches[shader]) == LookupLocation(cache, name, queried)
      ensures forall id :: id in old(locationCaches) && id != shader ==> id in locationCaches && locationCaches[id] == old(locationCaches)[id]
      ensures var cache := if shader in old(locationCaches) then old(locationCaches)[shader] else map[];
              calls == old(calls) + (if name in cache then [] else [GetUniformLocation(shader, name)])
    {
      var cache := if shader in locationCaches then locationCaches[shader] else map[];
      if name in cache {
        location := cache[name];
        locationCaches := locationCaches[shader := cache];
        return;
      }
      calls := calls + [GetUniformLocation(shader, name)];
      location := queried;
      locationCaches := locationCaches[shader := cache[name := location]];
    }

    /** SetUniform: sets the value at the name's location, and does nothing
     *  for a name the shader does not have (location -1). */
    method SetUniform(shader: nat, name: string, value: UniformValue, queried: int) returns (location: int)
      requires Valid() && bound.shader == shader
      modifies this`locationCaches, this`calls
      ensures Valid()
      ensures var cache := if shader in old(locationCaches) then old(locationCaches)[shader] else map[];
              shader in locationCaches && (location, locationCaches[shader]) == LookupLocation(cache, name, queried)
      ensures var cache := if shader in old(locationCaches) then old(locationCaches)[shader] else map[];
              calls == old(calls) + (if name in cache then [] else [GetUniformLocation(shader, name)])
                                  + (if location == -1 then [] else [UniformCall(location, value)])
    {
      location := GetUniform(shader, name, queried);
      if location != -1 {
        calls := calls + [UniformCall(location, value)];
      }
    }
  }

  /** The guard Bind returns when asked to restore the previous binding. */
  datatype BindGuard = NoGuard | Guard(previous: nat)
}
