/**
 * The blitting helpers of the composition-layer renderer: the nested batch of
 * image operations collected in one shared command buffer, the parameters a
 * blit records (rectangles, colour gamuts, blend factors) and the guards that
 * make a blit do nothing.  The command buffer is an object whose recorded
 * commands are a sequence; what the graphics device does with an executed
 * buffer is outside the model, which only keeps the list of executed buffers.
 * Engine queries (colour space, UV origin, whether the blit shader exists)
 * are an `Environment` value.
 */
module ImageFilters {
  import opened Wrappers

  datatype AlphaMode = Opaque | Alpha | Premultiply
  datatype RenderPipeline = Builtin | Universal | HighDefinition

  /** The blend factors used here, with the engine's `BlendMode` numbers. */
  datatype BlendMode = Zero | One | SrcAlpha | OneMinusSrcAlpha

  function BlendCode(b: BlendMode): int
  {
    match b
    case Zero => 0
    case One => 1
    case SrcAlpha => 5
    case OneMinusSrcAlpha => 10
  }

  /** The engine's `ColorGamut.sRGB`; other gamuts are other non-negative codes. */
  const SRGB: nat := 0
  const DefaultNits: real := 160.0

  datatype HdrParams = HdrParams(hdrEncoded: bool, colorGamut: nat, nitsForPaperWhite: real, maxDisplayNits: real)

  const InactiveHdrParams := HdrParams(false, SRGB, DefaultNits, DefaultNits)

  /** The engine's per-display HDR output settings. */
  datatype HdrOutputSettings = HdrOutputSettings(active: bool, displayColorGamut: nat, paperWhiteNits: real, maxFullFrameToneMapLuminance: real)

  /** `HDRParams(HDROutputSettings)`: the display's values when HDR output is active. */
  function HdrParamsOf(settings: Option<HdrOutputSettings>): (h: HdrParams)
    ensures !h.hdrEncoded ==> h == InactiveHdrParams
    ensures h.hdrEncoded <==> settings.Some? && settings.value.active
    ensures h.hdrEncoded ==> h.colorGamut == settings.value.displayColorGamut
  {
    if settings.Some? && settings.value.active then
      var s := settings.value;
      HdrParams(true, s.displayColorGamut, s.paperWhiteNits, s.maxFullFrameToneMapLuminance)
    else InactiveHdrParams
  }

  datatype GraphicsFormat = R8G8B8A8UNorm | B8G8R8A8UNorm | OtherFormat

  /** What a blit needs to know about a texture; `renderTexture` holds its vertical-flip flag when it is one. */
  datatype Texture = Texture(
    id: nat,
    renderTexture: Option<bool>,
    isDataSRGB: bool,
    graphicsFormat: GraphicsFormat,
    isTex2DArray: bool)

  datatype Rect = Rect(x: real, y: real, width: real, height: real)
  datatype Vector4 = Vector4(x: real, y: real, z: real, w: real)

  datatype BlitParams = BlitParams(
    sourceTexture: Option<Texture>,
    sourceTextureArraySlice: int,
    sourceRect: Rect,
    destRect: Rect,
    sourceHdrParams: HdrParams,
    alphaMode: AlphaMode,
    renderPipeline: RenderPipeline)

  const FullRect := Rect(0.0, 0.0, 1.0, 1.0)

  /** `new BlitParams(texture, slice)`: whole rectangles, no HDR, opaque, built-in pipeline. */
  function NewBlitParams(texture: Option<Texture>, slice: int): (p: BlitParams)
    ensures p.sourceTexture == texture && p.sourceTextureArraySlice == slice
    ensures p.sourceRect == FullRect && p.destRect == FullRect
    ensures p.sourceHdrParams == InactiveHdrParams && p.alphaMode == Opaque && p.renderPipeline == Builtin
  {
    BlitParams(texture, slice, FullRect, FullRect, InactiveHdrParams, Opaque, Builtin)
  }

  /** A render target (by id) or a display index; -1 means "no display". */
  datatype TargetParams = TargetParams(renderTarget: Option<nat>, targetDisplay: int, hdrParams: HdrParams)

  /** `new TargetParams(renderTarget)`. */
  function TargetForRenderTarget(renderTarget: Option<nat>): (t: TargetParams)
    ensures t.renderTarget == renderTarget && t.targetDisplay == -1 && t.hdrParams == InactiveHdrParams
  {
    TargetParams(renderTarget, -1, InactiveHdrParams)
  }

  /** `new TargetParams(targetDisplay)`: the display's HDR settings when the index names one. */
  function TargetForDisplay(targetDisplay: int, displays: Option<seq<Option<HdrOutputSettings>>>): (t: TargetParams)
    ensures t.renderTarget.None? && t.targetDisplay == targetDisplay
    ensures displays.Some? && 0 <= targetDisplay < |displays.value| ==> t.hdrParams == HdrParamsOf(displays.value[targetDisplay])
    ensures !(displays.Some? && 0 <= targetDisplay < |displays.value|) ==> t.hdrParams == InactiveHdrParams
  {
    if displays.Some? && 0 <= targetDisplay < |displays.value| then
      TargetParams(None, targetDisplay, HdrParamsOf(displays.value[targetDisplay]))
    else TargetParams(None, targetDisplay, InactiveHdrParams)
  }

  /** Engine state a blit consults. */
  datatype Environment = Environment(linearColorSpace: bool, uvStartsAtTop: bool, shaderFound: bool)

  datatype Blend = Blend(src: BlendMode, dst: BlendMode, alphaSrc: BlendMode, alphaDst: BlendMode)

  /** The blend factors chosen for an alpha mode. */
  function BlendFor(mode: AlphaMode): Blend
  {
    match mode
    case Alpha => Blend(SrcAlpha, OneMinusSrcAlpha, One, OneMinusSrcAlpha)
    case Premultiply => Blend(One, OneMinusSrcAlpha, One, OneMinusSrcAlpha)
    case Opaque => Blend(One, Zero, One, Zero)
  }

  /** The value a blend factor stands for, given the source alpha. */
  function Factor(b: BlendMode, srcAlpha: real): real
  {
    match b
    case Zero => 0.0
    case One => 1.0
    case SrcAlpha => srcAlpha
    case OneMinusSrcAlpha => 1.0 - srcAlpha
  }

  /** One colour channel and the alpha channel after blending `src` over `dst`. */
  function Composite(b: Blend, src: real, srcAlpha: real, dst: real, dstAlpha: real): (real, real)
  {
    (Factor(b.src, srcAlpha) * src + Factor(b.dst, srcAlpha) * dst,
     Factor(b.alphaSrc, srcAlpha) * srcAlpha + Factor(b.alphaDst, srcAlpha) * dstAlpha)
  }

  /**
   * What the blend table means: opaque replaces the target, alpha blends a
   * straight-alpha source over it and premultiply blends a premultiplied one;
   * both blended modes accumulate coverage the same way.
   */
  lemma BlendTableLaw(mode: AlphaMode, src: real, a: real, dst: real, dstA: real)
    ensures mode == Opaque ==> Composite(BlendFor(mode), src, a, dst, dstA) == (src, a)
    ensures mode == Alpha ==> Composite(BlendFor(mode), src, a, dst, dstA) == (a * src + (1.0 - a) * dst, a + (1.0 - a) * dstA)
    ensures mode == Premultiply ==> Composite(BlendFor(mode), src, a, dst, dstA) == (src + (1.0 - a) * dst, a + (1.0 - a) * dstA)
  {
    var b := BlendFor(mode);
    match mode
    case Opaque =>
      assert Factor(b.src, a) == 1.0 && Factor(b.dst, a) == 0.0;
      assert Factor(b.alphaSrc, a) == 1.0 && Factor(b.alphaDst, a) == 0.0;
      var c := Composite(b, src, a, dst, dstA);
      assert c.0 == 1.0 * src + 0.0 * dst;
      assert c.1 == 1.0 * a + 0.0 * dstA;
      assert 1.0 * src + 0.0 * dst == src && 1.0 * a + 0.0 * dstA == a;
      assert c == (src, a);
    case Alpha =>
      assert Factor(b.src, a) == a && Factor(b.dst, a) == 1.0 - a;
      assert Factor(b.alphaSrc, a) == 1.0 && Factor(b.alphaDst, a) == 1.0 - a;
      var c := Composite(b, src, a, dst, dstA);
      assert c.0 == a * src + (1.0 - a) * dst;
      assert c.1 == 1.0 * a + (1.0 - a) * dstA;
      assert 1.0 * a == a;
    case Premultiply =>
      assert Factor(b.src, a) == 1.0 && Factor(b.dst, a) == 1.0 - a;
      assert Factor(b.alphaSrc, a) == 1.0 && Factor(b.alphaDst, a) == 1.0 - a;
      var c := Composite(b, src, a, dst, dstA);
      assert c.0 == 1.0 * src + (1.0 - a) * dst;
      assert c.1 == 1.0 * a + (1.0 - a) * dstA;
      assert 1.0 * src == src && 1.0 * a == a;
  }

  /** Everything the material property block holds when the quad is drawn. */
  datatype DrawProperties = DrawProperties(
    mainTex: nat,
    arraySlice: int,
    sourceRect: Vector4,
    destRect: Vector4,
    sourceColorGamut: int,
    sourceNitsForPaperWhite: real,
    sourceMaxDisplayNits: real,
    colorGamut: int,
    nitsForPaperWhite: real,
    maxDisplayNits: real,
    blend: Blend)

  datatype Command =
    | SetRenderTarget(target: nat)
    | ResetRenderTarget
    | EnableNonArrayKeyword
    | DisableNonArrayKeyword
    | DrawQuad(props: DrawProperties)

  /** The texture is a render texture that may not flip vertically, on a device whose UV origin is at the top. */
  predicate ShouldYFlip(t: Texture, env: Environment)
  {
    t.renderTexture.Some? && !t.renderTexture.value && env.uvStartsAtTop
  }

  /** A gamut code, or -1 when the parameters are not HDR-encoded. */
  function GamutCode(h: HdrParams): (c: int)
    ensures c == -1 <==> !h.hdrEncoded
    ensures h.hdrEncoded ==> c == h.colorGamut
  {
    if h.hdrEncoded then h.colorGamut else -1
  }

  /** An 8-bit unsigned-normalised source not flagged as sRGB data, which the universal pipeline must linearise. */
  predicate SrgbRead(p: BlitParams, t: Texture)
  {
    !t.isDataSRGB && (t.graphicsFormat == R8G8B8A8UNorm || t.graphicsFormat == B8G8R8A8UNorm)
  }

  function SourceGamut(p: BlitParams, t: Texture, env: Environment): int
  {
    var code := GamutCode(p.sourceHdrParams);
    if env.linearColorSpace && p.renderPipeline == Universal && SrgbRead(p, t) && code < 0 then SRGB else code
  }

  function SourceRectVector(p: BlitParams, t: Texture, env: Environment): Vector4
  {
    var r := p.sourceRect;
    if ShouldYFlip(t, env) then Vector4(r.width, -r.height, r.x, r.y + r.height)
    else Vector4(r.width, r.height, r.x, r.y)
  }

  function Properties(p: BlitParams, t: Texture, target: TargetParams, env: Environment): DrawProperties
  {
    var d := p.destRect;
    DrawProperties(
      t.id, p.sourceTextureArraySlice,
      SourceRectVector(p, t, env), Vector4(d.width, d.height, d.x, d.y),
      SourceGamut(p, t, env), p.sourceHdrParams.nitsForPaperWhite, p.sourceHdrParams.maxDisplayNits,
      GamutCode(target.hdrParams), target.hdrParams.nitsForPaperWhite, target.hdrParams.maxDisplayNits,
      BlendFor(p.alphaMode))
  }

  /** What the recorded properties say about the blit. */
  lemma PropertiesLaw(p: BlitParams, t: Texture, target: TargetParams, env: Environment)
    ensures var props := Properties(p, t, target, env);
      (props.colorGamut == -1 <==> !target.hdrParams.hdrEncoded)
      && (p.sourceHdrParams.hdrEncoded ==> props.sourceColorGamut == p.sourceHdrParams.colorGamut)
      && (!p.sourceHdrParams.hdrEncoded ==> props.sourceColorGamut == (if env.linearColorSpace && p.renderPipeline == Universal && SrgbRead(p, t) then SRGB else -1))
      && (ShouldYFlip(t, env) ==> props.sourceRect.y == -p.sourceRect.height && props.sourceRect.w == p.sourceRect.y + p.sourceRect.height)
      && (!ShouldYFlip(t, env) ==> props.sourceRect == Vector4(p.sourceRect.width, p.sourceRect.height, p.sourceRect.x, p.sourceRect.y))
      && props.blend == BlendFor(p.alphaMode)
  {
  }

  /** The two early returns before the material is looked up. */
  predicate Drawable(p: BlitParams, target: TargetParams)
  {
    p.sourceTexture.Some? && !(target.renderTarget.None? && target.targetDisplay < 0)
  }

  /** The commands `BlitInternal` records, given whether the blit material exists. */
  function BlitCommands(p: BlitParams, target: TargetParams, env: Environment, material: bool): seq<Command>
  {
    if !Drawable(p, target) || !material then []
    else
      var t := p.sourceTexture.value;
      var bind := if target.renderTarget.Some? then [SetRenderTarget(target.renderTarget.value)] else [];
      var unbind := if target.renderTarget.Some? then [ResetRenderTarget] else [];
      var enable := if !t.isTex2DArray then [EnableNonArrayKeyword] else [];
      var disable := if !t.isTex2DArray then [DisableNonArrayKeyword] else [];
      bind + enable + [DrawQuad(Properties(p, t, target, env))] + disable + unbind
  }

  /**
   * A blit records nothing exactly when a guard stops it; otherwise it draws
   * one quad, and brackets it by binding and unbinding the render target
   * (when there is one) and by the non-array keyword (for a non-array source).
   */
  lemma BlitCommandsLaw(p: BlitParams, target: TargetParams, env: Environment, material: bool)
    ensures BlitCommands(p, target, env, material) == [] <==> !Drawable(p, target) || !material
    ensures Drawable(p, target) && material ==>
      var cmds := BlitCommands(p, target, env, material);
      var t := p.sourceTexture.value;
      (forall i :: 0 <= i < |cmds| && cmds[i].DrawQuad? ==> cmds[i].props == Properties(p, t, target, env))
      && |cmds| == 1 + (if target.renderTarget.Some? then 2 else 0) + (if t.isTex2DArray then 0 else 2)
      && (target.renderTarget.Some? ==> cmds[0] == SetRenderTarget(target.renderTarget.value) && cmds[|cmds| - 1] == ResetRenderTarget)
      && (target.renderTarget.None? ==> forall i :: 0 <= i < |cmds| ==> !cmds[i].SetRenderTarget? && !cmds[i].ResetRenderTarget?)
  {
  }

  /** A blit to a display index below 0 records nothing, whatever the source; a render target is never skipped for its display index. */
  lemma TargetGuardLaw(p: BlitParams, display: int, displays: Option<seq<Option<HdrOutputSettings>>>, renderTarget: nat, env: Environment)
    ensures display < 0 ==> BlitCommands(p, TargetForDisplay(display, displays), env, true) == []
    ensures p.sourceTexture.Some? ==> BlitCommands(p, TargetForRenderTarget(Some(renderTarget)), env, true) != []
  {
  }

  // ----------------------------------------------------------------------
  // Eye index of a mirror-view blit parameter

  /** The engine's mirror-view blit modes; the numbers of the other modes are kept as they are. */
  datatype BlitMode = LeftEye | RightEye | OtherMode(code: int)

  function GetStereoEyeIndex(blitMode: BlitMode, blitParamIndex: int): int
  {
    if blitMode == LeftEye then 0
    else if blitMode == RightEye then 1
    else blitParamIndex
  }

  /** Single-eye modes read the same eye for every blit parameter; the others read the eye of each parameter's own index. */
  lemma EyeIndexLaw(blitMode: BlitMode, i: int, j: int)
    ensures blitMode.LeftEye? || blitMode.RightEye? ==> GetStereoEyeIndex(blitMode, i) == GetStereoEyeIndex(blitMode, j) && 0 <= GetStereoEyeIndex(blitMode, i) <= 1
    ensures blitMode.OtherMode? ==> (GetStereoEyeIndex(blitMode, i) == GetStereoEyeIndex(blitMode, j) <==> i == j)
  {
  }

  // ----------------------------------------------------------------------
  // The shared command buffer and the batch depth

  class CommandBuffer {
    var commands: seq<Command>

    constructor ()
      ensures commands == []
    {
      commands := [];
    }

    method Clear()
      modifies this
      ensures commands == []
    {
      commands := [];
    }

    method Append(more: seq<Command>)
      modifies this
      ensures commands == old(commands) + more
    {
      commands := commands + more;
    }
  }

  /** The static state of the filters: shared buffer, batch depth, cached material, and the buffers handed to the device. */
  class Filters {
    var commandBuffer: CommandBuffer?
    var batchingDepth: nat
    var material: bool
    var executed: seq<seq<Command>>

    /** Inside a batch the shared buffer exists. */
    ghost predicate Valid()
      reads this
    {
      batchingDepth > 0 ==> commandBuffer != null
    }

    constructor ()
      ensures Valid() && commandBuffer == null && batchingDepth == 0 && !material && executed == []
    {
      commandBuffer := null;
      batchingDepth := 0;
      material := false;
      executed := [];
    }

    /** Enter a batch: the outermost begin starts from an empty buffer. */
    method BeginBatch()
      requires Valid()
      modifies this`commandBuffer, this`batchingDepth, commandBuffer
      ensures Valid() && batchingDepth == old(batchingDepth) + 1 && commandBuffer != null
      ensures old(batchingDepth) == 0 ==> commandBuffer.commands == [] && (old(commandBuffer) == null ==> fresh(commandBuffer))
      ensures old(commandBuffer) != null ==> commandBuffer == old(commandBuffer)
      ensures old(batchingDepth) > 0 ==> commandBuffer.commands == old(commandBuffer.commands)
    {
      if batchingDepth == 0 {
        if commandBuffer == null {
          commandBuffer := new CommandBuffer();
        } else {
          commandBuffer.Clear();
        }
      }
      batchingDepth := batchingDepth + 1;
    }

    /** Leave a batch: the outermost end hands a non-empty buffer to the device. */
    method EndBatch()
      requires Valid()
      modifies this`batchingDepth, this`executed
      ensures Valid()
      ensures old(batchingDepth) == 0 ==> batchingDepth == 0 && executed == old(executed)
      ensures old(batchingDepth) > 0 ==> batchingDepth == old(batchingDepth) - 1
      ensures old(batchingDepth) > 0 ==>
        executed == old(executed) + (if batchingDepth == 0 && commandBuffer != null && |commandBuffer.commands| > 0 then [commandBuffer.commands] else [])
    {
      if batchingDepth > 0 {
        batchingDepth := batchingDepth - 1;
        if batchingDepth == 0 {
          if commandBuffer != null && |commandBuffer.commands| > 0 {
            executed := executed + [commandBuffer.commands];
          }
        }
      }
    }

    /** The cached blit material, created on first use when its shader exists. */
    method InitializeMaterial(env: Environment) returns (found: bool)
      modifies this`material
      ensures material == (old(material) || env.shaderFound) && found == material
    {
      if material {
        return true;
      }
      if !env.shaderFound {
        return false;
      }
      material := true;
      return true;
    }

    /** `BlitInternal`: record one blit into `cmd`, unless a guard stops it. */
    method BlitInternal(cmd: CommandBuffer, p: BlitParams, target: TargetParams, env: Environment)
      modifies this`material, cmd
      ensures material == (old(material) || (Drawable(p, target) && env.shaderFound))
      ensures cmd.commands == old(cmd.commands) + BlitCommands(p, target, env, material)
    {
      if p.sourceTexture.None? {
        return;
      }
      if target.renderTarget.None? && target.targetDisplay < 0 {
        return;
      }
      var mat := InitializeMaterial(env);
      if !mat {
        return;
      }
      cmd.Append(BlitCommands(p, target, env, true));
    }

    /** `Blit(cmd, blitParam, targetDisplay)`: a blit to a display. */
    method BlitToDisplay(cmd: CommandBuffer, p: BlitParams, targetDisplay: int, displays: Option<seq<Option<HdrOutputSettings>>>, env: Environment)
      modifies this`material, cmd
      ensures var target := TargetForDisplay(targetDisplay, displays);
        material == (old(material) || (Drawable(p, target) && env.shaderFound))
        && cmd.commands == old(cmd.commands) + BlitCommands(p, target, env, material)
    {
      var target := TargetForDisplay(targetDisplay, displays);
      BlitInternal(cmd, p, target, env);
    }

    /**
     * `Blit(blitParam, targetParams)`: one blit in a batch of its own.  The
     * depth is what it was; outside any batch the blit's commands reach the
     * device at once (when there are any), inside one they wait in the buffer.
     */
    method Blit(p: BlitParams, target: TargetParams, env: Environment)
      requires Valid()
      modifies this, commandBuffer
      ensures Valid() && batchingDepth == old(batchingDepth) && commandBuffer != null
      ensures material == (old(material) || (Drawable(p, target) && env.shaderFound))
      ensures old(batchingDepth) == 0 ==>
        var cmds := BlitCommands(p, target, env, material);
        commandBuffer.commands == cmds && executed == old(executed) + (if |cmds| > 0 then [cmds] else [])
      ensures old(batchingDepth) > 0 ==>
        commandBuffer == old(commandBuffer) && executed == old(executed)
        && commandBuffer.commands == old(commandBuffer.commands) + BlitCommands(p, target, env, material)
    {
      BeginBatch();
      BlitInternal(commandBuffer, p, target, env);
      EndBatch();
    }
  }
}
