/**
 * `EmulatedLayerData`: the per-layer drawing state of the emulation.  Each
 * emulated layer keeps two cached command buffers (game view and scene
 * view) that are rebuilt only when missing or invalidated, an initialized
 * flag, and a material whose blend factors follow the layer's blend type.
 */
module EmulatedLayerData {
  import opened Wrappers
  import ImageFilters
  import LayerExtensions

  // ---------------------------------------------------------------------
  // The blend table of `UpdateMaterial`
  // ---------------------------------------------------------------------

  /** The four blend factors written for a layer's blend type. */
  function BlendOf(t: LayerExtensions.BlendType): ImageFilters.Blend
  {
    match t
    case Alpha => ImageFilters.Blend(ImageFilters.SrcAlpha, ImageFilters.OneMinusSrcAlpha, ImageFilters.One, ImageFilters.OneMinusSrcAlpha)
    case Premultiply => ImageFilters.Blend(ImageFilters.One, ImageFilters.OneMinusSrcAlpha, ImageFilters.One, ImageFilters.OneMinusSrcAlpha)
    case Additive => ImageFilters.Blend(ImageFilters.One, ImageFilters.One, ImageFilters.One, ImageFilters.One)
  }

  /**
   * What the table means: alpha and premultiplied layers blend exactly as
   * the image filters' alpha and premultiply modes do, and an additive layer
   * adds its colour and its alpha to the target's.
   */
  lemma BlendOfLaw(t: LayerExtensions.BlendType, src: real, a: real, dst: real, dstA: real)
    ensures t == LayerExtensions.Alpha ==> BlendOf(t) == ImageFilters.BlendFor(ImageFilters.Alpha)
    ensures t == LayerExtensions.Premultiply ==> BlendOf(t) == ImageFilters.BlendFor(ImageFilters.Premultiply)
    ensures t == LayerExtensions.Alpha ==>
      ImageFilters.Composite(BlendOf(t), src, a, dst, dstA) == (a * src + (1.0 - a) * dst, a + (1.0 - a) * dstA)
    ensures t == LayerExtensions.Premultiply ==>
      ImageFilters.Composite(BlendOf(t), src, a, dst, dstA) == (src + (1.0 - a) * dst, a + (1.0 - a) * dstA)
    ensures t == LayerExtensions.Additive ==>
      ImageFilters.Composite(BlendOf(t), src, a, dst, dstA) == (src + dst, a + dstA)
  {
    match t
    case Alpha =>
      ImageFilters.BlendTableLaw(ImageFilters.Alpha, src, a, dst, dstA);
    case Premultiply =>
      ImageFilters.BlendTableLaw(ImageFilters.Premultiply, src, a, dst, dstA);
    case Additive =>
      var b := BlendOf(t);
      assert ImageFilters.Factor(b.src, a) == 1.0 && ImageFilters.Factor(b.dst, a) == 1.0;
      assert ImageFilters.Factor(b.alphaSrc, a) == 1.0 && ImageFilters.Factor(b.alphaDst, a) == 1.0;
      var c := ImageFilters.Composite(b, src, a, dst, dstA);
      assert c.0 == 1.0 * src + 1.0 * dst && c.1 == 1.0 * a + 1.0 * dstA;
  }

  // ---------------------------------------------------------------------
  // `CommandBufferTemp`
  // ---------------------------------------------------------------------

  /**
   * A cached command buffer and whether it is out of date.  The struct is
   * passed by reference to `UpdateCommandBufferInternal`, so it is an
   * object owned by its emulated layer data.
   */
  class CommandBufferTemp {
    var commandBuffer: ImageFilters.CommandBuffer?
    var isInvalidated: bool

    constructor ()
      ensures commandBuffer == null && !isInvalidated
    {
      commandBuffer := null;
      isInvalidated := false;
    }

    /** `IsRequiredToCreate`: there is no buffer, or it is out of date. */
    predicate IsRequiredToCreate()
      reads this
    {
      commandBuffer == null || isInvalidated
    }

    /**
     * `Create`: an existing buffer is cleared and reused, a missing one is
     * allocated; either way it is empty and up to date afterwards.
     */
    method Create() returns (cb: ImageFilters.CommandBuffer)
      modifies this, commandBuffer
      ensures cb == commandBuffer && cb.commands == [] && !isInvalidated && !IsRequiredToCreate()
      ensures old(commandBuffer) != null ==> cb == old(commandBuffer)
      ensures old(commandBuffer) == null ==> fresh(cb)
    {
      if commandBuffer == null {
        commandBuffer := new ImageFilters.CommandBuffer();
      } else {
        commandBuffer.Clear();
      }
      isInvalidated := false;
      cb := commandBuffer;
    }

    /** `Release`: the buffer is dropped and the flag cleared, so a new one is required. */
    method Release()
      modifies this
      ensures commandBuffer == null && !isInvalidated && IsRequiredToCreate()
    {
      commandBuffer := null;
      isInvalidated := false;
    }
  }

  // ---------------------------------------------------------------------
  // The emulated layer data
  // ---------------------------------------------------------------------

  /** The material: the blend factors last written to it (none before `UpdateMaterial`). */
  class Material {
    var blend: Option<ImageFilters.Blend>

    constructor ()
      ensures blend == None
    {
      blend := None;
    }
  }

  /** The layer an emulated layer data belongs to: its blend type, when it has layer data. */
  datatype EmulatedLayer = EmulatedLayer(id: int, layerData: Option<LayerExtensions.BlendType>)

  class EmulatedLayerData {
    /** The type's name, used to name its command buffers. */
    const className: string
    /** `GetShaderLayerTypeKeyword` of the concrete type: None means the layer is not drawn. */
    const shaderLayerTypeKeyword: Option<string>
    const commandBufferTemp: CommandBufferTemp
    const commandBufferTempSceneView: CommandBufferTemp

    var emulatedCompositionLayer: Option<EmulatedLayer>
    var typeName: string
    var isInitialized: bool
    var emulationMaterial: Material?

    ghost predicate Valid()
      reads this
    {
      commandBufferTemp != commandBufferTempSceneView
    }

    constructor (className: string, keyword: Option<string>)
      ensures Valid() && this.className == className && shaderLayerTypeKeyword == keyword
      ensures emulatedCompositionLayer == None && typeName == "" && !isInitialized && emulationMaterial == null
      ensures fresh(commandBufferTemp) && fresh(commandBufferTempSceneView)
      ensures commandBufferTemp.IsRequiredToCreate() && commandBufferTempSceneView.IsRequiredToCreate()
    {
      this.className := className;
      shaderLayerTypeKeyword := keyword;
      commandBufferTemp := new CommandBufferTemp();
      commandBufferTempSceneView := new CommandBufferTemp();
      emulatedCompositionLayer := None;
      typeName := "";
      isInitialized := false;
      emulationMaterial := null;
    }

    /**
     * `InitializeLayerData`: nothing without a layer that has layer data;
     * otherwise the layer is kept, the data is marked initialized, and a
     * material is made when the type has a keyword and the shader is found.
     */
    method InitializeLayerData(layer: Option<EmulatedLayer>, shaderFound: bool)
      modifies this
      ensures layer.None? || layer.value.layerData.None? ==>
        emulatedCompositionLayer == old(emulatedCompositionLayer) && typeName == old(typeName)
        && isInitialized == old(isInitialized) && emulationMaterial == old(emulationMaterial)
      ensures layer.Some? && layer.value.layerData.Some? ==>
        && emulatedCompositionLayer == layer && typeName == className && isInitialized
        && (shaderLayerTypeKeyword.Some? && shaderFound ==> emulationMaterial != null && fresh(emulationMaterial))
        && (shaderLayerTypeKeyword.None? || !shaderFound ==> emulationMaterial == old(emulationMaterial))
    {
      if layer.None? || layer.value.layerData.None? {
        return;
      }
      emulatedCompositionLayer := layer;
      typeName := className;
      isInitialized := true;
      if shaderLayerTypeKeyword.Some? && shaderFound {
        emulationMaterial := new Material();
      }
    }

    /**
     * `UpdateEmulatedLayerData`: both cached buffers become out of date,
     * then the material's blend factors follow the blend type of the layer
     * data the component holds now (`current`, None when the component is
     * gone or holds no layer data).
     */
    method UpdateEmulatedLayerData(current: Option<LayerExtensions.BlendType>)
      requires Valid()
      modifies commandBufferTemp, commandBufferTempSceneView, emulationMaterial
      ensures commandBufferTemp.isInvalidated && commandBufferTempSceneView.isInvalidated
      ensures commandBufferTemp.IsRequiredToCreate() && commandBufferTempSceneView.IsRequiredToCreate()
      ensures commandBufferTemp.commandBuffer == old(commandBufferTemp.commandBuffer)
      ensures commandBufferTempSceneView.commandBuffer == old(commandBufferTempSceneView.commandBuffer)
      ensures emulationMaterial != null && emulatedCompositionLayer.Some? && current.Some? ==>
        emulationMaterial.blend == Some(BlendOf(current.value))
      ensures emulationMaterial != null && (emulatedCompositionLayer.None? || current.None?) ==>
        emulationMaterial.blend == old(emulationMaterial.blend)
    {
      commandBufferTemp.isInvalidated := true;
      commandBufferTempSceneView.isInvalidated := true;
      UpdateMaterial(current);
    }

    /**
     * The blend part of `UpdateMaterial`: the layer data is read through the
     * emulated layer from the component, so it is the current one.
     */
    method UpdateMaterial(current: Option<LayerExtensions.BlendType>)
      modifies emulationMaterial
      ensures emulationMaterial != null && emulatedCompositionLayer.Some? && current.Some? ==>
        emulationMaterial.blend == Some(BlendOf(current.value))
      ensures emulationMaterial != null && (emulatedCompositionLayer.None? || current.None?) ==>
        emulationMaterial.blend == old(emulationMaterial.blend)
    {
      var material := emulationMaterial;
      if material == null {
        return;
      }
      var layerData := if emulatedCompositionLayer.Some? then current else None;
      if layerData.Some? {
        material.blend := Some(BlendOf(layerData.value));
      }
    }

    /**
     * `UpdateCommandBufferInternal`: when the cached buffer is missing or out
     * of date it is (re)made and filled with the layer's commands; otherwise
     * the cached buffer is returned as it is.
     */
    method UpdateCommandBufferInternal(temp: CommandBufferTemp, commands: seq<ImageFilters.Command>)
      returns (cb: ImageFilters.CommandBuffer?)
      modifies temp, temp.commandBuffer
      ensures cb == temp.commandBuffer
      ensures old(temp.IsRequiredToCreate()) ==> cb != null && cb.commands == commands && !temp.IsRequiredToCreate()
      ensures old(temp.IsRequiredToCreate()) && old(temp.commandBuffer) != null ==> cb == old(temp.commandBuffer)
      ensures !old(temp.IsRequiredToCreate()) ==>
        (cb == old(temp.commandBuffer) && cb.commands == old(cb.commands) && !temp.isInvalidated)
    {
      if temp.IsRequiredToCreate() {
        var buffer := temp.Create();
        buffer.Append(commands);
      }
      cb := temp.commandBuffer;
    }

    /** `UpdateCommandBuffer`: the scene view's buffer for a scene-view camera in the editor, the game view's otherwise. */
    method UpdateCommandBuffer(isSceneView: bool, inEditor: bool, commands: seq<ImageFilters.Command>)
      returns (cb: ImageFilters.CommandBuffer?)
      requires Valid()
      modifies commandBufferTemp, commandBufferTemp.commandBuffer
      modifies commandBufferTempSceneView, commandBufferTempSceneView.commandBuffer
      ensures isSceneView && inEditor ==> cb == commandBufferTempSceneView.commandBuffer
      ensures !(isSceneView && inEditor) ==> cb == commandBufferTemp.commandBuffer
      ensures cb != null
    {
      if isSceneView && inEditor {
        cb := UpdateCommandBufferInternal(commandBufferTempSceneView, commands);
      } else {
        cb := UpdateCommandBufferInternal(commandBufferTemp, commands);
      }
    }

    /**
     * `Dispose`: both cached buffers are released, the material is dropped,
     * and the data forgets its layer and is no longer initialized.
     */
    method Dispose()
      requires Valid()
      modifies this, commandBufferTemp, commandBufferTempSceneView
      ensures commandBufferTemp.commandBuffer == null && !commandBufferTemp.isInvalidated
      ensures commandBufferTempSceneView.commandBuffer == null && !commandBufferTempSceneView.isInvalidated
      ensures emulationMaterial == null && emulatedCompositionLayer == None && typeName == "" && !isInitialized
    {
      commandBufferTemp.Release();
      commandBufferTempSceneView.Release();
      emulationMaterial := null;
      emulatedCompositionLayer := None;
      typeName := "";
      isInitialized := false;
    }
  }
}
