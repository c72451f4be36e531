/**
 * `EmulationLayerScriptableRendererManager`: the two lists of emulated layer
 * data that the scriptable render pipeline passes draw, underlays before
 * the scene and overlays after it.  The emulated data of a layer is named
 * by its layer id.
 */
module EmulationRenderer {
  class ScriptableRendererManager {
    var underlay: seq<int>
    var overlay: seq<int>

    constructor ()
      ensures underlay == [] && overlay == []
    {
      underlay := [];
      overlay := [];
    }

    /** `GetEmulatedLayerDataList`: the overlay list when asked for overlays, the underlay list otherwise. */
    function LayerDataList(isOverlay: bool): (r: seq<int>)
      reads this
      ensures isOverlay ==> r == overlay
      ensures !isOverlay ==> r == underlay
    {
      if isOverlay then overlay else underlay
    }

    /** `Add`: an order of at least 0 appends to the overlays only, a negative order to the underlays only. */
    method Add(layerData: int, order: int)
      modifies this
      ensures order >= 0 ==> overlay == old(overlay) + [layerData] && underlay == old(underlay)
      ensures order < 0 ==> underlay == old(underlay) + [layerData] && overlay == old(overlay)
    {
      if order >= 0 {
        overlay := overlay + [layerData];
      } else {
        underlay := underlay + [layerData];
      }
    }

    /** `Clear`: both lists are emptied. */
    method Clear()
      modifies this
      ensures underlay == [] && overlay == []
    {
      overlay := [];
      underlay := [];
    }
  }
}
