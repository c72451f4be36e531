/**
 * `UserLayerCache`: which of the 32 user layers the runtime may hand out to
 * a canvas.  A layer can be taken when its name is empty and the cache has
 * not already handed it out.  The names come from the engine
 * (`LayerMask.LayerToName`) and are passed in as a sequence of 32 strings.
 */
module UserLayerCache {
  import LayerSlots

  const LayerCount: nat := 32

  /** The first layer `OccupyBlankLayer` looks at. */
  const FirstUserLayer: nat := 8

  /** A game object; only its layer is modelled. */
  class GameObject {
    var layer: int

    constructor (layer: int)
      ensures this.layer == layer
    {
      this.layer := layer;
    }
  }

  /** Whether layer `i` can be handed out: no name and not taken yet. */
  predicate Free(blank: seq<bool>, names: seq<string>, i: int)
    requires |names| == |blank|
  {
    0 <= i < |blank| && names[i] == "" && blank[i]
  }

  /** The first free layer at or after `from`, or -1. */
  function FirstBlank(blank: seq<bool>, names: seq<string>, from: nat): (r: int)
    requires |names| == |blank|
    ensures r == -1 || (from <= r && Free(blank, names, r))
    ensures r != -1 ==> forall i :: from <= i < r ==> !Free(blank, names, i)
    ensures r == -1 <==> forall i :: from <= i < |blank| ==> !Free(blank, names, i)
    decreases |blank| - from
  {
    if from >= |blank| then -1
    else if Free(blank, names, from) then from
    else FirstBlank(blank, names, from + 1)
  }

  /**
   * Taking a layer makes the next occupation answer a different one, and
   * handing it back makes it the answer again.
   */
  lemma OccupyReleaseLaw(blank: seq<bool>, names: seq<string>)
    requires |names| == |blank|
    ensures var r := FirstBlank(blank, names, FirstUserLayer);
      r != -1 ==>
        && FirstBlank(blank[r := false], names, FirstUserLayer) != r
        && FirstBlank(blank[r := false][r := true], names, FirstUserLayer) == r
  {
    var r := FirstBlank(blank, names, FirstUserLayer);
    if r != -1 {
      assert blank[r := false][r := true] == blank;
    }
  }

  /**
   * Every later occupation answers a layer above an earlier one as long as
   * nothing is handed back: the layers below the answer stay taken.
   */
  lemma OccupyIncreasingLaw(blank: seq<bool>, names: seq<string>)
    requires |names| == |blank|
    ensures var r := FirstBlank(blank, names, FirstUserLayer);
      r != -1 ==>
        var r2 := FirstBlank(blank[r := false], names, FirstUserLayer);
        r2 == -1 || r2 > r
  {
    var r := FirstBlank(blank, names, FirstUserLayer);
    if r != -1 {
      var r2 := FirstBlank(blank[r := false], names, FirstUserLayer);
      if r2 != -1 && r2 < r {
        assert Free(blank, names, r2);
      }
    }
  }

  /**
   * `ChangeLayerOfAllChildren`: the object and every object below it in its
   * transform hierarchy (`descendants`, as the engine enumerates them) move
   * to the layer.
   */
  method ChangeLayerOfAllChildren(gameObject: GameObject, descendants: seq<GameObject>, layerBit: int)
    modifies gameObject, descendants
    ensures gameObject.layer == layerBit
    ensures forall o :: o in descendants ==> o.layer == layerBit
  {
    gameObject.layer := layerBit;
    for k := 0 to |descendants|
      invariant gameObject.layer == layerBit
      invariant forall o :: o in descendants[..k] ==> o.layer == layerBit
    {
      descendants[k].layer := layerBit;
      assert descendants[..k + 1] == descendants[..k] + [descendants[k]];
    }
    assert descendants[..|descendants|] == descendants;
  }

  class UserLayerCache {
    var blankLayers: array<bool>

    /** The initial flags mark exactly the layers with an empty name. */
    constructor (names: seq<string>)
      requires |names| == LayerCount
      ensures fresh(blankLayers) && blankLayers.Length == LayerCount
      ensures forall i :: 0 <= i < LayerCount ==> (blankLayers[i] <==> names[i] == "")
    {
      var flags := new bool[LayerCount];
      var i := 0;
      while i < LayerCount
        invariant 0 <= i <= LayerCount
        invariant forall j :: 0 <= j < i ==> (flags[j] <==> names[j] == "")
      {
        flags[i] := names[i] == "";
        i := i + 1;
      }
      blankLayers := flags;
    }

    /**
     * `OccupyBlankLayer`: the first free layer from 8 on is marked taken, the
     * object and all its descendants move to it and, when asked, every
     * camera stops drawing it; with no free layer the answer is -1 and
     * nothing changes.
     */
    method OccupyBlankLayer(gameObject: GameObject, descendants: seq<GameObject>, names: seq<string>,
                            removeFromAllCameras: bool, cameras: seq<LayerSlots.Camera>)
      returns (layerBit: int)
      requires |names| == blankLayers.Length
      modifies blankLayers, gameObject, descendants, cameras
      ensures layerBit == FirstBlank(old(blankLayers[..]), names, FirstUserLayer)
      ensures blankLayers[..] == if layerBit == -1 then old(blankLayers[..]) else old(blankLayers[..])[layerBit := false]
      ensures gameObject.layer == if layerBit == -1 then old(gameObject.layer) else layerBit
      ensures forall o :: o in descendants ==> o.layer == if layerBit == -1 then old(o.layer) else layerBit
      ensures forall c :: c in cameras ==>
        c.cullingMask == if layerBit != -1 && removeFromAllCameras then old(c.cullingMask) - {layerBit} else old(c.cullingMask)
    {
      layerBit := -1;
      var i := FirstUserLayer;
      while i < blankLayers.Length
        invariant FirstUserLayer <= i && (i <= blankLayers.Length || i == FirstUserLayer)
        invariant layerBit == -1 && blankLayers[..] == old(blankLayers[..])
        invariant forall j :: FirstUserLayer <= j < i ==> !Free(blankLayers[..], names, j)
      {
        if names[i] == "" && blankLayers[i] {
          assert Free(old(blankLayers[..]), names, i);
          layerBit := i;
          blankLayers[i] := false;
          break;
        }
        i := i + 1;
      }
      if layerBit == -1 {
        return;
      }
      ghost var taken := blankLayers[..];
      ChangeLayerOfAllChildren(gameObject, descendants, layerBit);
      if removeFromAllCameras {
        var k := 0;
        while k < |cameras|
          invariant 0 <= k <= |cameras|
          invariant blankLayers[..] == taken && gameObject.layer == layerBit
          invariant forall o :: o in descendants ==> o.layer == layerBit
          invariant forall c :: c in cameras ==>
            c.cullingMask == if c in cameras[..k] then old(c.cullingMask) - {layerBit} else old(c.cullingMask)
        {
          cameras[k].cullingMask := cameras[k].cullingMask - {layerBit};
          k := k + 1;
        }
      }
    }

    /**
     * `UnOccupyBlankLayer`: the object's layer is free again and the object
     * and all its descendants move to the Default layer.
     */
    method UnOccupyBlankLayer(gameObject: GameObject?, descendants: seq<GameObject>, defaultLayer: int)
      requires gameObject != null ==> 0 <= gameObject.layer < blankLayers.Length
      modifies blankLayers, gameObject, descendants
      ensures gameObject == null ==> blankLayers[..] == old(blankLayers[..])
      ensures gameObject == null ==> forall o :: o in descendants ==> o.layer == old(o.layer)
      ensures gameObject != null ==>
        blankLayers[..] == old(blankLayers[..])[old(gameObject.layer) := true] && gameObject.layer == defaultLayer
      ensures gameObject != null ==> forall o :: o in descendants ==> o.layer == defaultLayer
    {
      if gameObject != null {
        blankLayers[gameObject.layer] := true;
        ChangeLayerOfAllChildren(gameObject, descendants, defaultLayer);
      }
    }
  }
}
