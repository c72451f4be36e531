/**
 * The editor code that writes layer names into the 32 user-layer slots of
 * the TagManager asset: `TagManagerController` (canvas layers) and the
 * projection eye rig window (`ProjectionEyeRigUtil`).  The "layers"
 * property of the asset is an `array<string>`; an empty slot holds "".
 * Slots 0 to 7 are Unity's built-in layers.
 */
module LayerSlots {
  import opened Wrappers
  import opened Text

  /** The first slot new layers may take; the ones below it are built in. */
  const ArrayStartIndex: nat := 8

  /** The first index at or after `from` whose slot holds `name`. */
  function FirstFrom(s: seq<string>, from: nat, name: string): (r: Option<nat>)
    ensures r.Some? ==> from <= r.value < |s| && s[r.value] == name
    ensures r.Some? ==> forall i :: from <= i < r.value ==> s[i] != name
    ensures r.None? ==> forall i :: from <= i < |s| ==> s[i] != name
    decreases |s| - from
  {
    if from >= |s| then None
    else if s[from] == name then Some(from)
    else FirstFrom(s, from + 1, name)
  }

  // ----------------------------------------------------------------------
  // TagManagerController.TryAddLayer

  /**
   * `TryAddLayer` on the slot contents: true without a write when the name
   * already occupies a slot from 8 on; otherwise the name goes into the
   * first empty slot from 8 on, and with none the answer is false.
   */
  function AddLayer(s: seq<string>, name: string): (bool, seq<string>)
  {
    if FirstFrom(s, ArrayStartIndex, name).Some? then (true, s)
    else match FirstFrom(s, ArrayStartIndex, "")
      case None => (false, s)
      case Some(k) => (true, s[k := name])
  }

  /**
   * What `TryAddLayer` promises: it succeeds exactly when the name is
   * already there or a slot from 8 on is free, afterwards the name holds a
   * slot from 8 on, at most one slot (an empty one) changes, and the
   * built-in slots never do.  Adding the same name again changes nothing.
   */
  lemma AddLayerLaw(s: seq<string>, name: string)
    ensures var (added, t) := AddLayer(s, name);
      && |t| == |s|
      && (added <==> exists i :: ArrayStartIndex <= i < |s| && (s[i] == name || s[i] == ""))
      && (added ==> exists i :: ArrayStartIndex <= i < |t| && t[i] == name)
      && (!added ==> t == s)
      && (forall i :: 0 <= i < |s| && i < ArrayStartIndex ==> t[i] == s[i])
      && (forall i :: 0 <= i < |s| && t[i] != s[i] ==> s[i] == "" && t[i] == name)
      && AddLayer(t, name) == (added, t)
  {
    var (added, t) := AddLayer(s, name);
    var found := FirstFrom(s, ArrayStartIndex, name);
    var empty := FirstFrom(s, ArrayStartIndex, "");
    if found.None? && empty.Some? {
      assert t[empty.value] == name;
      assert FirstFrom(t, ArrayStartIndex, name).Some?;
    }
  }

  // ----------------------------------------------------------------------
  // TagManagerController.RemoveLayer

  /**
   * `RemoveLayer` as written: the search loop leaves `layer` on the last
   * slot it looked at, so when no slot matches the LAST slot is cleared.
   * A null name, or an empty array, changes nothing.
   */
  function RemoveLayerAsWritten(s: seq<string>, name: Option<string>): seq<string>
  {
    if name.None? || |s| == 0 then s
    else match FirstFrom(s, 0, name.value)
      case Some(k) => s[k := ""]
      case None => s[|s| - 1 := ""]
  }

  /** With no slot holding the name, the last slot loses whatever layer it held. */
  lemma RemoveLayerClearsUnrelatedSlot(s: seq<string>, name: string)
    requires |s| > 0 && s[|s| - 1] != "" && forall i :: 0 <= i < |s| ==> s[i] != name
    ensures RemoveLayerAsWritten(s, Some(name)) != s
    ensures RemoveLayerAsWritten(s, Some(name))[|s| - 1] == ""
  {
  }

  /** A concrete case: removing a name that is not there deletes the "UI" layer in the last slot. */
  lemma RemoveLayerCounterexample()
    ensures RemoveLayerAsWritten(["Default", "Canvas", "UI"], Some("Missing")) == ["Default", "Canvas", ""]
  {
    RemoveLayerClearsUnrelatedSlot(["Default", "Canvas", "UI"], "Missing");
  }

  /** `RemoveLayer` as intended: clear the first slot holding the name, if any. */
  function RemoveLayer(s: seq<string>, name: Option<string>): seq<string>
  {
    if name.None? then s
    else match FirstFrom(s, 0, name.value)
      case Some(k) => s[k := ""]
      case None => s
  }

  /**
   * The intended removal changes nothing unless the name is present, then
   * empties exactly its first slot; it agrees with the code as written
   * whenever the name is present.
   */
  lemma RemoveLayerLaw(s: seq<string>, name: Option<string>)
    ensures var t := RemoveLayer(s, name);
      && |t| == |s|
      && (name.None? || (forall i :: 0 <= i < |s| ==> s[i] != name.value) ==> t == s)
      && (name.Some? && (exists i :: 0 <= i < |s| && s[i] == name.value) ==>
            exists k :: 0 <= k < |s| && s[k] == name.value && t == s[k := ""]
              && (forall i :: 0 <= i < k ==> s[i] != name.value))
      && (name.Some? && (exists i :: 0 <= i < |s| && s[i] == name.value) ==> t == RemoveLayerAsWritten(s, name))
  {
    if name.Some? && exists i :: 0 <= i < |s| && s[i] == name.value {
      var k := FirstFrom(s, 0, name.value).value;
      assert s[k] == name.value && RemoveLayer(s, name) == s[k := ""];
    }
  }

  // ----------------------------------------------------------------------
  // TagManagerController.RemoveAllLayersContaining

  /** `RemoveAllLayersContaining`: every slot from 8 on whose name contains `part` is emptied. */
  function ClearContaining(s: seq<string>, part: string): (t: seq<string>)
    ensures |t| == |s|
  {
    seq(|s|, i requires 0 <= i < |s| => if i >= ArrayStartIndex && Contains(s[i], part) then "" else s[i])
  }

  /**
   * The built-in slots are kept, every slot from 8 on that is left holds a
   * name without `part` or nothing, and clearing a second time changes
   * nothing more.
   */
  lemma ClearContainingLaw(s: seq<string>, part: string)
    ensures var t := ClearContaining(s, part);
      && (forall i :: 0 <= i < |s| && i < ArrayStartIndex ==> t[i] == s[i])
      && (forall i :: ArrayStartIndex <= i < |s| ==> t[i] == "" || !Contains(t[i], part))
      && (forall i :: ArrayStartIndex <= i < |s| && !Contains(s[i], part) ==> t[i] == s[i])
      && ClearContaining(t, part) == t
  {
    var t := ClearContaining(s, part);
    forall i | 0 <= i < |s|
      ensures ClearContaining(t, part)[i] == t[i]
    {
      if i >= ArrayStartIndex && Contains(t[i], part) {
        assert t[i] == "";
      }
    }
  }

  /** The TagManager asset as `TagManagerController` sees it: its "layers" property. */
  class TagManagerController {
    var layers: array<string>

    constructor (layers: array<string>)
      ensures this.layers == layers
    {
      this.layers := layers;
    }

    method TryAddLayer(layerName: string) returns (added: bool)
      modifies layers
      ensures (added, layers[..]) == AddLayer(old(layers[..]), layerName)
    {
      var firstEmptyLayer: Option<nat> := None;
      var found := false;
      var i := ArrayStartIndex;
      while i < layers.Length
        invariant ArrayStartIndex <= i && (i <= layers.Length || i == ArrayStartIndex)
        invariant forall j :: ArrayStartIndex <= j < i ==> layers[j] != layerName
        invariant firstEmptyLayer.Some? ==> ArrayStartIndex <= firstEmptyLayer.value < i && layers[firstEmptyLayer.value] == ""
        invariant firstEmptyLayer.Some? ==> forall j :: ArrayStartIndex <= j < firstEmptyLayer.value ==> layers[j] != ""
        invariant firstEmptyLayer.None? ==> forall j :: ArrayStartIndex <= j < i ==> layers[j] != ""
      {
        if layers[i] == layerName {
          found := true;
          break;
        }
        if firstEmptyLayer.None? && layers[i] == "" {
          firstEmptyLayer := Some(i);
        }
        i := i + 1;
      }
      if !found {
        if firstEmptyLayer.Some? {
          layers[firstEmptyLayer.value] := layerName;
        } else {
          return false;
        }
      }
      return true;
    }

    /** `RemoveLayer` as written; see `RemoveLayerAsWritten`. */
    method RemoveLayer(layerName: Option<string>)
      modifies layers
      ensures layers[..] == RemoveLayerAsWritten(old(layers[..]), layerName)
    {
      if layerName.None? {
        return;
      }
      var layer: Option<nat> := None;
      var i := 0;
      while i < layers.Length
        invariant 0 <= i <= layers.Length
        invariant layer == if i == 0 then None else Some(i - 1)
        invariant forall j :: 0 <= j < i ==> layers[j] != layerName.value
      {
        layer := Some(i);
        if layers[i] == layerName.value {
          break;
        }
        i := i + 1;
      }
      if layer.None? {
        return;
      }
      layers[layer.value] := "";
    }

    method RemoveAllLayersContaining(layerName: string)
      modifies layers
      ensures layers[..] == ClearContaining(old(layers[..]), layerName)
    {
      var i := ArrayStartIndex;
      while i < layers.Length
        invariant ArrayStartIndex <= i && (i <= layers.Length || i == ArrayStartIndex)
        invariant forall j :: 0 <= j < layers.Length ==>
          layers[j] == if ArrayStartIndex <= j < i && Contains(old(layers[j]), layerName) then "" else old(layers[j])
      {
        if Contains(layers[i], layerName) {
          layers[i] := "";
        }
        i := i + 1;
      }
    }
  }

  // ----------------------------------------------------------------------
  // ProjectionEyeRigUtil.AddLayerIDForProjectionEyeRig

  /**
   * `AddLayerIDForProjectionEyeRig` as written: an existing name answers
   * its own index; otherwise the name goes into the first empty slot from
   * 8 on, and when there is none `index` keeps its initial 0, so slot 0
   * (the built-in Default layer) is overwritten.
   */
  function EyeRigSlotAsWritten(s: seq<string>, name: string): (int, seq<string>)
    requires |s| > 0
  {
    match FirstFrom(s, 0, name)
    case Some(i) => (i, s)
    case None =>
      var index := match FirstFrom(s, ArrayStartIndex, "") case Some(k) => k case None => 0;
      (index, s[index := name])
  }

  /** A full layer list with a new name loses its Default layer. */
  lemma EyeRigOverwritesDefault(s: seq<string>, name: string)
    requires |s| > ArrayStartIndex
    requires forall i :: 0 <= i < |s| ==> s[i] != name
    requires forall i :: ArrayStartIndex <= i < |s| ==> s[i] != ""
    ensures EyeRigSlotAsWritten(s, name) == (0, s[0 := name])
  {
  }

  /**
   * The intended slot search: the existing index, else the first empty
   * slot from 8 on, else no slot at all (`None`) and no write.
   */
  function EyeRigSlot(s: seq<string>, name: string): (Option<nat>, seq<string>)
  {
    match FirstFrom(s, 0, name)
    case Some(i) => (Some(i), s)
    case None =>
      match FirstFrom(s, ArrayStartIndex, "")
      case Some(k) => (Some(k), s[k := name])
      case None => (None, s)
  }

  /**
   * The corrected search never writes a built-in slot; when it answers an
   * index, that slot holds the name afterwards; it agrees with the code as
   * written except when the list is full.
   */
  lemma EyeRigSlotLaw(s: seq<string>, name: string)
    requires |s| > 0
    ensures var (index, t) := EyeRigSlot(s, name);
      && |t| == |s|
      && (forall i :: 0 <= i < |s| && i < ArrayStartIndex ==> t[i] == s[i] || (s[i] == name && t == s))
      && (index.Some? ==> 0 <= index.value < |t| && t[index.value] == name)
      && (index.None? <==> (forall i :: 0 <= i < |s| ==> s[i] != name) && (forall i :: ArrayStartIndex <= i < |s| ==> s[i] != ""))
      && (index.None? ==> t == s)
      && (index.Some? ==> EyeRigSlotAsWritten(s, name) == (index.value, t))
  {
  }

  // ----------------------------------------------------------------------
  // ProjectionEyeRigUtil.SetUp

  /** A camera; its culling mask is the set of layer indices whose bits are set. */
  class Camera {
    var cullingMask: set<int>
    var depth: real

    constructor (cullingMask: set<int>, depth: real)
      ensures this.cullingMask == cullingMask && this.depth == depth
    {
      this.cullingMask := cullingMask;
      this.depth := depth;
    }
  }

  /**
   * The object the window was opened for: its layer and name, the layers of
   * its direct children, whether it carries a `CompositionLayer`, and its
   * first two children's cameras (the left and right eye).
   */
  class ProjectionObject {
    var layer: int
    var name: string
    var childLayers: seq<int>
    const hasCompositionLayer: bool
    const leftCam: Camera
    const rightCam: Camera

    constructor (hasCompositionLayer: bool, leftCam: Camera, rightCam: Camera, childCount: nat)
      ensures this.hasCompositionLayer == hasCompositionLayer && this.leftCam == leftCam && this.rightCam == rightCam
      ensures layer == 0 && name == "" && |childLayers| == childCount
    {
      this.hasCompositionLayer := hasCompositionLayer;
      this.leftCam := leftCam;
      this.rightCam := rightCam;
      layer := 0;
      name := "";
      childLayers := seq(childCount, _ => 0);
    }
  }

  /**
   * `AddLayerIDForProjectionEyeRig` on the TagManager's layer array, as
   * written (see `EyeRigSlotAsWritten`).
   */
  method AddLayerIdForProjectionEyeRig(layers: array<string>, layerName: string) returns (index: int)
    requires layers.Length > 0
    modifies layers
    ensures (index, layers[..]) == EyeRigSlotAsWritten(old(layers[..]), layerName)
  {
    var i := 0;
    while i < layers.Length
      invariant 0 <= i <= layers.Length
      invariant forall j :: 0 <= j < i ==> layers[j] != layerName
    {
      if layers[i] == layerName {
        return i;
      }
      i := i + 1;
    }
    index := 0;
    i := ArrayStartIndex;
    while i < layers.Length
      invariant ArrayStartIndex <= i && (i <= layers.Length || i == ArrayStartIndex)
      invariant forall j :: ArrayStartIndex <= j < i ==> layers[j] != ""
    {
      if layers[i] == "" {
        index := i;
        break;
      }
      i := i + 1;
    }
    layers[index] := layerName;
  }

  /**
   * `SetUp`: false, and nothing written, for an empty name or no object;
   * otherwise the name gets a slot, the object and its children move to
   * that layer, the main camera (if any) stops drawing it and goes one
   * step deeper for the eye cameras, and with a `CompositionLayer` on the
   * object the two eye cameras draw that layer alone.
   */
  method SetUp(newLayerName: string, projectionObj: ProjectionObject?, mainCamera: Camera?, layers: array<string>)
    returns (ok: bool)
    requires layers.Length == 32
    requires projectionObj != null ==> projectionObj.leftCam != projectionObj.rightCam
    requires projectionObj != null && mainCamera != null ==> mainCamera != projectionObj.leftCam && mainCamera != projectionObj.rightCam
    modifies layers, projectionObj, mainCamera
    modifies if projectionObj != null then {projectionObj.leftCam, projectionObj.rightCam} else {}
    ensures ok <==> newLayerName != "" && projectionObj != null
    ensures !ok ==> layers[..] == old(layers[..])
    ensures ok ==>
      var (index, written) := EyeRigSlotAsWritten(old(layers[..]), newLayerName);
      && layers[..] == written
      && projectionObj.layer == index && projectionObj.name == newLayerName
      && |projectionObj.childLayers| == old(|projectionObj.childLayers|)
      && (forall c :: 0 <= c < |projectionObj.childLayers| ==> projectionObj.childLayers[c] == index)
      && (mainCamera != null ==> mainCamera.cullingMask == old(mainCamera.cullingMask) - {index}
                                 && mainCamera.depth == old(mainCamera.depth))
      && (projectionObj.hasCompositionLayer ==>
            var cameraDepth := if mainCamera != null then old(mainCamera.depth) - 1.0 else 0.0;
            && projectionObj.leftCam.cullingMask == {index} && projectionObj.rightCam.cullingMask == {index}
            && projectionObj.leftCam.depth == cameraDepth && projectionObj.rightCam.depth == cameraDepth)
  {
    if newLayerName == "" {
      return false;
    }
    if projectionObj == null {
      return false;
    }
    var layerIndex := AddLayerIdForProjectionEyeRig(layers, newLayerName);
    projectionObj.layer := layerIndex;
    projectionObj.name := newLayerName;
    projectionObj.childLayers := seq(|projectionObj.childLayers|, _ => layerIndex);
    var cameraDepth := 0.0;
    if mainCamera != null {
      mainCamera.cullingMask := mainCamera.cullingMask - {layerIndex};
      cameraDepth := mainCamera.depth - 1.0;
    }
    if projectionObj.hasCompositionLayer {
      projectionObj.leftCam.cullingMask := {layerIndex};
      projectionObj.rightCam.cullingMask := {layerIndex};
      projectionObj.leftCam.depth := cameraDepth;
      projectionObj.rightCam.depth := cameraDepth;
    }
    return true;
  }
}
