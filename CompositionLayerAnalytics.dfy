/**
 * `CompositionLayerAnalyticsHelper`: counts the composition layers of the
 * build's enabled scenes by layer-data type, the colour scale and bias
 * extensions among them, and the total.  Quad and cylinder layers are
 * counted under keys that also say whether they mirror interactable UI and
 * whether their texture is an Android surface.
 */
module CompositionLayerAnalytics {
  import opened Wrappers

  const DefaultLayerDataType: string := "Unity.XR.CompositionLayers.Layers.DefaultLayerData"
  const QuadLayerDataType: string := "Unity.XR.CompositionLayers.Layers.QuadLayerData"
  const CylinderLayerDataType: string := "Unity.XR.CompositionLayers.Layers.CylinderLayerData"
  const InteractableUISuffix: string := ".InteractableUI"
  const AndroidSurfaceSuffix: string := ".AndroidSurface"

  datatype SourceTexture = LocalTexture | AndroidSurface

  /** The extensions that matter here, by type. */
  datatype Extension = Textures(sourceTexture: SourceTexture) | ColorScaleBias | OtherExtension

  /**
   * A composition layer of a scene: the full name of its layer-data type
   * (None without layer data), whether its hide flags include
   * `HideAndDontSave`, whether its object has an interactable UI mirror, and
   * its extensions.
   */
  datatype SceneLayer = SceneLayer(
    layerDataType: Option<string>,
    hideAndDontSave: bool,
    hasUIMirror: bool,
    extensions: seq<Extension>)

  /** A scene of the build: whether it is enabled, and the layers of its manager (None without a manager). */
  datatype BuildScene = BuildScene(enabled: bool, manager: Option<seq<SceneLayer>>)

  // ---------------------------------------------------------------------
  // One layer
  // ---------------------------------------------------------------------

  /** The first textures extension's source, if there is one. */
  function FirstTextures(extensions: seq<Extension>): (r: Option<SourceTexture>)
    ensures r.None? <==> forall i :: 0 <= i < |extensions| ==> !extensions[i].Textures?
    ensures r.Some? ==> exists i :: 0 <= i < |extensions| && extensions[i] == Textures(r.value)
                                   && forall k :: 0 <= k < i ==> !extensions[k].Textures?
  {
    if |extensions| == 0 then None
    else if extensions[0].Textures? then Some(extensions[0].sourceTexture)
    else
      var r := FirstTextures(extensions[1..]);
      assert forall i :: 1 <= i < |extensions| ==> extensions[i] == extensions[1..][i - 1];
      LiftFirst(extensions, r);
      r
  }

  lemma LiftFirst(extensions: seq<Extension>, r: Option<SourceTexture>)
    requires |extensions| > 0 && !extensions[0].Textures?
    requires r.Some? ==> exists i :: 0 <= i < |extensions[1..]| && extensions[1..][i] == Textures(r.value)
                                    && forall k :: 0 <= k < i ==> !extensions[1..][k].Textures?
    ensures r.Some? ==> exists i :: 0 <= i < |extensions| && extensions[i] == Textures(r.value)
                                   && forall k :: 0 <= k < i ==> !extensions[k].Textures?
  {
    if r.Some? {
      var i :| 0 <= i < |extensions[1..]| && extensions[1..][i] == Textures(r.value)
               && forall k :: 0 <= k < i ==> !extensions[1..][k].Textures?;
      assert extensions[i + 1] == Textures(r.value);
      forall k | 0 <= k < i + 1 ensures !extensions[k].Textures? {
        if k > 0 {
          assert extensions[k] == extensions[1..][k - 1];
        }
      }
    }
  }

  /** The auto-generated default layer of a new scene is not counted. */
  predicate IsHiddenDefault(l: SceneLayer)
  {
    l.layerDataType == Some(DefaultLayerDataType) && l.hideAndDontSave
  }

  /** A layer that is counted: it has layer data and is not the hidden default one. */
  predicate Counted(l: SceneLayer)
  {
    l.layerDataType.Some? && !IsHiddenDefault(l)
  }

  /** The usage key of a layer: its type name, with the UI and Android-surface suffixes for quads and cylinders. */
  function UsageKey(l: SceneLayer): string
    requires l.layerDataType.Some?
  {
    var name := l.layerDataType.value;
    if name == QuadLayerDataType || name == CylinderLayerDataType then
      name + (if l.hasUIMirror then InteractableUISuffix else "")
           + (if FirstTextures(l.extensions) == Some(AndroidSurface) then AndroidSurfaceSuffix else "")
    else name
  }

  /**
   * What the key says: other types are counted under their own name; a quad
   * or cylinder key starts with the type name, and the two suffixes are
   * present exactly when the layer mirrors interactable UI and its first
   * textures extension is an Android surface.
   */
  lemma UsageKeyLaw(l: SceneLayer)
    requires l.layerDataType.Some?
    ensures var name := l.layerDataType.value;
      && (name != QuadLayerDataType && name != CylinderLayerDataType ==> UsageKey(l) == name)
      && (name == QuadLayerDataType || name == CylinderLayerDataType ==>
            && UsageKey(l)[..|name|] == name
            && (l.hasUIMirror && FirstTextures(l.extensions) == Some(AndroidSurface) ==>
                  UsageKey(l) == name + InteractableUISuffix + AndroidSurfaceSuffix)
            && (!l.hasUIMirror && FirstTextures(l.extensions) != Some(AndroidSurface) ==> UsageKey(l) == name)
            && (l.hasUIMirror && FirstTextures(l.extensions) != Some(AndroidSurface) ==>
                  UsageKey(l) == name + InteractableUISuffix)
            && (!l.hasUIMirror && FirstTextures(l.extensions) == Some(AndroidSurface) ==>
                  UsageKey(l) == name + AndroidSurfaceSuffix))
  {
    var name := l.layerDataType.value;
    if name == QuadLayerDataType || name == CylinderLayerDataType {
      var tail := (if l.hasUIMirror then InteractableUISuffix else "")
                  + (if FirstTextures(l.extensions) == Some(AndroidSurface) then AndroidSurfaceSuffix else "");
      assert UsageKey(l) == name + tail;
      assert (name + tail)[..|name|] == name;
    }
  }

  predicate HasColorScaleBias(l: SceneLayer)
  {
    exists i :: 0 <= i < |l.extensions| && l.extensions[i] == ColorScaleBias
  }

  // ---------------------------------------------------------------------
  // Counting a scene
  // ---------------------------------------------------------------------

  /** A key's count goes up by one, starting at 1 when new. */
  function Increment(usage: map<string, nat>, key: string): (r: map<string, nat>)
    ensures key in r && r[key] == (if key in usage then usage[key] + 1 else 1)
    ensures r.Keys == usage.Keys + {key}
    ensures forall k :: k in usage && k != key ==> r[k] == usage[k]
  {
    usage[key := if key in usage then usage[key] + 1 else 1]
  }

  /** `ProcessSceneLayerTypesUsage`'s key counts, with layers without layer data skipped. */
  function TallyScene(usage: map<string, nat>, layers: seq<SceneLayer>): map<string, nat>
  {
    if |layers| == 0 then usage
    else
      var u := TallyScene(usage, layers[..|layers| - 1]);
      var l := layers[|layers| - 1];
      if Counted(l) then Increment(u, UsageKey(l)) else u
  }

  /** The colour scale and bias count of a scene. */
  function ColorScaleCount(layers: seq<SceneLayer>): nat
  {
    if |layers| == 0 then 0
    else
      var l := layers[|layers| - 1];
      ColorScaleCount(layers[..|layers| - 1]) + (if Counted(l) && HasColorScaleBias(l) then 1 else 0)
  }

  /** How many of the layers are counted, and how many of those under `key`. */
  function CountedCount(layers: seq<SceneLayer>): nat
  {
    if |layers| == 0 then 0
    else CountedCount(layers[..|layers| - 1]) + (if Counted(layers[|layers| - 1]) then 1 else 0)
  }

  function KeyCount(layers: seq<SceneLayer>, key: string): nat
  {
    if |layers| == 0 then 0
    else
      var l := layers[|layers| - 1];
      KeyCount(layers[..|layers| - 1], key) + (if Counted(l) && UsageKey(l) == key then 1 else 0)
  }

  function Get(usage: map<string, nat>, key: string): nat
  {
    if key in usage then usage[key] else 0
  }

  /** Some key of a non-empty map. */
  ghost function Pick(m: map<string, nat>): (k: string)
    requires |m| > 0
    ensures k in m
  {
    var k :| k in m; k
  }

  /** The sum of a map's values. */
  ghost function SumValues(m: map<string, nat>): nat
    decreases |m|
  {
    if |m| == 0 then 0
    else
      var k := Pick(m);
      m[k] + SumValues(m - {k})
  }

  /** The sum does not depend on which key is taken out first. */
  lemma {:induction false} SumRemove(m: map<string, nat>, k: string)
    requires k in m
    ensures SumValues(m) == m[k] + SumValues(m - {k})
    decreases |m|
  {
    var j := Pick(m);
    if j != k {
      var mj := m - {j};
      var mk := m - {k};
      assert k in mj && j in mk;
      SumRemove(mj, k);
      SumRemove(mk, j);
      assert mj - {k} == mk - {j};
    }
  }

  lemma UpdateThenRemove(u: map<string, nat>, key: string, v: nat)
    ensures u[key := v] - {key} == u - {key}
  {
  }

  lemma RemoveAbsent(u: map<string, nat>, key: string)
    requires key !in u
    ensures u - {key} == u
  {
  }

  lemma IncrementSum(usage: map<string, nat>, key: string)
    ensures SumValues(Increment(usage, key)) == SumValues(usage) + 1
  {
    var v := if key in usage then usage[key] + 1 else 1;
    var r := usage[key := v];
    assert Increment(usage, key) == r;
    SumRemove(r, key);
    UpdateThenRemove(usage, key, v);
    if key in usage {
      SumRemove(usage, key);
    } else {
      RemoveAbsent(usage, key);
    }
  }

  lemma IncrementGet(usage: map<string, nat>, key: string)
    ensures forall k :: Get(Increment(usage, key), k) == Get(usage, k) + (if k == key then 1 else 0)
  {
  }

  /**
   * Each counted layer adds one under its key and nothing else changes: the
   * count of every key grows by the number of counted layers with that key.
   */
  lemma {:induction false} TallySceneLaw(usage: map<string, nat>, layers: seq<SceneLayer>)
    ensures forall key :: Get(TallyScene(usage, layers), key) == Get(usage, key) + KeyCount(layers, key)
    ensures TallyScene(usage, layers).Keys >= usage.Keys
  {
    if |layers| > 0 {
      var init := layers[..|layers| - 1];
      var l := layers[|layers| - 1];
      TallySceneLaw(usage, init);
      if Counted(l) {
        IncrementGet(TallyScene(usage, init), UsageKey(l));
      }
    }
  }

  /** The sum of all counts grows by the number of counted layers. */
  lemma {:induction false} TallySceneSum(usage: map<string, nat>, layers: seq<SceneLayer>)
    ensures SumValues(TallyScene(usage, layers)) == SumValues(usage) + CountedCount(layers)
  {
    if |layers| > 0 {
      var init := layers[..|layers| - 1];
      var l := layers[|layers| - 1];
      TallySceneSum(usage, init);
      if Counted(l) {
        IncrementSum(TallyScene(usage, init), UsageKey(l));
      }
    }
  }

  // ---------------------------------------------------------------------
  // As written: a layer without layer data throws
  // ---------------------------------------------------------------------

  /**
   * The scan as written: the type's full name is read before any check, so a
   * layer without layer data throws (None) and ends the whole processing.
   */
  function TallySceneAsWritten(usage: map<string, nat>, layers: seq<SceneLayer>): Option<map<string, nat>>
  {
    if |layers| == 0 then Some(usage)
    else
      var u := TallySceneAsWritten(usage, layers[..|layers| - 1]);
      var l := layers[|layers| - 1];
      if u.None? || l.layerDataType.None? then None
      else if IsHiddenDefault(l) then u
      else Some(Increment(u.value, UsageKey(l)))
  }

  /** Where every layer has layer data, the scan as written and the corrected one agree. */
  lemma {:induction false} AsWrittenAgreesWithData(usage: map<string, nat>, layers: seq<SceneLayer>)
    requires forall i :: 0 <= i < |layers| ==> layers[i].layerDataType.Some?
    ensures TallySceneAsWritten(usage, layers) == Some(TallyScene(usage, layers))
  {
    if |layers| > 0 {
      AsWrittenAgreesWithData(usage, layers[..|layers| - 1]);
    }
  }

  /**
   * A scene holding a quad layer and a layer whose data was removed: the
   * scan as written throws, while the corrected one counts the quad.
   */
  lemma AnalyticsThrowsOnLayerWithoutData()
    ensures var quad := SceneLayer(Some(QuadLayerDataType), false, false, []);
      var empty := SceneLayer(None, false, false, []);
      && TallySceneAsWritten(map[], [quad, empty]).None?
      && TallyScene(map[], [quad, empty]) == map[QuadLayerDataType := 1]
  {
    var quad := SceneLayer(Some(QuadLayerDataType), false, false, []);
    var empty := SceneLayer(None, false, false, []);
    assert [quad, empty][..1] == [quad];
    assert [quad][..0] == [];
    assert UsageKey(quad) == QuadLayerDataType + "" + "" == QuadLayerDataType;
    assert TallyScene(map[], [quad]) == Increment(map[], QuadLayerDataType);
  }

  // ---------------------------------------------------------------------
  // Over the build
  // ---------------------------------------------------------------------

  /** The scenes actually scanned: enabled ones whose manager exists. */
  function TallyAll(scenes: seq<BuildScene>): map<string, nat>
  {
    if |scenes| == 0 then map[]
    else
      var s := scenes[|scenes| - 1];
      var u := TallyAll(scenes[..|scenes| - 1]);
      if s.enabled && s.manager.Some? then TallyScene(u, s.manager.value) else u
  }

  function ColorAll(scenes: seq<BuildScene>): nat
  {
    if |scenes| == 0 then 0
    else
      var s := scenes[|scenes| - 1];
      ColorAll(scenes[..|scenes| - 1]) + (if s.enabled && s.manager.Some? then ColorScaleCount(s.manager.value) else 0)
  }

  /** The number of counted layers over the scanned scenes. */
  function CountedAll(scenes: seq<BuildScene>): nat
  {
    if |scenes| == 0 then 0
    else
      var s := scenes[|scenes| - 1];
      CountedAll(scenes[..|scenes| - 1]) + (if s.enabled && s.manager.Some? then CountedCount(s.manager.value) else 0)
  }

  /** The total usage is the number of counted layers in the scanned scenes. */
  lemma {:induction false} TallyAllSum(scenes: seq<BuildScene>)
    ensures SumValues(TallyAll(scenes)) == CountedAll(scenes)
  {
    if |scenes| > 0 {
      var s := scenes[|scenes| - 1];
      TallyAllSum(scenes[..|scenes| - 1]);
      if s.enabled && s.manager.Some? {
        TallySceneSum(TallyAll(scenes[..|scenes| - 1]), s.manager.value);
      }
    }
  }

  class CompositionLayerAnalyticsHelper {
    var layerTypesUsage: map<string, nat>
    var totalLayerTypesUsage: nat
    var colorScaleAndBiasExtensionsUsage: nat
    var isEnabledSplashScreen: bool

    constructor ()
      ensures layerTypesUsage == map[] && totalLayerTypesUsage == 0
      ensures colorScaleAndBiasExtensionsUsage == 0 && !isEnabledSplashScreen
    {
      layerTypesUsage := map[];
      totalLayerTypesUsage := 0;
      colorScaleAndBiasExtensionsUsage := 0;
      isEnabledSplashScreen := false;
    }

    /** `ProcessSceneLayerTypesUsage`: nothing without a manager; otherwise each counted layer is tallied. */
    method ProcessSceneLayerTypesUsage(manager: Option<seq<SceneLayer>>)
      modifies this
      ensures manager.None? ==>
        (layerTypesUsage == old(layerTypesUsage) && colorScaleAndBiasExtensionsUsage == old(colorScaleAndBiasExtensionsUsage))
      ensures manager.Some? ==>
        (layerTypesUsage == TallyScene(old(layerTypesUsage), manager.value)
         && colorScaleAndBiasExtensionsUsage == old(colorScaleAndBiasExtensionsUsage) + ColorScaleCount(manager.value))
      ensures totalLayerTypesUsage == old(totalLayerTypesUsage) && isEnabledSplashScreen == old(isEnabledSplashScreen)
    {
      if manager.None? {
        return;
      }
      var layers := manager.value;
      ghost var usage0 := layerTypesUsage;
      ghost var color0 := colorScaleAndBiasExtensionsUsage;
      var i := 0;
      while i < |layers|
        invariant 0 <= i <= |layers|
        invariant layerTypesUsage == TallyScene(usage0, layers[..i])
        invariant colorScaleAndBiasExtensionsUsage == color0 + ColorScaleCount(layers[..i])
        invariant totalLayerTypesUsage == old(totalLayerTypesUsage) && isEnabledSplashScreen == old(isEnabledSplashScreen)
      {
        assert layers[..i + 1][..i] == layers[..i];
        TallyLayer(layers[i]);
        i := i + 1;
      }
      assert layers[..i] == layers;
    }

    /** The loop body of `ProcessSceneLayerTypesUsage`: a counted layer adds one under its key and to the colour count if it has the extension. */
    method TallyLayer(l: SceneLayer)
      modifies this`layerTypesUsage, this`colorScaleAndBiasExtensionsUsage
      ensures layerTypesUsage == if Counted(l) then Increment(old(layerTypesUsage), UsageKey(l)) else old(layerTypesUsage)
      ensures colorScaleAndBiasExtensionsUsage ==
        old(colorScaleAndBiasExtensionsUsage) + (if Counted(l) && HasColorScaleBias(l) then 1 else 0)
    {
      if l.layerDataType.None? || IsHiddenDefault(l) {
        return;
      }
      var key := UsageKey(l);
      if HasColorScaleBias(l) {
        colorScaleAndBiasExtensionsUsage := colorScaleAndBiasExtensionsUsage + 1;
      }
      if key in layerTypesUsage {
        layerTypesUsage := layerTypesUsage[key := layerTypesUsage[key] + 1];
      } else {
        layerTypesUsage := layerTypesUsage[key := 1];
      }
    }

    /**
     * `ProcessCompositionLayersAnalyticsData`: the counters are reset, every
     * enabled scene is scanned in order, and the total is the sum of the
     * per-key counts.
     */
    method ProcessCompositionLayersAnalyticsData(scenes: seq<BuildScene>, enableSplashScreen: bool)
      modifies this
      ensures layerTypesUsage == TallyAll(scenes)
      ensures colorScaleAndBiasExtensionsUsage == ColorAll(scenes)
      ensures totalLayerTypesUsage == SumValues(layerTypesUsage) == CountedAll(scenes)
      ensures isEnabledSplashScreen == enableSplashScreen
    {
      layerTypesUsage := map[];
      colorScaleAndBiasExtensionsUsage := 0;
      totalLayerTypesUsage := 0;
      var i := 0;
      while i < |scenes|
        invariant 0 <= i <= |scenes|
        invariant layerTypesUsage == TallyAll(scenes[..i])
        invariant colorScaleAndBiasExtensionsUsage == ColorAll(scenes[..i])
      {
        assert scenes[..i + 1][..i] == scenes[..i];
        if scenes[i].enabled {
          ProcessSceneLayerTypesUsage(scenes[i].manager);
        }
        i := i + 1;
      }
      assert scenes[..i] == scenes;
      totalLayerTypesUsage := SumOfValues(layerTypesUsage);
      TallyAllSum(scenes);
      isEnabledSplashScreen := enableSplashScreen;
    }
  }

  /** `Values.Sum()`: the counts added up, one key at a time. */
  method SumOfValues(m: map<string, nat>) returns (s: nat)
    ensures s == SumValues(m)
  {
    s := 0;
    var rest := m;
    while rest != map[]
      invariant s + SumValues(rest) == SumValues(m)
      decreases |rest|
    {
      var k :| k in rest;
      SumRemove(rest, k);
      s := s + rest[k];
      rest := rest - {k};
    }
  }
}
