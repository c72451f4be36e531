/**
 * `CompositionLayersRuntimeSettingsEditor`: the inspector of the runtime
 * settings.  It keeps the composition splash scene first in the build's
 * scene list while the splash screen is enabled, warns when no enabled
 * scene follows it, and hides the settings that do not apply.
 */
module RuntimeSettingsEditor {
  /** An entry of the build settings' scene list. */
  datatype BuildScene = BuildScene(path: string, enabled: bool)

  /** The splash layer's shape (`CompositionLayersRuntimeSettings.Layer`). */
  datatype LayerType = Quad | Cylinder

  const EnableSplashScreen: string := "m_EnableSplashScreen"
  const QuadLayerData: string := "m_QuadLayerData"
  const CylinderLayerData: string := "m_CylinderLayerData"
  const ApplyTransformScale: string := "m_ApplyTransformScale"

  /** The properties shown only while the splash screen is enabled. */
  const SplashSettings: seq<string> := [
    "m_SplashImage", "m_BackgroundColor", "m_SplashDuration", "m_FadeInDuration",
    "m_FadeOutDuration", "m_FollowSpeed", "m_FollowDistance", "m_LockToHorizon",
    "m_LayerType", QuadLayerData, CylinderLayerData
  ]

  /** The layer-data fields never drawn. */
  const IgnoredLayerDataSettings: seq<string> := [ApplyTransformScale]

  // ---------------------------------------------------------------------
  // Queries on the scene list
  // ---------------------------------------------------------------------

  /** `SplashSceneInBuildSettings`: the list starts with the splash scene. */
  predicate SplashFirst(scenes: seq<BuildScene>, splashPath: string)
  {
    |scenes| > 0 && scenes[0].path == splashPath
  }

  /** `List.FindIndex`: the first index holding the path, or -1. */
  function FindIndex(scenes: seq<BuildScene>, path: string): (r: int)
    ensures -1 <= r < |scenes|
    ensures r == -1 <==> forall i :: 0 <= i < |scenes| ==> scenes[i].path != path
    ensures r >= 0 ==> scenes[r].path == path && forall i :: 0 <= i < r ==> scenes[i].path != path
  {
    if |scenes| == 0 then -1
    else if scenes[0].path == path then 0
    else
      var r := FindIndex(scenes[1..], path);
      assert forall i :: 1 <= i < |scenes| ==> scenes[i] == scenes[1..][i - 1];
      if r == -1 then -1 else r + 1
  }

  /**
   * `SceneAfterSplashInBuildSettings`: the splash scene is listed and an
   * enabled scene follows its first occurrence.
   */
  method SceneAfterSplashInBuildSettings(scenes: seq<BuildScene>, splashPath: string) returns (r: bool)
    ensures r <==> exists s, j :: 0 <= s < j < |scenes| && scenes[s].path == splashPath
                    && (forall k :: 0 <= k < s ==> scenes[k].path != splashPath) && scenes[j].enabled
  {
    var splashIndex := FindIndex(scenes, splashPath);
    if splashIndex == -1 {
      return false;
    }
    var i := splashIndex + 1;
    while i < |scenes|
      invariant splashIndex + 1 <= i <= |scenes|
      invariant forall j :: splashIndex < j < i ==> !scenes[j].enabled
    {
      if scenes[i].enabled {
        return true;
      }
      i := i + 1;
    }
    return false;
  }

  // ---------------------------------------------------------------------
  // Toggling the splash screen
  // ---------------------------------------------------------------------

  /**
   * The scene list after the splash toggle changed: enabling inserts the
   * splash scene at the front unless it is already first, disabling removes
   * it from the front if it is there; without a splash scene asset nothing
   * changes.
   */
  function Toggled(scenes: seq<BuildScene>, enable: bool, splashPath: string, splashFound: bool): seq<BuildScene>
  {
    if enable && !SplashFirst(scenes, splashPath) && splashFound then [BuildScene(splashPath, true)] + scenes
    else if !enable && SplashFirst(scenes, splashPath) && splashFound then scenes[1..]
    else scenes
  }

  /**
   * What the toggle does: once enabled the splash scene is first (and
   * enabled if it was added); once disabled it is no longer in front unless
   * it was listed twice; the other scenes keep their order.
   */
  lemma ToggledLaw(scenes: seq<BuildScene>, enable: bool, splashPath: string, splashFound: bool)
    ensures var r := Toggled(scenes, enable, splashPath, splashFound);
      && (enable && splashFound ==> SplashFirst(r, splashPath))
      && (enable && splashFound && !SplashFirst(scenes, splashPath) ==> r[0].enabled && r[1..] == scenes)
      && (!enable && splashFound && SplashFirst(scenes, splashPath) ==> [scenes[0]] + r == scenes)
      && (!enable && splashFound && SplashFirst(scenes, splashPath) && (|scenes| < 2 || scenes[1].path != splashPath) ==>
            !SplashFirst(r, splashPath))
      && (!splashFound ==> r == scenes)
  {
  }

  /**
   * Turning the splash on and then off again gives back the original scene
   * list, and turning it on twice adds it once.
   */
  lemma {:induction false} ToggleRoundTrip(scenes: seq<BuildScene>, splashPath: string)
    requires !SplashFirst(scenes, splashPath)
    ensures Toggled(Toggled(scenes, true, splashPath, true), false, splashPath, true) == scenes
    ensures Toggled(Toggled(scenes, true, splashPath, true), true, splashPath, true) == Toggled(scenes, true, splashPath, true)
  {
    var on := Toggled(scenes, true, splashPath, true);
    assert on == [BuildScene(splashPath, true)] + scenes;
    assert SplashFirst(on, splashPath);
    assert on[1..] == scenes;
  }

  /** `EditorBuildSettings.scenes`: the build's scene list. */
  class BuildSettings {
    var scenes: seq<BuildScene>

    constructor (scenes: seq<BuildScene>)
      ensures this.scenes == scenes
    {
      this.scenes := scenes;
    }

    /** `AddSceneAtIndex`: an enabled entry for the scene is inserted at `index`. */
    method AddSceneAtIndex(index: nat, path: string)
      requires index <= |scenes|
      modifies this
      ensures scenes == old(scenes[..index]) + [BuildScene(path, true)] + old(scenes[index..])
    {
      scenes := scenes[..index] + [BuildScene(path, true)] + scenes[index..];
    }

    /** `RemoveSceneAtIndex`: the entry at `index` is removed. */
    method RemoveSceneAtIndex(index: nat)
      requires index < |scenes|
      modifies this
      ensures scenes == old(scenes[..index]) + old(scenes[index + 1..])
    {
      scenes := scenes[..index] + scenes[index + 1..];
    }

    /**
     * The change-check branch of the inspector: after the toggle was applied
     * the splash scene is added at or removed from index 0.
     */
    method ApplySplashToggle(enable: bool, splashPath: string, splashFound: bool)
      modifies this
      ensures scenes == Toggled(old(scenes), enable, splashPath, splashFound)
    {
      if enable && !SplashFirst(scenes, splashPath) && splashFound {
        AddSceneAtIndex(0, splashPath);
        assert scenes[..0] == [];
      } else if !enable && SplashFirst(scenes, splashPath) && splashFound {
        RemoveSceneAtIndex(0);
      }
    }
  }

  // ---------------------------------------------------------------------
  // Which properties are drawn
  // ---------------------------------------------------------------------

  /** What the inspector does with one visible property. */
  datatype Drawing =
    | SplashToggle
    | Hidden
    | LayerDataFields(shown: string)
    | DefaultField

  /**
   * The branch chain of `OnInspectorGUI` for one property: the toggle itself,
   * hidden splash settings and layer data of the other layer type, the
   * selected layer type's data, or the default field.
   */
  function DrawProperty(name: string, enableSplash: bool, layerType: LayerType): Drawing
  {
    if name == EnableSplashScreen then SplashToggle
    else if (name in SplashSettings && !enableSplash)
            || (name == QuadLayerData && layerType == Cylinder)
            || (name == CylinderLayerData && layerType == Quad) then Hidden
    else if name == QuadLayerData || name == CylinderLayerData then
      LayerDataFields(if layerType == Cylinder then CylinderLayerData else QuadLayerData)
    else DefaultField
  }

  /** The fields of a layer-data property that are drawn: all but the ignored ones, in order. */
  function DrawnLayerDataFields(fields: seq<string>): (r: seq<string>)
    ensures forall f :: f in r <==> f in fields && f !in IgnoredLayerDataSettings
  {
    if |fields| == 0 then []
    else (if fields[0] in IgnoredLayerDataSettings then [] else [fields[0]]) + DrawnLayerDataFields(fields[1..])
  }

  /**
   * What the inspector shows: the toggle is always drawn; a disabled splash
   * hides every splash setting; with the splash enabled exactly one of the
   * two layer-data properties is drawn, and it draws the selected type's data.
   */
  lemma DrawPropertyLaw(enableSplash: bool, layerType: LayerType)
    ensures DrawProperty(EnableSplashScreen, enableSplash, layerType) == SplashToggle
    ensures !enableSplash ==> forall name :: name in SplashSettings ==> DrawProperty(name, enableSplash, layerType) == Hidden
    ensures enableSplash && layerType == Quad ==>
      DrawProperty(QuadLayerData, enableSplash, layerType) == LayerDataFields(QuadLayerData)
      && DrawProperty(CylinderLayerData, enableSplash, layerType) == Hidden
    ensures enableSplash && layerType == Cylinder ==>
      DrawProperty(CylinderLayerData, enableSplash, layerType) == LayerDataFields(CylinderLayerData)
      && DrawProperty(QuadLayerData, enableSplash, layerType) == Hidden
    ensures forall name :: name !in SplashSettings && name != EnableSplashScreen ==>
      DrawProperty(name, enableSplash, layerType) == DefaultField
  {
    assert EnableSplashScreen !in SplashSettings;
    assert QuadLayerData in SplashSettings && CylinderLayerData in SplashSettings;
  }
}
