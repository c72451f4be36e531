/**
 * `EditorPlatformManager`: the platform providers known to the editor.
 * After a refresh every active layer provider type is served by some
 * platform provider (a default one is made where none exists), and the
 * providers that support HDR output decide `PlatformManager.IsSupportedHDR`.
 * Types are named by their full names.
 */
module EditorPlatformManager {
  import opened Wrappers

  const EmulatedLayerProviderType: string := "Unity.XR.CompositionLayers.Emulation.EmulatedLayerProvider"
  const MirrorViewLayerProviderType: string := "Unity.XR.CompositionLayers.Rendering.MirrorViewLayerProvider"

  /**
   * A platform provider: its layer provider type, the layer-data types it
   * supports (None for the default "all"), and whether it supports HDR.
   */
  datatype PlatformProvider = PlatformProvider(
    layerProviderType: Option<string>,
    supportedLayerDataTypes: Option<seq<string>>,
    isSupportedHDR: bool)

  /** `DefaultPlatformProvider`: every layer-data type, no HDR. */
  function DefaultPlatformProvider(layerProviderType: string): PlatformProvider
  {
    PlatformProvider(Some(layerProviderType), None, false)
  }

  // ---------------------------------------------------------------------
  // Support queries
  // ---------------------------------------------------------------------

  /**
   * `IsSupportedLayerData(provider, LayerData)`: no layer data, or a provider
   * without a list, is supported; otherwise the data's type must be listed.
   */
  function IsSupportedLayerData(p: PlatformProvider, layerDataType: Option<string>): (r: bool)
    ensures layerDataType.None? || p.supportedLayerDataTypes.None? ==> r
    ensures layerDataType.Some? && p.supportedLayerDataTypes.Some? ==>
      (r <==> layerDataType.value in p.supportedLayerDataTypes.value)
  {
    layerDataType.None? || p.supportedLayerDataTypes.None? || layerDataType.value in p.supportedLayerDataTypes.value
  }

  /**
   * `IsSupportedLayerData(provider, string)`: a null or empty name, or a
   * provider without a list, is supported; otherwise some listed type must
   * have that full name.
   */
  function IsSupportedLayerDataName(p: PlatformProvider, fullName: Option<string>): (r: bool)
    ensures fullName.None? || fullName == Some("") || p.supportedLayerDataTypes.None? ==> r
    ensures fullName.Some? && fullName.value != "" && p.supportedLayerDataTypes.Some? ==>
      (r <==> exists i :: 0 <= i < |p.supportedLayerDataTypes.value| && p.supportedLayerDataTypes.value[i] == fullName.value)
  {
    fullName.None? || fullName.value == "" || p.supportedLayerDataTypes.None?
    || fullName.value in p.supportedLayerDataTypes.value
  }

  /** The two overloads agree on every type, since types are named by their full names. */
  lemma SupportOverloadsAgree(p: PlatformProvider, layerDataType: Option<string>)
    requires layerDataType != Some("")
    ensures IsSupportedLayerData(p, layerDataType) == IsSupportedLayerDataName(p, layerDataType)
  {
  }

  /** `IsInternal`: the provider serves the mirror view or the emulation. */
  function IsInternal(p: PlatformProvider): (r: bool)
    ensures r <==> p.layerProviderType == Some(MirrorViewLayerProviderType) || p.layerProviderType == Some(EmulatedLayerProviderType)
    ensures p.layerProviderType.None? ==> !r
  {
    match p.layerProviderType
    case None => false
    case Some(t) => t == MirrorViewLayerProviderType || t == EmulatedLayerProviderType
  }

  /** How many of the providers support the named layer data. */
  function CountSupporting(ps: seq<PlatformProvider>, fullName: Option<string>): nat
  {
    if |ps| == 0 then 0
    else CountSupporting(ps[..|ps| - 1], fullName) + (if IsSupportedLayerDataName(ps[|ps| - 1], fullName) then 1 else 0)
  }

  /** The count reaches the number of providers exactly when every one supports the data. */
  lemma {:induction false} CountSupportingLaw(ps: seq<PlatformProvider>, fullName: Option<string>)
    ensures CountSupporting(ps, fullName) <= |ps|
    ensures CountSupporting(ps, fullName) == |ps| <==> forall p :: p in ps ==> IsSupportedLayerDataName(p, fullName)
  {
    if |ps| > 0 {
      var init := ps[..|ps| - 1];
      assert ps == init + [ps[|ps| - 1]];
      CountSupportingLaw(init, fullName);
      if CountSupporting(ps, fullName) == |ps| {
        forall p | p in ps ensures IsSupportedLayerDataName(p, fullName) {
          if p != ps[|ps| - 1] {
            assert p in init;
          }
        }
      }
      if forall p :: p in ps ==> IsSupportedLayerDataName(p, fullName) {
        forall p | p in init ensures IsSupportedLayerDataName(p, fullName) {
          assert p in ps;
        }
      }
    }
  }

  /**
   * `IsSupportedLayerDataAllPlatforms`: a null or empty name, or no active
   * providers, is supported; otherwise every active provider must support it.
   */
  method IsSupportedLayerDataAllPlatforms(active: Option<seq<PlatformProvider>>, fullName: Option<string>)
    returns (r: bool)
    ensures r <==> fullName.None? || fullName == Some("") || active.None? || |active.value| == 0
                   || forall p :: p in active.value ==> IsSupportedLayerDataName(p, fullName)
  {
    if fullName.None? || fullName.value == "" {
      return true;
    }
    if active.None? || |active.value| == 0 {
      return true;
    }
    var ps := active.value;
    var count := 0;
    var i := 0;
    while i < |ps|
      invariant 0 <= i <= |ps|
      invariant count == CountSupporting(ps[..i], fullName)
    {
      assert ps[..i + 1][..i] == ps[..i];
      if IsSupportedLayerDataName(ps[i], fullName) {
        count := count + 1;
      }
      i := i + 1;
    }
    assert ps[..i] == ps;
    CountSupportingLaw(ps, fullName);
    r := count == |ps|;
  }

  // ---------------------------------------------------------------------
  // Refresh
  // ---------------------------------------------------------------------

  /** `GetActiveLayerProviderTypes`: every layer provider type but the emulated one. */
  function ActiveLayerProviderTypes(all: seq<string>): (r: seq<string>)
    ensures forall t :: t in r <==> t in all && t != EmulatedLayerProviderType
  {
    if |all| == 0 then []
    else (if all[0] == EmulatedLayerProviderType then [] else [all[0]]) + ActiveLayerProviderTypes(all[1..])
  }

  predicate Covers(ps: seq<PlatformProvider>, t: string)
  {
    exists i :: 0 <= i < |ps| && ps[i].layerProviderType == Some(t)
  }

  /** The loop of `Refresh`: each type no provider serves yet gets a default provider. */
  function AddDefaults(ps: seq<PlatformProvider>, types: seq<string>): seq<PlatformProvider>
  {
    if |types| == 0 then ps
    else
      var r := AddDefaults(ps, types[..|types| - 1]);
      var t := types[|types| - 1];
      if Covers(r, t) then r else r + [DefaultPlatformProvider(t)]
  }

  /**
   * What the loop gives: the discovered providers come first and unchanged,
   * every type is then served, each added provider is the default one for a
   * type that was not served before, and no type gets two defaults.
   */
  lemma {:induction false} AddDefaultsLaw(ps: seq<PlatformProvider>, types: seq<string>)
    ensures var r := AddDefaults(ps, types);
      && |ps| <= |r| && r[..|ps|] == ps
      && (forall t :: t in types ==> Covers(r, t))
      && (forall i :: |ps| <= i < |r| ==>
            exists t :: t in types && !Covers(ps, t) && r[i] == DefaultPlatformProvider(t))
      && (forall i, j :: |ps| <= i < j < |r| ==> r[i] != r[j])
  {
    if |types| > 0 {
      var init := types[..|types| - 1];
      var t := types[|types| - 1];
      AddDefaultsLaw(ps, init);
      var prev := AddDefaults(ps, init);
      var r := AddDefaults(ps, types);
      forall u | u in types ensures Covers(r, u) {
        if u != t {
          assert u in init;
          var i :| 0 <= i < |prev| && prev[i].layerProviderType == Some(u);
          assert r[i] == prev[i];
        } else if !Covers(prev, t) {
          assert r[|prev|].layerProviderType == Some(t);
        }
      }
      forall i | |ps| <= i < |r|
        ensures exists u :: u in types && !Covers(ps, u) && r[i] == DefaultPlatformProvider(u)
      {
        if i < |prev| {
          assert r[i] == prev[i];
          assert exists u :: u in init && !Covers(ps, u) && prev[i] == DefaultPlatformProvider(u);
          var u :| u in init && !Covers(ps, u) && prev[i] == DefaultPlatformProvider(u);
          assert u in types;
        } else {
          assert r[i] == DefaultPlatformProvider(t);
          forall j | 0 <= j < |ps| ensures ps[j].layerProviderType != Some(t) {
            assert prev[j] == ps[j];
          }
          assert t in types;
        }
      }
      if !Covers(prev, t) {
        forall i | |ps| <= i < |prev| ensures prev[i] != DefaultPlatformProvider(t) {
          assert prev[i].layerProviderType != Some(t);
        }
      }
    }
  }

  /** The providers that count for HDR: not internal, and supporting it. */
  function HdrProviders(ps: seq<PlatformProvider>): (r: seq<PlatformProvider>)
    ensures forall p :: p in r <==> p in ps && !IsInternal(p) && p.isSupportedHDR
    ensures |r| <= |ps|
  {
    if |ps| == 0 then []
    else
      var init := HdrProviders(ps[..|ps| - 1]);
      var p := ps[|ps| - 1];
      assert ps == ps[..|ps| - 1] + [p];
      if !IsInternal(p) && p.isSupportedHDR then init + [p] else init
  }

  /** Default providers never support HDR, so adding them leaves the HDR list alone. */
  lemma {:induction false} HdrIgnoresDefaults(ps: seq<PlatformProvider>, types: seq<string>)
    ensures HdrProviders(AddDefaults(ps, types)) == HdrProviders(ps)
  {
    if |types| > 0 {
      HdrIgnoresDefaults(ps, types[..|types| - 1]);
      var prev := AddDefaults(ps, types[..|types| - 1]);
      var t := types[|types| - 1];
      if !Covers(prev, t) {
        var r := prev + [DefaultPlatformProvider(t)];
        assert r[..|r| - 1] == prev;
      }
    }
  }

  class EditorPlatformManager {
    var activePlatformProviders: seq<PlatformProvider>
    var activePlatformLayerDataTypes: seq<string>
    var supportingHDRProviders: seq<PlatformProvider>
    /** `PlatformManager.IsSupportedHDR`. */
    var isSupportedHDR: bool

    constructor ()
      ensures activePlatformProviders == [] && activePlatformLayerDataTypes == []
      ensures supportingHDRProviders == [] && !isSupportedHDR
    {
      activePlatformProviders := [];
      activePlatformLayerDataTypes := [];
      supportingHDRProviders := [];
      isSupportedHDR := false;
    }

    /**
     * `Refresh`: the discovered providers, then a default provider for each
     * active layer provider type nobody serves; with no discovered provider
     * only the default emulated one.  Then the HDR list is rebuilt.
     */
    method Refresh(discovered: seq<PlatformProvider>, layerDataTypes: seq<string>, layerProviderTypes: seq<string>)
      modifies this
      ensures |discovered| > 0 ==> activePlatformProviders == AddDefaults(discovered, ActiveLayerProviderTypes(layerProviderTypes))
      ensures |discovered| == 0 ==> activePlatformProviders == [DefaultPlatformProvider(EmulatedLayerProviderType)]
      ensures activePlatformLayerDataTypes == layerDataTypes
      ensures supportingHDRProviders == HdrProviders(activePlatformProviders)
      ensures isSupportedHDR <==> |supportingHDRProviders| > 0
    {
      activePlatformProviders := discovered;
      activePlatformLayerDataTypes := layerDataTypes;
      if |activePlatformProviders| > 0 {
        var types := ActiveLayerProviderTypes(layerProviderTypes);
        var i := 0;
        while i < |types|
          invariant 0 <= i <= |types|
          invariant activePlatformProviders == AddDefaults(discovered, types[..i])
          invariant activePlatformLayerDataTypes == layerDataTypes
        {
          assert types[..i + 1][..i] == types[..i];
          if !Covers(activePlatformProviders, types[i]) {
            activePlatformProviders := activePlatformProviders + [DefaultPlatformProvider(types[i])];
          }
          i := i + 1;
        }
        assert types[..i] == types;
      } else {
        activePlatformProviders := activePlatformProviders + [DefaultPlatformProvider(EmulatedLayerProviderType)];
      }
      RefreshSupportingHDRProviders();
    }

    /** `RefreshSupportingHDRProviders`: the HDR list, and whether it is non-empty. */
    method RefreshSupportingHDRProviders()
      modifies this
      ensures supportingHDRProviders == HdrProviders(activePlatformProviders)
      ensures isSupportedHDR <==> |supportingHDRProviders| > 0
      ensures activePlatformProviders == old(activePlatformProviders)
      ensures activePlatformLayerDataTypes == old(activePlatformLayerDataTypes)
    {
      supportingHDRProviders := [];
      var ps := activePlatformProviders;
      var i := 0;
      while i < |ps|
        invariant 0 <= i <= |ps|
        invariant supportingHDRProviders == HdrProviders(ps[..i])
        invariant activePlatformProviders == ps
        invariant activePlatformLayerDataTypes == old(activePlatformLayerDataTypes)
      {
        assert ps[..i + 1][..i] == ps[..i];
        if !IsInternal(ps[i]) && ps[i].isSupportedHDR {
          supportingHDRProviders := supportingHDRProviders + [ps[i]];
        }
        i := i + 1;
      }
      assert ps[..i] == ps;
      isSupportedHDR := |supportingHDRProviders| > 0;
    }
  }

  /**
   * After a refresh, HDR is supported exactly when some discovered provider
   * that is not internal supports it: the defaults added never do.
   */
  lemma RefreshHdrLaw(discovered: seq<PlatformProvider>, layerProviderTypes: seq<string>)
    ensures var active := if |discovered| > 0 then AddDefaults(discovered, ActiveLayerProviderTypes(layerProviderTypes))
                          else [DefaultPlatformProvider(EmulatedLayerProviderType)];
      |HdrProviders(active)| > 0 <==> exists p :: p in discovered && !IsInternal(p) && p.isSupportedHDR
  {
    if |discovered| > 0 {
      HdrIgnoresDefaults(discovered, ActiveLayerProviderTypes(layerProviderTypes));
      var h := HdrProviders(discovered);
      if |h| > 0 {
        assert h[0] in h;
      }
    }
  }
}
