/**
 * `PlatformSelector`: chooses the active platform provider for the active
 * build target.  Each active XR loader takes the first provider made for its
 * loader type; the first provider so collected becomes active.  The path of
 * the XR general settings asset is cached once known.
 */
module PlatformSelector {
  import opened Wrappers

  /** A platform provider: a name for it, and the XR loader type it is made for (None for none). */
  datatype PlatformProvider = PlatformProvider(name: string, xrLoaderType: Option<string>)

  const XRGeneralSettingsDefaultAssetPath: string := "Assets/XR/XRGeneralSettings.asset"

  /** The inner loop: the first provider made for the loader type. */
  function FirstFor(providers: seq<PlatformProvider>, loaderType: string): (r: Option<PlatformProvider>)
    ensures r.None? <==> forall i :: 0 <= i < |providers| ==> providers[i].xrLoaderType != Some(loaderType)
    ensures r.Some? ==> r.value in providers && r.value.xrLoaderType == Some(loaderType)
  {
    if |providers| == 0 then None
    else if providers[0].xrLoaderType == Some(loaderType) then Some(providers[0])
    else
      assert forall i :: 1 <= i < |providers| ==> providers[i] == providers[1..][i - 1];
      FirstFor(providers[1..], loaderType)
  }

  /** The provider found is the one at the first index made for the loader type. */
  lemma {:induction false} FirstForIs(ps: seq<PlatformProvider>, l: string, j: nat)
    requires j < |ps| && ps[j].xrLoaderType == Some(l)
    requires forall k :: 0 <= k < j ==> ps[k].xrLoaderType != Some(l)
    ensures FirstFor(ps, l) == Some(ps[j])
  {
    if j > 0 {
      assert ps[0].xrLoaderType != Some(l);
      FirstForIs(ps[1..], l, j - 1);
    }
  }

  /** The outer loop: for each loader in order, at most one provider is collected. */
  function Collect(providers: seq<PlatformProvider>, loaders: seq<string>): seq<PlatformProvider>
  {
    if |loaders| == 0 then []
    else
      var f := FirstFor(providers, loaders[|loaders| - 1]);
      Collect(providers, loaders[..|loaders| - 1]) + (if f.Some? then [f.value] else [])
  }

  /**
   * The collected providers follow loader order: collecting over two runs of
   * loaders concatenates, there are at most as many as loaders, and each is
   * made for one of the loaders.
   */
  lemma {:induction false} CollectLaw(providers: seq<PlatformProvider>, loaders: seq<string>, more: seq<string>)
    ensures Collect(providers, loaders + more) == Collect(providers, loaders) + Collect(providers, more)
    ensures |Collect(providers, loaders)| <= |loaders|
    ensures forall p :: p in Collect(providers, loaders) ==>
      p in providers && exists l :: l in loaders && p.xrLoaderType == Some(l)
    decreases |more|
  {
    if |more| == 0 {
      assert loaders + more == loaders;
      CollectBounds(providers, loaders);
    } else {
      var init := more[..|more| - 1];
      assert loaders + more == (loaders + init) + [more[|more| - 1]];
      assert (loaders + more)[..|loaders + more| - 1] == loaders + init;
      CollectLaw(providers, loaders, init);
    }
  }

  lemma {:induction false} CollectBounds(providers: seq<PlatformProvider>, loaders: seq<string>)
    ensures |Collect(providers, loaders)| <= |loaders|
    ensures forall p :: p in Collect(providers, loaders) ==>
      p in providers && exists l :: l in loaders && p.xrLoaderType == Some(l)
  {
    if |loaders| > 0 {
      var init := loaders[..|loaders| - 1];
      var l := loaders[|loaders| - 1];
      CollectBounds(providers, init);
      forall p | p in Collect(providers, loaders)
        ensures p in providers && exists l' :: l' in loaders && p.xrLoaderType == Some(l')
      {
        if p in Collect(providers, init) {
          var l' :| l' in init && p.xrLoaderType == Some(l');
          assert l' in loaders;
        } else {
          assert l in loaders;
        }
      }
    }
  }

  /** `UpdateActivePlatformProviders` as a value: the first collected provider, or None. */
  function ActiveProvider(providers: Option<seq<PlatformProvider>>, loaders: Option<seq<string>>): Option<PlatformProvider>
  {
    if providers.None? || loaders.None? then None
    else
      var c := Collect(providers.value, loaders.value);
      if |c| > 0 then Some(c[0]) else None
  }

  /**
   * The active provider: None without providers or loaders, or when no
   * loader has a provider; otherwise the first provider made for the first
   * loader that has one.
   */
  lemma ActiveProviderLaw(providers: seq<PlatformProvider>, loaders: seq<string>)
    ensures ActiveProvider(None, Some(loaders)).None? && ActiveProvider(Some(providers), None).None?
    ensures ActiveProvider(Some(providers), Some(loaders)).None? <==>
      forall j :: 0 <= j < |loaders| ==> FirstFor(providers, loaders[j]).None?
    ensures forall j :: 0 <= j < |loaders| && FirstFor(providers, loaders[j]).Some?
                        && (forall k :: 0 <= k < j ==> FirstFor(providers, loaders[k]).None?) ==>
      ActiveProvider(Some(providers), Some(loaders)) == FirstFor(providers, loaders[j])
  {
    CollectEmpty(providers, loaders);
    forall j | 0 <= j < |loaders| && FirstFor(providers, loaders[j]).Some?
               && (forall k :: 0 <= k < j ==> FirstFor(providers, loaders[k]).None?)
      ensures ActiveProvider(Some(providers), Some(loaders)) == FirstFor(providers, loaders[j])
    {
      CollectHead(providers, loaders, j);
    }
  }

  /** Nothing is collected exactly when no loader has a provider. */
  lemma {:induction false} CollectEmpty(providers: seq<PlatformProvider>, loaders: seq<string>)
    ensures Collect(providers, loaders) == [] <==> forall j :: 0 <= j < |loaders| ==> FirstFor(providers, loaders[j]).None?
    decreases |loaders|
  {
    if |loaders| > 0 {
      var init := loaders[..|loaders| - 1];
      CollectEmpty(providers, init);
      assert forall j :: 0 <= j < |init| ==> init[j] == loaders[j];
    }
  }

  /** The first provider collected is the one of the first loader that has one. */
  lemma {:induction false} CollectHead(providers: seq<PlatformProvider>, loaders: seq<string>, j: nat)
    requires j < |loaders| && FirstFor(providers, loaders[j]).Some?
    requires forall k :: 0 <= k < j ==> FirstFor(providers, loaders[k]).None?
    ensures |Collect(providers, loaders)| > 0 && Collect(providers, loaders)[0] == FirstFor(providers, loaders[j]).value
    decreases |loaders|
  {
    var init := loaders[..|loaders| - 1];
    if j == |loaders| - 1 {
      CollectEmpty(providers, init);
      assert forall k :: 0 <= k < |init| ==> init[k] == loaders[k];
    } else {
      assert init[j] == loaders[j];
      assert forall k :: 0 <= k < j ==> init[k] == loaders[k];
      CollectHead(providers, init, j);
    }
  }

  class PlatformSelector {
    /** `PlatformManager.ActivePlatformProvider`. */
    var activePlatformProvider: Option<PlatformProvider>
    /** The cached settings path. */
    var xrGeneralSettingsAssetPath: Option<string>

    constructor ()
      ensures activePlatformProvider == None && xrGeneralSettingsAssetPath == None
    {
      activePlatformProvider := None;
      xrGeneralSettingsAssetPath := None;
    }

    /** `UpdateActivePlatformProviders`: the nested loops over loaders and providers. */
    method UpdateActivePlatformProviders(providers: Option<seq<PlatformProvider>>, loaders: Option<seq<string>>)
      modifies this
      ensures activePlatformProvider == ActiveProvider(providers, loaders)
      ensures xrGeneralSettingsAssetPath == old(xrGeneralSettingsAssetPath)
    {
      if providers.None? || loaders.None? {
        activePlatformProvider := None;
        return;
      }
      var ps := providers.value;
      var ls := loaders.value;
      var collected: seq<PlatformProvider> := [];
      var i := 0;
      while i < |ls|
        invariant 0 <= i <= |ls|
        invariant collected == Collect(ps, ls[..i])
        invariant xrGeneralSettingsAssetPath == old(xrGeneralSettingsAssetPath)
      {
        assert ls[..i + 1][..i] == ls[..i];
        var j := 0;
        while j < |ps|
          invariant 0 <= j <= |ps|
          invariant forall k :: 0 <= k < j ==> ps[k].xrLoaderType != Some(ls[i])
        {
          if Some(ls[i]) == ps[j].xrLoaderType {
            break;
          }
          j := j + 1;
        }
        if j < |ps| {
          FirstForIs(ps, ls[i], j);
          collected := collected + [ps[j]];
        }
        i := i + 1;
      }
      assert ls[..i] == ls;
      activePlatformProvider := if |collected| > 0 then Some(collected[0]) else None;
    }

    /**
     * `GetXRGeneralSettingsAssetPath`: the cached path once set; otherwise the
     * default path, uncached, when there is no settings object, or the
     * object's path, which is cached.
     */
    method GetXRGeneralSettingsAssetPath(settingsObjectPath: Option<Option<string>>) returns (path: string)
      modifies this
      ensures (path, xrGeneralSettingsAssetPath) == SettingsPath(old(xrGeneralSettingsAssetPath), settingsObjectPath)
      ensures activePlatformProvider == old(activePlatformProvider)
    {
      if xrGeneralSettingsAssetPath.Some? {
        return xrGeneralSettingsAssetPath.value;
      }
      if settingsObjectPath.None? {
        return XRGeneralSettingsDefaultAssetPath;
      }
      xrGeneralSettingsAssetPath := settingsObjectPath.value;
      path := if xrGeneralSettingsAssetPath.Some? then xrGeneralSettingsAssetPath.value else XRGeneralSettingsDefaultAssetPath;
    }
  }

  /**
   * The path lookup as a value: the returned path and the new cache.  The
   * settings object is None when missing, and otherwise holds its asset path
   * (None for a null one).
   */
  function SettingsPath(cache: Option<string>, settingsObjectPath: Option<Option<string>>): (string, Option<string>)
  {
    if cache.Some? then (cache.value, cache)
    else if settingsObjectPath.None? then (XRGeneralSettingsDefaultAssetPath, cache)
    else (if settingsObjectPath.value.Some? then settingsObjectPath.value.value else XRGeneralSettingsDefaultAssetPath,
          settingsObjectPath.value)
  }

  /**
   * Caching: a set cache answers every later call unchanged, a missing
   * settings object leaves the cache empty, and once a path has been cached
   * every later call returns it whatever the settings object is.
   */
  lemma SettingsPathLaw(cache: Option<string>, first: Option<Option<string>>, later: Option<Option<string>>)
    ensures cache.Some? ==> SettingsPath(cache, first) == (cache.value, cache)
    ensures cache.None? && first.None? ==> SettingsPath(cache, first) == (XRGeneralSettingsDefaultAssetPath, None)
    ensures var (p, c) := SettingsPath(cache, first);
      c.Some? ==> SettingsPath(c, later) == (p, c)
  {
  }
}
