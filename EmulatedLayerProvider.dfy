/**
 * `EmulatedLayerProvider`: the layer provider that draws composition layers
 * in the editor's game and scene views.  It keeps one emulated layer per
 * layer id, rebuilds the sorted list of drawn layers and the list of cameras
 * that show emulation, and hands the sorted layers either to the scriptable
 * render pipeline passes or to the built-in pipeline's camera command
 * buffers.
 */
module EmulatedLayerProvider {
  import opened Wrappers
  import opened LayerProviderState
  import EmulationRenderer

  // ---------------------------------------------------------------------
  // Camera events
  // ---------------------------------------------------------------------

  datatype RenderingPath = Forward | DeferredShading | VertexLit | Legacy
  datatype CameraEvent = BeforeForwardOpaque | BeforeGBuffer | AfterImageEffects

  /**
   * `GetUnderlayCameraEvents` / `GetOverlayCameraEvents`: overlays are drawn
   * after the image effects on every path; underlays before the G-buffer
   * with deferred shading and before the opaque forward pass otherwise.
   */
  function CameraEvents(path: RenderingPath, overlay: bool): (r: seq<CameraEvent>)
    ensures |r| == 1
    ensures overlay ==> r[0] == AfterImageEffects
    ensures !overlay ==> (r[0] == BeforeGBuffer <==> path == DeferredShading)
    ensures !overlay ==> r[0] != AfterImageEffects
  {
    if overlay then [AfterImageEffects]
    else if path != DeferredShading then [BeforeForwardOpaque] else [BeforeGBuffer]
  }

  // ---------------------------------------------------------------------
  // The active pass, with the lost-reference branch
  // ---------------------------------------------------------------------

  /** A layer whose component has been destroyed reads as null. */
  function Live(info: LayerInfo, destroyed: set<nat>): (r: LayerInfo)
    ensures r.id == info.id
    ensures r.layer.Some? <==> info.layer.Some? && info.layer.value.objectId !in destroyed
    ensures r.layer.Some? ==> r.layer == info.layer
  {
    if info.layer.Some? && info.layer.value.objectId in destroyed then LayerInfo(info.id, None) else info
  }

  /**
   * One id of `UpdateActiveStateOnLayers`: a missing entry is created and
   * modified; an entry whose component was destroyed is disposed and made
   * again, and when that yields nothing the pass stops (the flag); a
   * present entry is then refreshed, reading its component.
   */
  function ActiveStep(p: State, info0: LayerInfo, destroyed: set<nat>): (r: (State, bool))
    ensures forall k :: k in p.all ==> k in r.0.all
    ensures forall k :: k in p.all && k != info0.id ==> r.0.all[k] == p.all[k]
    ensures forall k :: k in r.0.all ==> k in p.all || (k == info0.id && Live(info0, destroyed).layer.Some?)
    ensures info0.id in p.all && p.all[info0.id].objectId !in destroyed && Live(info0, destroyed).layer.None? ==>
      r.0.all[info0.id] == p.all[info0.id]
    ensures p.log <= r.0.log
    ensures r.1 <==> info0.id in p.all && p.all[info0.id].objectId in destroyed && Live(info0, destroyed).layer.None?
    ensures !r.1 && info0.id in r.0.all ==> |r.0.log| > 0 && r.0.log[|r.0.log| - 1] == Updated(info0.id)
    ensures !r.1 && Live(info0, destroyed).layer.Some? ==> info0.id in r.0.all
    ensures !r.1 && Live(info0, destroyed).layer.Some? ==> r.0.all[info0.id] == Live(info0, destroyed).layer.value
    ensures forall k :: k in r.0.all && !(k in p.all && r.0.all[k] == p.all[k]) ==> r.0.all[k].objectId !in destroyed
  {
    var info := Live(info0, destroyed);
    var id := info.id;
    if id !in p.all && info.layer.None? then (p, false)
    else
      var q := if id in p.all then p else var c := Create(p, info); State(c.0.all, c.0.log + [Modified(id)]);
      var l := q.all[id];
      if l.objectId in destroyed then
        var d := State(q.all, q.log + [Disposed(id)]);
        var c := Create(d, info);
        if !c.1 then (d, true)
        else (Refresh(State(c.0.all, c.0.log + [Modified(id)]), id, info.layer.value), false)
      else (Refresh(State(ReadComponent(q.all, info), q.log), id, l), false)
  }

  /** `UpdateActiveStateOnLayers`: one step per entry until a step stops the pass. */
  function Active(s: State, infos: seq<LayerInfo>, destroyed: set<nat>): (State, bool)
    decreases |infos|
  {
    if infos == [] then (s, false)
    else
      var p := Active(s, infos[..|infos| - 1], destroyed);
      if p.1 then p else ActiveStep(p.0, Last(infos), destroyed)
  }

  /** Some entry gives the id a layer whose component still exists. */
  ghost predicate GivenLive(infos: seq<LayerInfo>, k: int, destroyed: set<nat>)
  {
    exists i :: 0 <= i < |infos| && infos[i].id == k && Live(infos[i], destroyed).layer.Some?
  }

  /** The entries a stopped pass may have stopped at: present before, destroyed, and given no live layer. */
  ghost predicate StopsAt(s: State, infos: seq<LayerInfo>, destroyed: set<nat>)
  {
    exists i :: 0 <= i < |infos| && infos[i].id in s.all && s.all[infos[i].id].objectId in destroyed
                && Live(infos[i], destroyed).layer.None?
  }

  /** Both predicates carry over from the front of a sequence to the whole. */
  lemma GivenLiveSnoc(infos: seq<LayerInfo>, s: State, destroyed: set<nat>)
    requires |infos| > 0
    ensures forall k :: GivenLive(infos, k, destroyed) <==>
      GivenLive(infos[..|infos| - 1], k, destroyed) || (Last(infos).id == k && Live(Last(infos), destroyed).layer.Some?)
    ensures StopsAt(s, infos[..|infos| - 1], destroyed) ==> StopsAt(s, infos, destroyed)
  {
    var front := infos[..|infos| - 1];
    forall k | GivenLive(front, k, destroyed) ensures GivenLive(infos, k, destroyed) {
      var i :| 0 <= i < |front| && front[i].id == k && Live(front[i], destroyed).layer.Some?;
      assert infos[i] == front[i];
    }
    forall k | GivenLive(infos, k, destroyed) && !(Last(infos).id == k && Live(Last(infos), destroyed).layer.Some?)
      ensures GivenLive(front, k, destroyed)
    {
      var i :| 0 <= i < |infos| && infos[i].id == k && Live(infos[i], destroyed).layer.Some?;
      assert front[i] == infos[i];
    }
    if StopsAt(s, front, destroyed) {
      var i :| 0 <= i < |front| && front[i].id in s.all && s.all[front[i].id].objectId in destroyed
               && Live(front[i], destroyed).layer.None?;
      assert infos[i] == front[i];
    }
  }

  /** Some entry gives the id exactly this live layer. */
  ghost predicate GivenLiveAs(infos: seq<LayerInfo>, k: int, l: Layer, destroyed: set<nat>)
  {
    exists i :: 0 <= i < |infos| && infos[i].id == k && Live(infos[i], destroyed).layer == Some(l)
  }

  /**
   * The active pass never drops an entry; an entry whose component still
   * exists and that no entry hands a live component keeps its layer; every
   * entry it changes or adds holds a live layer some entry gives it; it only
   * adds ids given a live layer; and when it stops, it stopped at an entry
   * whose component was destroyed and for which no live layer was given.
   */
  lemma {:induction false} ActiveLaw(s: State, infos: seq<LayerInfo>, destroyed: set<nat>)
    ensures var r := Active(s, infos, destroyed);
      && (forall k :: k in s.all ==> k in r.0.all)
      && (forall k :: k in s.all && s.all[k].objectId !in destroyed && !GivenLive(infos, k, destroyed) ==>
            r.0.all[k] == s.all[k])
      && (forall k :: k in r.0.all ==> k in s.all || GivenLive(infos, k, destroyed))
      && (forall k :: k in r.0.all && !(k in s.all && r.0.all[k] == s.all[k]) ==>
            GivenLiveAs(infos, k, r.0.all[k], destroyed))
      && (forall k :: k in r.0.all && k !in s.all ==> r.0.all[k].objectId !in destroyed)
      && s.log <= r.0.log
      && (r.1 ==> StopsAt(s, infos, destroyed))
    decreases |infos|
  {
    if infos != [] {
      var front := infos[..|infos| - 1];
      ActiveLaw(s, front, destroyed);
      GivenLiveSnoc(infos, s, destroyed);
      var p := Active(s, front, destroyed);
      var info := Last(infos);
      forall k, l | GivenLiveAs(front, k, l, destroyed) ensures GivenLiveAs(infos, k, l, destroyed) {
        var i :| 0 <= i < |front| && front[i].id == k && Live(front[i], destroyed).layer == Some(l);
        assert infos[i] == front[i];
      }
      if !p.1 {
        var r := ActiveStep(p.0, info, destroyed);
        assert infos[|infos| - 1] == info;
        if r.1 {
          assert info.id in s.all;
        }
      }
    }
  }

  /** The entries as the pass sees them: each component the engine has destroyed reads as null. */
  function LiveInfos(infos: seq<LayerInfo>, destroyed: set<nat>): (r: seq<LayerInfo>)
    ensures |r| == |infos| && forall i :: 0 <= i < |infos| ==> r[i] == Live(infos[i], destroyed)
  {
    seq(|infos|, i requires 0 <= i < |infos| => Live(infos[i], destroyed))
  }

  /**
   * A pass that runs to the end leaves every id handed a live component
   * holding the state of the last live component it was handed.
   */
  lemma {:induction false} ActiveReadsLive(s: State, infos: seq<LayerInfo>, destroyed: set<nat>)
    ensures var r := Active(s, infos, destroyed);
      !r.1 ==> forall k :: GivenLive(infos, k, destroyed) ==>
                 k in r.0.all && LastGiven(LiveInfos(infos, destroyed), k, r.0.all[k])
    decreases |infos|
  {
    if infos != [] {
      var front := infos[..|infos| - 1];
      ActiveReadsLive(s, front, destroyed);
      GivenLiveSnoc(infos, s, destroyed);
      var lv := LiveInfos(infos, destroyed);
      assert lv[..|lv| - 1] == LiveInfos(front, destroyed);
      LastGivenSnoc(lv);
      var p := Active(s, front, destroyed);
      var r := Active(s, infos, destroyed);
      var info := Last(infos);
      assert Last(lv) == Live(info, destroyed);
      if !r.1 {
        assert !p.1;
        forall k | GivenLive(infos, k, destroyed) ensures k in r.0.all && LastGiven(lv, k, r.0.all[k]) {
          if !(k == info.id && Live(info, destroyed).layer.Some?) {
            assert k in p.0.all && LastGiven(LiveInfos(front, destroyed), k, p.0.all[k]);
          }
        }
      }
    }
  }

  /** A pass that runs to the end leaves every id given a live layer present and updated. */
  lemma {:induction false} ActiveCompleteLaw(s: State, infos: seq<LayerInfo>, destroyed: set<nat>)
    ensures var r := Active(s, infos, destroyed);
      !r.1 ==> s.log <= r.0.log && forall i :: 0 <= i < |infos| && Live(infos[i], destroyed).layer.Some? ==>
                  infos[i].id in r.0.all && Updated(infos[i].id) in r.0.log[|s.log|..]
    decreases |infos|
  {
    ActiveLaw(s, infos, destroyed);
    if infos != [] {
      var front := infos[..|infos| - 1];
      ActiveCompleteLaw(s, front, destroyed);
      ActiveLaw(s, front, destroyed);
      var p := Active(s, front, destroyed);
      var r := Active(s, infos, destroyed);
      var info := Last(infos);
      if !r.1 {
        assert !p.1;
        assert p.0.log[|s.log|..] <= r.0.log[|s.log|..];
        forall i | 0 <= i < |infos| && Live(infos[i], destroyed).layer.Some?
          ensures infos[i].id in r.0.all && Updated(infos[i].id) in r.0.log[|s.log|..]
        {
          if i < |front| {
            assert front[i] == infos[i];
          } else {
            assert infos[i] == info;
            assert r.0.log[|s.log|..][|r.0.log| - 1 - |s.log|] == Updated(info.id);
          }
        }
      }
    }
  }

  /** Once the pass has stopped, the entries after the stopping one are not looked at. */
  lemma {:induction false} ActiveStopsEarly(s: State, infos: seq<LayerInfo>, destroyed: set<nat>, n: nat)
    requires n <= |infos| && Active(s, infos[..n], destroyed).1
    ensures Active(s, infos, destroyed) == Active(s, infos[..n], destroyed)
    decreases |infos| - n
  {
    if n < |infos| {
      assert infos[..|infos| - 1][..n] == infos[..n];
      ActiveStopsEarly(s, infos[..|infos| - 1], destroyed, n);
    } else {
      assert infos[..n] == infos;
    }
  }

  // ---------------------------------------------------------------------
  // Cameras that show emulation
  // ---------------------------------------------------------------------

  /** What the editor reports when the cameras are collected. */
  datatype Env = Env(
    managerActive: bool,
    isPlaying: bool,
    emulationInPlayMode: bool,
    emulationInScene: bool,
    mainCamera: Option<nat>,
    sceneCameras: seq<nat>,
    scriptablePipelineSupported: bool)

  /**
   * The editor's active cameras: the main camera (when there is one) while
   * not playing or while emulation in play mode is on, then every scene
   * view's camera while emulation in the scene view is on.
   */
  function ActiveCameras(env: Env): (r: seq<nat>)
    ensures forall c :: c in r <==>
      ((!env.isPlaying || env.emulationInPlayMode) && env.mainCamera == Some(c))
      || (env.emulationInScene && c in env.sceneCameras)
  {
    (if (!env.isPlaying || env.emulationInPlayMode) && env.mainCamera.Some? then [env.mainCamera.value] else [])
    + (if env.emulationInScene then env.sceneCameras else [])
  }

  /** A built-in pipeline command buffer attached to or detached from cameras. */
  datatype BufferCall = Attach(id: int, cameras: seq<nat>) | Detach(id: int, cameras: seq<nat>)

  /** One detach per sorted layer, in order. */
  function Detaches(sorted: seq<Entry>, cameras: seq<nat>): (r: seq<BufferCall>)
    ensures |r| == |sorted| && forall i :: 0 <= i < |r| ==> r[i] == Detach(sorted[i].id, cameras)
  {
    seq(|sorted|, i requires 0 <= i < |sorted| => Detach(sorted[i].id, cameras))
  }

  /** One attach per sorted layer, in order. */
  function Attaches(sorted: seq<Entry>, cameras: seq<nat>): (r: seq<BufferCall>)
    ensures |r| == |sorted| && forall i :: 0 <= i < |r| ==> r[i] == Attach(sorted[i].id, cameras)
  {
    seq(|sorted|, i requires 0 <= i < |sorted| => Attach(sorted[i].id, cameras))
  }

  /** The scriptable pipeline's loop: every sorted layer handed to the list of its kind, in order. */
  method AddAllToPipeline(sorted: seq<Entry>, manager: EmulationRenderer.ScriptableRendererManager)
    modifies manager
    ensures manager.underlay == old(manager.underlay) + Ids(OfKind(sorted, false))
    ensures manager.overlay == old(manager.overlay) + Ids(OfKind(sorted, true))
  {
    for i := 0 to |sorted|
      invariant manager.underlay == old(manager.underlay) + KindIds(sorted[..i], false)
      invariant manager.overlay == old(manager.overlay) + KindIds(sorted[..i], true)
    {
      assert sorted[..i + 1][..i] == sorted[..i];
      manager.Add(sorted[i].id, sorted[i].layer.order);
    }
    assert sorted[..|sorted|] == sorted;
    KindIdsAreIds(sorted, false);
    KindIdsAreIds(sorted, true);
  }

  // ---------------------------------------------------------------------
  // The provider
  // ---------------------------------------------------------------------

  class EmulatedLayerProvider {
    var all: map<int, Layer>
    var log: seq<Event>
    var sortedLayers: seq<Entry>
    var activeCameras: seq<nat>
    var bufferCalls: seq<BufferCall>

    constructor ()
      ensures all == map[] && log == [] && sortedLayers == [] && activeCameras == [] && bufferCalls == []
    {
      all := map[];
      log := [];
      sortedLayers := [];
      activeCameras := [];
      bufferCalls := [];
    }

    /** `CreateEmulationLayerObject`. */
    method CreateEmulationLayerObject(info: LayerInfo) returns (created: bool)
      modifies this`all, this`log
      ensures (State(all, log), created) == Create(old(State(all, log)), info)
    {
      if info.layer.None? {
        return false;
      }
      log := log + [Created(info.id), Modified(info.id), Updated(info.id)];
      all := all[info.id := info.layer.value];
      created := true;
    }

    /** `AddCreatedLayers`. */
    method AddCreatedLayers(infos: seq<LayerInfo>)
      modifies this`all, this`log
      ensures State(all, log) == AddCreated(old(State(all, log)), infos)
    {
      if |infos| == 0 {
        return;
      }
      ghost var s0 := State(all, log);
      for i := 0 to |infos|
        invariant State(all, log) == AddCreated(s0, infos[..i])
      {
        assert infos[..i + 1][..i] == infos[..i];
        if infos[i].id !in all {
          var _ := CreateEmulationLayerObject(infos[i]);
        }
      }
      assert infos[..|infos|] == infos;
    }

    /** `RemoveDestroyedLayers`. */
    method RemoveDestroyedLayers(ids: seq<int>)
      modifies this`all, this`log
      ensures State(all, log) == RemoveDestroyed(old(State(all, log)), ids)
    {
      if |ids| == 0 {
        return;
      }
      ghost var s0 := State(all, log);
      for i := 0 to |ids|
        invariant State(all, log) == RemoveDestroyed(s0, ids[..i])
      {
        assert ids[..i + 1][..i] == ids[..i];
        if ids[i] in all {
          log := log + [Disposed(ids[i])];
        }
        all := all - {ids[i]};
      }
      assert ids[..|ids|] == ids;
    }

    /** `ModifyChangedLayers`. */
    method ModifyChangedLayers(infos: seq<LayerInfo>)
      modifies this`all, this`log
      ensures State(all, log) == ModifyChanged(old(State(all, log)), infos)
    {
      if |infos| == 0 {
        return;
      }
      ghost var s0 := State(all, log);
      for i := 0 to |infos|
        invariant State(all, log) == ModifyChanged(s0, infos[..i])
      {
        assert infos[..i + 1][..i] == infos[..i];
        var present := infos[i].id in all;
        if present {
          all := ReadComponent(all, infos[i]);
        } else {
          present := CreateEmulationLayerObject(infos[i]);
        }
        if present {
          log := log + [Modified(infos[i].id)];
        }
      }
      assert infos[..|infos|] == infos;
    }

    /** Modify (when the data is missing) and update the emulated layer of `id`. */
    method RefreshLayer(id: int, l: Layer)
      modifies this`log
      ensures State(all, log) == Refresh(old(State(all, log)), id, l)
    {
      if !l.hasData {
        log := log + [Modified(id)];
      }
      log := log + [Updated(id)];
    }

    /** `UpdateActiveStateOnLayers`; `destroyed` names the components the engine has destroyed. */
    method UpdateActiveStateOnLayers(infos: seq<LayerInfo>, destroyed: set<nat>)
      modifies this`all, this`log
      ensures State(all, log) == Active(old(State(all, log)), infos, destroyed).0
    {
      if |infos| == 0 {
        return;
      }
      ghost var s0 := State(all, log);
      for i := 0 to |infos|
        invariant Active(s0, infos[..i], destroyed) == (State(all, log), false)
      {
        assert infos[..i + 1][..i] == infos[..i];
        var info := Live(infos[i], destroyed);
        var id := info.id;
        var present := id in all;
        if !present {
          present := CreateEmulationLayerObject(info);
          if present {
            log := log + [Modified(id)];
          }
        }
        if present {
          var l := all[id];
          if l.objectId in destroyed {
            log := log + [Disposed(id)];
            var again := CreateEmulationLayerObject(info);
            if !again {
              ActiveStopsEarly(s0, infos, destroyed, i + 1);
              return;
            }
            log := log + [Modified(id)];
            l := all[id];
          } else {
            all := ReadComponent(all, info);
          }
          RefreshLayer(id, l);
        }
      }
      assert infos[..|infos|] == infos;
    }

    /** `SetInitialState`: the dictionary is emptied, then the given layers are added. */
    method SetInitialState(layers: seq<LayerInfo>)
      modifies this`all, this`log
      ensures State(all, log) == AddCreated(State(map[], old(log)), layers)
    {
      all := map[];
      AddCreatedLayers(layers);
    }

    /**
     * `UpdateActiveCamerasAndSortedLayers`: nothing without an active
     * manager; otherwise the active cameras are collected and the drawn
     * layers are gathered and sorted by order.
     */
    method UpdateActiveCamerasAndSortedLayers(env: Env)
      modifies this`activeCameras, this`sortedLayers
      ensures !env.managerActive ==> activeCameras == old(activeCameras) && sortedLayers == old(sortedLayers)
      ensures env.managerActive ==> activeCameras == ActiveCameras(env)
      ensures env.managerActive ==>
        SortedByOrder(sortedLayers) && DistinctIds(sortedLayers)
        && forall e :: e in sortedLayers <==> DrawnEntry(all, e)
    {
      if !env.managerActive {
        return;
      }
      activeCameras := [];
      if !env.isPlaying || env.emulationInPlayMode {
        if env.mainCamera.Some? {
          activeCameras := activeCameras + [env.mainCamera.value];
        }
      }
      if env.emulationInScene {
        activeCameras := activeCameras + env.sceneCameras;
      }
      var drawn := GatherDrawn(all);
      if |drawn| == 0 {
        sortedLayers := [];
        return;
      }
      var sorted := SortByOrder(drawn);
            sortedLayers := sorted;
    }

    /**
     * `SetupRenderPipelineCommandBuffers`: with an active manager the
     * cameras and sorted layers are refreshed; a supported scriptable
     * pipeline then receives every sorted layer, each in the list of its
     * kind, and the built-in pipeline instead attaches every sorted layer to
     * the active cameras.
     */
    method SetupRenderPipelineCommandBuffers(env: Env, manager: EmulationRenderer.ScriptableRendererManager)
      modifies this`activeCameras, this`sortedLayers, this`bufferCalls, manager
      ensures !env.managerActive ==> unchanged(this, manager)
      ensures env.managerActive ==>
        (activeCameras == ActiveCameras(env)
         && SortedByOrder(sortedLayers) && DistinctIds(sortedLayers)
         && (forall e :: e in sortedLayers <==> DrawnEntry(all, e)))
      ensures env.managerActive && env.scriptablePipelineSupported ==>
        && manager.underlay == old(manager.underlay) + Ids(OfKind(sortedLayers, false))
        && manager.overlay == old(manager.overlay) + Ids(OfKind(sortedLayers, true))
        && bufferCalls == old(bufferCalls)
      ensures env.managerActive && !env.scriptablePipelineSupported ==>
        && bufferCalls == old(bufferCalls) + Attaches(sortedLayers, activeCameras)
        && manager.underlay == old(manager.underlay) && manager.overlay == old(manager.overlay)
    {
      if !env.managerActive {
        return;
      }
      UpdateActiveCamerasAndSortedLayers(env);
      if env.scriptablePipelineSupported {
        AddAllToPipeline(sortedLayers, manager);
      } else {
        AttachAll();
      }
    }

    /** The built-in pipeline's loop: every sorted layer attached to the active cameras, in order. */
    method AttachAll()
      modifies this`bufferCalls
      ensures bufferCalls == old(bufferCalls) + Attaches(sortedLayers, activeCameras)
    {
      for i := 0 to |sortedLayers|
        invariant bufferCalls == old(bufferCalls) + Attaches(sortedLayers[..i], activeCameras)
      {
        bufferCalls := bufferCalls + [Attach(sortedLayers[i].id, activeCameras)];
      }
      assert sortedLayers[..|sortedLayers|] == sortedLayers;
    }

    /**
     * `TearDownRenderPipelineCommandBuffers`: both pipeline lists are
     * emptied and every sorted layer is detached from the active cameras.
     */
    method TearDownRenderPipelineCommandBuffers(manager: EmulationRenderer.ScriptableRendererManager)
      modifies this`bufferCalls, manager
      ensures manager.underlay == [] && manager.overlay == []
      ensures bufferCalls == old(bufferCalls) + Detaches(sortedLayers, activeCameras)
    {
      manager.Clear();
      for i := 0 to |sortedLayers|
        invariant bufferCalls == old(bufferCalls) + Detaches(sortedLayers[..i], activeCameras)
        invariant manager.underlay == [] && manager.overlay == []
      {
        bufferCalls := bufferCalls + [Detach(sortedLayers[i].id, activeCameras)];
      }
      assert sortedLayers[..|sortedLayers|] == sortedLayers;
    }

    /**
     * `CleanupState`: after the tear-down every emulated layer is disposed,
     * once each, and the dictionary is emptied.
     */
    method CleanupState(manager: EmulationRenderer.ScriptableRendererManager)
      modifies this`all, this`log, this`bufferCalls, manager
      ensures all == map[] && old(log) <= log
      ensures |log| - |old(log)| == |old(all).Keys|
      ensures forall e :: e in log[|old(log)|..] <==> e.Disposed? && e.id in old(all)
      ensures manager.underlay == [] && manager.overlay == []
      ensures bufferCalls == old(bufferCalls) + Detaches(sortedLayers, activeCameras)
    {
      TearDownRenderPipelineCommandBuffers(manager);
      DisposeAll();
    }

    /** Every emulated layer disposed, once each, and the dictionary emptied. */
    method DisposeAll()
      modifies this`all, this`log
      ensures all == map[] && old(log) <= log
      ensures |log| - |old(log)| == |old(all).Keys|
      ensures forall e :: e in log[|old(log)|..] <==> e.Disposed? && e.id in old(all)
    {
      ghost var log0 := log;
      var rest := all;
      while exists k :: k in rest
        invariant all == old(all)
        invariant rest.Keys <= old(all).Keys && log0 <= log
        invariant |log| - |log0| + |rest.Keys| == |old(all).Keys|
        invariant forall e :: e in log[|log0|..] <==> e.Disposed? && e.id in old(all) && e.id !in rest
        decreases |rest.Keys|
      {
        var k :| k in rest;
        assert rest.Keys == (rest - {k}).Keys + {k};
        ghost var before := log;
        log := log + [Disposed(k)];
        assert log[|log0|..] == before[|log0|..] + [Disposed(k)];
        rest := rest - {k};
      }
      all := map[];
    }

    /**
     * `UpdateLayers`: tear down, then the created, removed, modified and
     * active passes in that order, then set up again.
     */
    method UpdateLayers(created: seq<LayerInfo>, removed: seq<int>, modified: seq<LayerInfo>, active: seq<LayerInfo>,
                        destroyed: set<nat>, env: Env, manager: EmulationRenderer.ScriptableRendererManager)
      modifies this, manager
      ensures State(all, log) ==
        Active(ModifyChanged(RemoveDestroyed(AddCreated(old(State(all, log)), created), removed), modified), active, destroyed).0
      ensures env.managerActive ==>
        (activeCameras == ActiveCameras(env)
         && SortedByOrder(sortedLayers) && (forall e :: e in sortedLayers <==> DrawnEntry(all, e)))
      ensures env.managerActive && env.scriptablePipelineSupported ==>
        manager.underlay == Ids(OfKind(sortedLayers, false)) && manager.overlay == Ids(OfKind(sortedLayers, true))
    {
      TearDownRenderPipelineCommandBuffers(manager);
      AddCreatedLayers(created);
      RemoveDestroyedLayers(removed);
      ModifyChangedLayers(modified);
      UpdateActiveStateOnLayers(active, destroyed);
      SetupRenderPipelineCommandBuffers(env, manager);
    }
  }

  // ---------------------------------------------------------------------
  // The static connection state
  // ---------------------------------------------------------------------

  /** A call that touches the warning flag. */
  datatype FlagCall = ConnectCall | WarnCall

  /** The flag and the number of warnings after one call. */
  function WarnStep(flag: bool, warnings: nat, call: FlagCall): (bool, nat)
  {
    match call
    case ConnectCall => (true, warnings)
    case WarnCall => if flag then (false, warnings + 1) else (flag, warnings)
  }

  /** The flag and the warning count after a run of calls. */
  function Replay(flag: bool, warnings: nat, calls: seq<FlagCall>): (bool, nat)
    decreases |calls|
  {
    if calls == [] then (flag, warnings)
    else
      var p := Replay(flag, warnings, calls[..|calls| - 1]);
      WarnStep(p.0, p.1, Last(calls))
  }

  /**
   * Between two connects the warning is given at most once: exactly once
   * when the flag was set and some warning was asked for, and never again
   * until the next connect.
   */
  lemma {:induction false} WarnOnceLaw(flag: bool, warnings: nat, calls: seq<FlagCall>)
    requires ConnectCall !in calls
    ensures var r := Replay(flag, warnings, calls);
      && r.1 == warnings + (if flag && WarnCall in calls then 1 else 0)
      && (r.0 <==> flag && WarnCall !in calls)
    decreases |calls|
  {
    if calls != [] {
      var front := calls[..|calls| - 1];
      assert calls == front + [Last(calls)];
      WarnOnceLaw(flag, warnings, front);
    }
  }

  /** The static fields of the provider and the manager's emulation provider slot. */
  class EmulationConnection {
    var instance: EmulatedLayerProvider?
    var warnUnsupportedEmulation: bool
    var warnings: nat
    var managerEmulationProvider: EmulatedLayerProvider?

    constructor ()
      ensures instance == null && !warnUnsupportedEmulation && warnings == 0 && managerEmulationProvider == null
    {
      instance := null;
      warnUnsupportedEmulation := false;
      warnings := 0;
      managerEmulationProvider := null;
    }

    /** `IsSupported`: false with no instance, otherwise whether the camera shows emulation. */
    predicate IsSupported(camera: nat)
      reads this, instance
    {
      instance != null && camera in instance.activeCameras
    }

    /** `WarnUnsupportedEmulation`: warns only while the flag is set, and clears it. */
    method WarnUnsupportedEmulation()
      modifies this`warnUnsupportedEmulation, this`warnings
      ensures (warnUnsupportedEmulation, warnings) == WarnStep(old(warnUnsupportedEmulation), old(warnings), WarnCall)
    {
      if warnUnsupportedEmulation {
        warnings := warnings + 1;
        warnUnsupportedEmulation := false;
      }
    }

    /** `OnCompositionLayerManagerStarted`: an instance exists afterwards and an active manager is given it. */
    method OnManagerStarted(managerActive: bool)
      modifies this`instance, this`managerEmulationProvider
      ensures instance != null && (old(instance) != null ==> instance == old(instance))
      ensures managerEmulationProvider == if managerActive then instance else old(managerEmulationProvider)
    {
      if instance == null {
        instance := new EmulatedLayerProvider();
      }
      if !managerActive {
        return;
      }
      managerEmulationProvider := instance;
    }

    /** `ConnectEmulatedLayerProvider`: the warning is armed again, and an active manager is started. */
    method Connect(managerActive: bool)
      modifies this`instance, this`managerEmulationProvider, this`warnUnsupportedEmulation
      ensures (warnUnsupportedEmulation, warnings) == WarnStep(old(warnUnsupportedEmulation), old(warnings), ConnectCall)
      ensures managerActive ==> instance != null && managerEmulationProvider == instance
      ensures !managerActive ==> instance == old(instance) && managerEmulationProvider == old(managerEmulationProvider)
    {
      warnUnsupportedEmulation := true;
      if managerActive {
        OnManagerStarted(managerActive);
      }
    }

    /**
     * `OnCompositionLayerManagerStopped`: with an instance, its state is
     * cleaned up and an active manager that holds it lets it go.
     */
    method OnManagerStopped(managerActive: bool, manager: EmulationRenderer.ScriptableRendererManager)
      modifies instance, manager, this`managerEmulationProvider
      ensures instance != null ==> instance.all == map[] && manager.underlay == [] && manager.overlay == []
      ensures managerEmulationProvider ==
        if instance != null && managerActive && old(managerEmulationProvider) == instance then null
        else old(managerEmulationProvider)
    {
      if instance == null {
        return;
      }
      instance.CleanupState(manager);
      if !managerActive {
        return;
      }
      if managerEmulationProvider == instance {
        managerEmulationProvider := null;
      }
    }
  }
}
