/**
 * `MirrorViewLayerProvider`: the internal layer provider that draws the
 * composition layers into the mirror view.  It keeps one emulated layer per
 * layer id, rebuilds the sorted list of drawn layers on demand, and draws
 * the underlays or the overlays of that list into a command buffer.
 */
module MirrorViewLayerProvider {
  import opened Wrappers
  import opened LayerProviderState

  datatype LayerOrderType = Underlay | Overlay

  /** The layers drawn into a mirror-view command buffer, by layer id. */
  class MirrorCommandBuffer {
    var drawn: seq<int>

    constructor ()
      ensures drawn == []
    {
      drawn := [];
    }
  }

  class MirrorViewLayerProvider {
    var all: map<int, Layer>
    var log: seq<Event>
    var sortedLayers: seq<Entry>

    constructor ()
      ensures all == map[] && log == [] && sortedLayers == []
    {
      all := map[];
      log := [];
      sortedLayers := [];
    }

    /** `CreateEmulationLayerObject`. */
    method CreateEmulationLayerObject(info: LayerInfo) returns (created: bool)
      modifies this`all, this`log
      ensures (State(all, log), created) == Create(old(State(all, log)), info)
    {
      if info.layer.None? {
        return false;
      }
      log := log + [Created(info.id), Modified(info.id), Updated(info.id)];
      all := all[info.id := info.layer.value];
      created := true;
    }

    /** `AddCreatedLayers`. */
    method AddCreatedLayers(infos: seq<LayerInfo>)
      modifies this`all, this`log
      ensures State(all, log) == AddCreated(old(State(all, log)), infos)
    {
      if |infos| == 0 {
        return;
      }
      ghost var s0 := State(all, log);
      for i := 0 to |infos|
        invariant State(all, log) == AddCreated(s0, infos[..i])
      {
        assert infos[..i + 1][..i] == infos[..i];
        if infos[i].id !in all {
          var _ := CreateEmulationLayerObject(infos[i]);
        }
      }
      assert infos[..|infos|] == infos;
    }

    /** `RemoveDestroyedLayers`. */
    method RemoveDestroyedLayers(ids: seq<int>)
      modifies this`all, this`log
      ensures State(all, log) == RemoveDestroyed(old(State(all, log)), ids)
    {
      if |ids| == 0 {
        return;
      }
      ghost var s0 := State(all, log);
      for i := 0 to |ids|
        invariant State(all, log) == RemoveDestroyed(s0, ids[..i])
      {
        assert ids[..i + 1][..i] == ids[..i];
        if ids[i] in all {
          log := log + [Disposed(ids[i])];
        }
        all := all - {ids[i]};
      }
      assert ids[..|ids|] == ids;
    }

    /** `ModifyChangedLayers`. */
    method ModifyChangedLayers(infos: seq<LayerInfo>)
      modifies this`all, this`log
      ensures State(all, log) == ModifyChanged(old(State(all, log)), infos)
    {
      if |infos| == 0 {
        return;
      }
      ghost var s0 := State(all, log);
      for i := 0 to |infos|
        invariant State(all, log) == ModifyChanged(s0, infos[..i])
      {
        assert infos[..i + 1][..i] == infos[..i];
        var present := infos[i].id in all;
        if present {
          all := ReadComponent(all, infos[i]);
        } else {
          present := CreateEmulationLayerObject(infos[i]);
        }
        if present {
          log := log + [Modified(infos[i].id)];
        }
      }
      assert infos[..|infos|] == infos;
    }

    /** `UpdateActiveStateOnLayers`. */
    method UpdateActiveStateOnLayers(infos: seq<LayerInfo>)
      modifies this`all, this`log
      ensures State(all, log) == MirrorActive(old(State(all, log)), infos)
    {
      if |infos| == 0 {
        return;
      }
      ghost var s0 := State(all, log);
      for i := 0 to |infos|
        invariant State(all, log) == MirrorActive(s0, infos[..i])
      {
        assert infos[..i + 1][..i] == infos[..i];
        UpdateActiveState(infos[i]);
      }
      assert infos[..|infos|] == infos;
    }

    /** The body of the loop of `UpdateActiveStateOnLayers`, for one entry. */
    method UpdateActiveState(info: LayerInfo)
      modifies this`all, this`log
      ensures State(all, log) == MirrorStep(old(State(all, log)), info)
    {
      ghost var p := State(all, log);
      var id := info.id;
      var present := id in all;
      if !present {
        present := CreateEmulationLayerObject(info);
        if present {
          log := log + [Modified(id)];
        }
      }
      if present {
        var hasData := all[id].hasData;
        all := ReadComponent(all, info);
        if !hasData {
          log := log + [Modified(id)];
        }
        log := log + [Updated(id)];
      }
      if id in p.all {
        assert State(all, log) == Refresh(State(ReadComponent(p.all, info), p.log), id, p.all[id]);
      } else if info.layer.Some? {
        assert all == p.all[id := info.layer.value];
      }
    }

    /** `SetInitialState`: the dictionary is emptied, then the given layers are added. */
    method SetInitialState(layers: seq<LayerInfo>)
      modifies this`all, this`log
      ensures State(all, log) == AddCreated(State(map[], old(log)), layers)
    {
      all := map[];
      AddCreatedLayers(layers);
    }

    /** `CleanupState`: every emulated layer is disposed, once each, and the dictionary is emptied. */
    method CleanupState()
      modifies this`all, this`log
      ensures all == map[] && old(log) <= log
      ensures |log| - |old(log)| == |old(all).Keys|
      ensures forall e :: e in log[|old(log)|..] <==> e.Disposed? && e.id in old(all)
    {
      ghost var log0 := log;
      var rest := all;
      while exists k :: k in rest
        invariant all == old(all)
        invariant rest.Keys <= old(all).Keys && log0 <= log
        invariant |log| - |log0| + |rest.Keys| == |old(all).Keys|
        invariant forall e :: e in log[|log0|..] <==> e.Disposed? && e.id in old(all) && e.id !in rest
        decreases |rest.Keys|
      {
        var k :| k in rest;
        assert rest.Keys == (rest - {k}).Keys + {k};
        ghost var before := log;
        log := log + [Disposed(k)];
        assert log[|log0|..] == before[|log0|..] + [Disposed(k)];
        rest := rest - {k};
      }
      all := map[];
    }

    /** `UpdateLayers`: the created, removed, modified and active passes, in that order. */
    method UpdateLayers(created: seq<LayerInfo>, removed: seq<int>, modified: seq<LayerInfo>, active: seq<LayerInfo>)
      modifies this`all, this`log
      ensures State(all, log) ==
        MirrorActive(ModifyChanged(RemoveDestroyed(AddCreated(old(State(all, log)), created), removed), modified), active)
    {
      AddCreatedLayers(created);
      RemoveDestroyedLayers(removed);
      ModifyChangedLayers(modified);
      UpdateActiveStateOnLayers(active);
    }

    /**
     * `UpdateSortedLayers`: nothing without an active manager; otherwise the
     * list holds exactly the drawn entries, one per id, sorted by order.
     */
    method UpdateSortedLayers(managerActive: bool)
      modifies this`sortedLayers
      ensures !managerActive ==> sortedLayers == old(sortedLayers)
      ensures managerActive ==>
        SortedByOrder(sortedLayers) && DistinctIds(sortedLayers)
        && forall e :: e in sortedLayers <==> DrawnEntry(all, e)
    {
      if !managerActive {
        return;
      }
      var drawn := GatherDrawn(all);
      if |drawn| == 0 {
        sortedLayers := [];
        return;
      }
      var sorted := SortByOrder(drawn);
      sortedLayers := sorted;
    }

    /**
     * `AddToCommandBuffer`: with an active manager the sorted list is
     * rebuilt and its layers of the asked kind (negative order for
     * underlays, the others for overlays) are drawn, in sorted order.
     */
    method AddToCommandBuffer(buffer: MirrorCommandBuffer, layerOrderType: LayerOrderType, managerActive: bool)
      modifies buffer, this`sortedLayers
      ensures !managerActive ==> buffer.drawn == old(buffer.drawn) && sortedLayers == old(sortedLayers)
      ensures managerActive ==>
        SortedByOrder(sortedLayers) && DistinctIds(sortedLayers)
        && (forall e :: e in sortedLayers <==> DrawnEntry(all, e))
        && buffer.drawn == old(buffer.drawn) + Ids(OfKind(sortedLayers, layerOrderType == Overlay))
    {
      if !managerActive {
        return;
      }
      UpdateSortedLayers(managerActive);
      DrawKind(buffer, sortedLayers, layerOrderType);
    }
  }

  /** The drawing loop of `AddToCommandBuffer`: the ids of the layers of the asked kind, in list order. */
  method DrawKind(buffer: MirrorCommandBuffer, sorted: seq<Entry>, layerOrderType: LayerOrderType)
    modifies buffer
    ensures buffer.drawn == old(buffer.drawn) + Ids(OfKind(sorted, layerOrderType == Overlay))
  {
    var overlay := layerOrderType == Overlay;
    for i := 0 to |sorted|
      invariant buffer.drawn == old(buffer.drawn) + KindIds(sorted[..i], overlay)
    {
      assert sorted[..i + 1][..i] == sorted[..i];
      var order := sorted[i].layer.order;
      if (order < 0 && layerOrderType == Underlay) || (order >= 0 && layerOrderType == Overlay) {
        buffer.drawn := buffer.drawn + [sorted[i].id];
      }
    }
    assert sorted[..|sorted|] == sorted;
    KindIdsAreIds(sorted, overlay);
  }

  // ---------------------------------------------------------------------
  // Connecting to the manager
  // ---------------------------------------------------------------------

  /**
   * The static connection state: whether an instance exists, how many
   * start/stop handler pairs are subscribed, and whether the manager holds
   * the instance among its internal providers.
   */
  datatype Connection = Connection(hasInstance: bool, handlers: nat, registered: bool)

  /** `OnCompositionLayerManagerStarted` with a live manager: an instance exists and is registered (once). */
  function Started(c: Connection): (r: Connection)
    ensures r.hasInstance && r.registered && r.handlers == c.handlers
  {
    Connection(true, c.handlers, true)
  }

  /** `OnCompositionLayerManagerStopped`: an existing instance is cleaned up, unregistered and dropped. */
  function Stopped(c: Connection): (r: Connection)
    ensures c.hasInstance ==> !r.hasInstance && !r.registered
    ensures !c.hasInstance ==> r == c
    ensures r.handlers == c.handlers
  {
    if !c.hasInstance then c else Connection(false, c.handlers, false)
  }

  /** The manager starting or stopping runs the handlers when some are subscribed. */
  function ManagerStarts(c: Connection): (r: Connection)
    ensures c.handlers > 0 ==> r == Started(c)
    ensures c.handlers == 0 ==> r == c
  {
    if c.handlers > 0 then Started(c) else c
  }

  /** `ConnectMirrorViewLayerProvider` as written: guarded by the instance, which an inactive manager never creates. */
  function ConnectAsWritten(c: Connection, managerActive: bool): Connection
  {
    if c.hasInstance then c
    else
      var subscribed := Connection(c.hasInstance, c.handlers + 1, c.registered);
      if managerActive then Started(subscribed) else subscribed
  }

  /** `DisconnectMirrorViewLayerProvider` as written: guarded by the instance as well. */
  function DisconnectAsWritten(c: Connection): Connection
  {
    if !c.hasInstance then c
    else Stopped(Connection(c.hasInstance, if c.handlers > 0 then c.handlers - 1 else 0, c.registered))
  }

  /**
   * Connecting while the manager is inactive subscribes the handlers but
   * creates no instance, so the disconnect that follows returns early and
   * leaves them subscribed: when the manager then starts, the mirror view
   * provider is created and registered although it was disconnected.
   */
  lemma DisconnectLeavesHandlers()
    ensures var c := DisconnectAsWritten(ConnectAsWritten(Connection(false, 0, false), false));
      c.handlers == 1 && ManagerStarts(c).registered
  {
  }

  /** Every connect while the manager is inactive subscribes one more pair of handlers. */
  lemma RepeatedConnectSubscribesAgain(c: Connection)
    requires !c.hasInstance
    ensures ConnectAsWritten(ConnectAsWritten(c, false), false).handlers == c.handlers + 2
  {
  }

  /** Connecting once: guarded by the subscription itself. */
  function Connect(c: Connection, managerActive: bool): (r: Connection)
    ensures r.handlers == 1
    ensures c.handlers == 0 && managerActive ==> r.registered
  {
    if c.handlers > 0 then Connection(c.hasInstance, 1, c.registered)
    else
      var subscribed := Connection(c.hasInstance, 1, c.registered);
      if managerActive then Started(subscribed) else subscribed
  }

  /** Disconnecting whenever subscribed, then stopping. */
  function Disconnect(c: Connection): (r: Connection)
    ensures r.handlers == 0 && !r.hasInstance
    ensures r.registered <==> c.registered && !c.hasInstance
  {
    Stopped(Connection(c.hasInstance, 0, c.registered))
  }

  /** The calls that change the connection. */
  datatype ConnectionCall = ConnectCall(managerActive: bool) | DisconnectCall | StartCall | StopCall

  /** The connection after one call, with the guarded connect and disconnect. */
  function Step(c: Connection, call: ConnectionCall): Connection
  {
    match call
    case ConnectCall(active) => Connect(c, active)
    case DisconnectCall => Disconnect(c)
    case StartCall => ManagerStarts(c)
    case StopCall => if c.handlers > 0 then Stopped(c) else c
  }

  /** The connection after a run of calls. */
  function Run(c: Connection, calls: seq<ConnectionCall>): Connection
    decreases |calls|
  {
    if calls == [] then c else Step(Run(c, calls[..|calls| - 1]), Last(calls))
  }

  /**
   * With the guarded connect and disconnect, at most one pair of handlers
   * is ever subscribed, and after the last disconnect nothing the manager
   * does registers the provider again.
   */
  lemma {:induction false} ConnectionLaw(c: Connection, calls: seq<ConnectionCall>)
    requires c.handlers <= 1 && (c.handlers == 0 ==> !c.registered) && (c.registered ==> c.hasInstance)
    ensures var r := Run(c, calls);
      r.handlers <= 1 && (r.handlers == 0 ==> !r.registered) && (r.registered ==> r.hasInstance)
    decreases |calls|
  {
    if calls != [] {
      ConnectionLaw(c, calls[..|calls| - 1]);
    }
  }

  /** After a disconnect, starting and stopping the manager never registers the provider. */
  lemma {:induction false} NoRegistrationAfterDisconnect(c: Connection, events: seq<ConnectionCall>)
    requires c.registered ==> c.hasInstance
    requires forall i :: 0 <= i < |events| ==> events[i] == StartCall || events[i] == StopCall
    ensures var r := Run(Disconnect(c), events); !r.registered && r.handlers == 0
    decreases |events|
  {
    if events != [] {
      NoRegistrationAfterDisconnect(c, events[..|events| - 1]);
      assert Last(events) == events[|events| - 1];
    }
  }

  /** The static fields of the mirror view provider and the manager's registration of it. */
  class MirrorConnection {
    var instance: MirrorViewLayerProvider?
    var handlers: nat
    var registered: bool

    constructor ()
      ensures instance == null && handlers == 0 && !registered
    {
      instance := null;
      handlers := 0;
      registered := false;
    }

    /** The connection as a value. */
    function State(): Connection
      reads this
    {
      Connection(instance != null, handlers, registered)
    }

    /** `OnCompositionLayerManagerStarted`, the manager present. */
    method OnManagerStarted()
      modifies this
      ensures State() == Started(old(State()))
      ensures old(instance) != null ==> instance == old(instance)
    {
      if instance == null {
        instance := new MirrorViewLayerProvider();
      }
      registered := true;
    }

    /** `OnCompositionLayerManagerStopped`: the instance's state is cleaned up before it is dropped. */
    method OnManagerStopped()
      modifies this, instance
      ensures State() == Stopped(old(State()))
      ensures old(instance) != null ==> old(instance).all == map[]
    {
      if instance == null {
        return;
      }
      instance.CleanupState();
      registered := false;
      instance := null;
    }

    /** `ConnectMirrorViewLayerProvider`, as written. */
    method ConnectMirrorViewLayerProvider(managerActive: bool)
      modifies this
      ensures State() == ConnectAsWritten(old(State()), managerActive)
    {
      if instance != null {
        return;
      }
      handlers := handlers + 1;
      if managerActive {
        OnManagerStarted();
      }
    }

    /** `DisconnectMirrorViewLayerProvider`, as written. */
    method DisconnectMirrorViewLayerProvider()
      modifies this, instance
      ensures State() == DisconnectAsWritten(old(State()))
    {
      if instance == null {
        return;
      }
      handlers := if handlers > 0 then handlers - 1 else 0;
      OnManagerStopped();
    }
  }
}
