/**
 * What the two internal layer providers (the emulated one and the mirror
 * view one) keep about the composition layers: a dictionary from layer id to
 * an emulated layer, and the list of drawn layers sorted by order.
 *
 * An emulated layer is kept as a value: the state of its composition layer
 * that the providers read (enabled, order, whether its emulated data exists
 * and is initialized) and the identity of the component it points to.  The
 * value is read again from the component whenever a pass hands it over.  What
 * the providers do to an emulated layer (create, modify, update, dispose) is
 * recorded in an event log in call order.
 */
module LayerProviderState {
  import opened Wrappers

  /** The state of a composition layer component as the providers see it. */
  datatype Layer = Layer(objectId: nat, enabled: bool, order: int, hasData: bool, initialized: bool)

  /** `CompositionLayerManager.LayerInfo`: a layer id and its component (None when null or destroyed). */
  datatype LayerInfo = LayerInfo(id: int, layer: Option<Layer>)

  /** What a provider does to the emulated layer of an id. */
  datatype Event = Created(id: int) | Modified(id: int) | Updated(id: int) | Disposed(id: int)

  /** The dictionary `m_AllCompositionLayers` and the log of what was done to its layers. */
  datatype State = State(all: map<int, Layer>, log: seq<Event>)

  /** A drawn layer: its id and its state. */
  datatype Entry = Entry(id: int, layer: Layer)

  /** The last element of a non-empty sequence. */
  function Last<T>(s: seq<T>): T
    requires |s| > 0
  {
    s[|s| - 1]
  }

  // ---------------------------------------------------------------------
  // The four update passes
  // ---------------------------------------------------------------------

  /**
   * `CreateEmulationLayerObject`: nothing for a null layer; otherwise a new
   * emulated layer is created, modified and updated, and stored under the
   * id, adding or replacing the entry.  The flag says whether one was made.
   */
  function Create(s: State, info: LayerInfo): (r: (State, bool))
    ensures r.1 <==> info.layer.Some?
    ensures !r.1 ==> r.0 == s
    ensures r.1 ==> info.id in r.0.all && r.0.all[info.id] == info.layer.value
    ensures r.1 ==> r.0.all.Keys == s.all.Keys + {info.id}
    ensures forall k :: k in s.all && k != info.id ==> r.0.all[k] == s.all[k]
    ensures r.1 ==> r.0.log == s.log + [Created(info.id), Modified(info.id), Updated(info.id)]
  {
    match info.layer
    case None => (s, false)
    case Some(l) => (State(s.all[info.id := l], s.log + [Created(info.id), Modified(info.id), Updated(info.id)]), true)
  }

  /** `AddCreatedLayers`: an emulated layer for every id not in the dictionary yet. */
  function AddCreated(s: State, infos: seq<LayerInfo>): State
    decreases |infos|
  {
    if infos == [] then s
    else
      var p := AddCreated(s, infos[..|infos| - 1]);
      var info := Last(infos);
      if info.id in p.all then p else Create(p, info).0
  }

  /** The id is given a layer by some entry of `infos`. */
  ghost predicate GivenLayer(infos: seq<LayerInfo>, k: int)
  {
    exists i :: 0 <= i < |infos| && infos[i].id == k && infos[i].layer.Some?
  }

  /** Some entry of `infos` gives the id exactly this layer. */
  ghost predicate GivenAs(infos: seq<LayerInfo>, k: int, l: Layer)
  {
    exists i :: 0 <= i < |infos| && infos[i].id == k && infos[i].layer == Some(l)
  }

  /** An id is given a layer by a sequence exactly when its front or its last entry gives it one. */
  lemma GivenLayerSnoc(infos: seq<LayerInfo>)
    requires |infos| > 0
    ensures forall k :: GivenLayer(infos, k) <==>
      GivenLayer(infos[..|infos| - 1], k) || (Last(infos).id == k && Last(infos).layer.Some?)
  {
    var front := infos[..|infos| - 1];
    forall k | GivenLayer(front, k) ensures GivenLayer(infos, k) {
      var i :| 0 <= i < |front| && front[i].id == k && front[i].layer.Some?;
      assert infos[i] == front[i];
    }
    forall k | GivenLayer(infos, k) && !(Last(infos).id == k && Last(infos).layer.Some?)
      ensures GivenLayer(front, k)
    {
      var i :| 0 <= i < |infos| && infos[i].id == k && infos[i].layer.Some?;
      assert front[i] == infos[i];
    }
  }

  /**
   * Creating never replaces an entry: the ids already present keep their
   * layers, and the new ids are exactly those some entry gives a layer, each
   * with a layer given for it.
   */
  lemma {:induction false} AddCreatedLaw(s: State, infos: seq<LayerInfo>)
    ensures var r := AddCreated(s, infos);
      && (forall k :: k in s.all ==> k in r.all && r.all[k] == s.all[k])
      && (forall k :: k in r.all <==> k in s.all || GivenLayer(infos, k))
      && (forall k :: k in r.all && k !in s.all ==> GivenAs(infos, k, r.all[k]))
      && s.log <= r.log
    decreases |infos|
  {
    if infos != [] {
      var front := infos[..|infos| - 1];
      AddCreatedLaw(s, front);
      var p := AddCreated(s, front);
      var r := AddCreated(s, infos);
      var info := Last(infos);
      forall k | GivenLayer(front, k) ensures GivenLayer(infos, k) {
        var i :| 0 <= i < |front| && front[i].id == k && front[i].layer.Some?;
        assert infos[i] == front[i];
      }
      forall k, l | GivenAs(front, k, l) ensures GivenAs(infos, k, l) {
        var i :| 0 <= i < |front| && front[i].id == k && front[i].layer == Some(l);
        assert infos[i] == front[i];
      }
      forall k | GivenLayer(infos, k) ensures k in r.all {
        var i :| 0 <= i < |infos| && infos[i].id == k && infos[i].layer.Some?;
        if i < |front| {
          assert front[i] == infos[i];
        }
      }
      forall k | k in r.all ensures k in s.all || GivenLayer(infos, k) {
        if k !in p.all {
          assert infos[|infos| - 1] == info;
        }
      }
      forall k | k in r.all && k !in s.all ensures GivenAs(infos, k, r.all[k]) {
        if k !in p.all {
          assert infos[|infos| - 1] == info;
        }
      }
    }
  }

  /** `RemoveDestroyedLayers`: each id's emulated layer, when present, is disposed, and the id is removed. */
  function RemoveDestroyed(s: State, ids: seq<int>): State
    decreases |ids|
  {
    if ids == [] then s
    else
      var p := RemoveDestroyed(s, ids[..|ids| - 1]);
      var id := Last(ids);
      State(p.all - {id}, if id in p.all then p.log + [Disposed(id)] else p.log)
  }

  /**
   * After removal no removed id is left, every other entry is untouched,
   * every removed id that was present was disposed, and nothing else was
   * done.
   */
  lemma {:induction false} RemoveDestroyedLaw(s: State, ids: seq<int>)
    ensures var r := RemoveDestroyed(s, ids);
      && r.all.Keys == s.all.Keys - (set id | id in ids)
      && (forall k :: k in r.all ==> k in s.all && r.all[k] == s.all[k])
      && s.log <= r.log
      && (forall k :: k in s.all && k in ids ==> Disposed(k) in r.log[|s.log|..])
      && (forall e :: e in r.log[|s.log|..] ==> e.Disposed? && e.id in s.all && e.id in ids)
    decreases |ids|
  {
    if ids != [] {
      var front := ids[..|ids| - 1];
      RemoveDestroyedLaw(s, front);
      var p := RemoveDestroyed(s, front);
      var r := RemoveDestroyed(s, ids);
      var id := Last(ids);
      assert ids == front + [id];
      var added := if id in p.all then [Disposed(id)] else [];
      assert r.log == p.log + added;
      assert r.log[|s.log|..] == p.log[|s.log|..] + added;
    }
  }

  /**
   * An emulated layer refers to its component, so the order, the enabled
   * flag and the layer data the providers read are the component's current
   * ones: an id handed a live component reads its state now.
   */
  function ReadComponent(all: map<int, Layer>, info: LayerInfo): (r: map<int, Layer>)
    requires info.id in all
    ensures r.Keys == all.Keys
    ensures r[info.id] == if info.layer.Some? then info.layer.value else all[info.id]
    ensures forall k :: k in all && k != info.id ==> r[k] == all[k]
  {
    if info.layer.Some? then all[info.id := info.layer.value] else all
  }

  /**
   * Some entry gives the id this layer and no later entry gives the id a
   * layer: the state the id's emulated layer last read.
   */
  ghost predicate LastGiven(infos: seq<LayerInfo>, k: int, l: Layer)
  {
    exists i :: 0 <= i < |infos| && infos[i].id == k && infos[i].layer == Some(l)
                && forall j :: i < j < |infos| && infos[j].id == k ==> infos[j].layer.None?
  }

  /** The last entry decides for its id when it gives a layer; otherwise the front decides. */
  lemma LastGivenSnoc(infos: seq<LayerInfo>)
    requires |infos| > 0
    ensures forall k, l :: LastGiven(infos[..|infos| - 1], k, l) && !(Last(infos).id == k && Last(infos).layer.Some?)
              ==> LastGiven(infos, k, l)
    ensures Last(infos).layer.Some? ==> LastGiven(infos, Last(infos).id, Last(infos).layer.value)
  {
    var front := infos[..|infos| - 1];
    var info := Last(infos);
    forall k, l | LastGiven(front, k, l) && !(info.id == k && info.layer.Some?) ensures LastGiven(infos, k, l) {
      var i :| 0 <= i < |front| && front[i].id == k && front[i].layer == Some(l)
               && forall j :: i < j < |front| && front[j].id == k ==> front[j].layer.None?;
      assert infos[i] == front[i];
      forall j | i < j < |infos| && infos[j].id == k ensures infos[j].layer.None? {
        if j < |front| {
          assert infos[j] == front[j];
        }
      }
    }
    if info.layer.Some? {
      assert infos[|infos| - 1] == info;
    }
  }

  /**
   * What a pass that reads every component it is handed leaves: the ids are
   * those present before or given a layer, an id given none keeps its
   * layer, and an id given one holds the layer its last such entry gives.
   */
  ghost predicate ReadsLive(before: map<int, Layer>, infos: seq<LayerInfo>, after: map<int, Layer>)
  {
    && (forall k :: k in after <==> k in before || GivenLayer(infos, k))
    && (forall k :: k in before && !GivenLayer(infos, k) ==> k in after && after[k] == before[k])
    && (forall k :: GivenLayer(infos, k) ==> k in after && LastGiven(infos, k, after[k]))
  }

  /** One entry of such a pass: the id is added or takes the layer when one is given, and nothing else changes. */
  ghost predicate ReadsLiveStep(before: map<int, Layer>, info: LayerInfo, after: map<int, Layer>)
  {
    && after.Keys == before.Keys + (if info.layer.Some? then {info.id} else {})
    && (forall k :: k in before && !(k == info.id && info.layer.Some?) ==> after[k] == before[k])
    && (info.layer.Some? ==> after[info.id] == info.layer.value)
  }

  /** A pass that reads live up to its last entry, followed by a step that reads that entry, reads live throughout. */
  lemma ReadsLiveSnoc(before: map<int, Layer>, infos: seq<LayerInfo>, mid: map<int, Layer>, after: map<int, Layer>)
    requires |infos| > 0
    requires ReadsLive(before, infos[..|infos| - 1], mid) && ReadsLiveStep(mid, Last(infos), after)
    ensures ReadsLive(before, infos, after)
  {
    GivenLayerSnoc(infos);
    LastGivenSnoc(infos);
  }

  /** `ModifyChangedLayers`: each id's emulated layer, created when missing, is modified, reading its component. */
  function ModifyChanged(s: State, infos: seq<LayerInfo>): State
    decreases |infos|
  {
    if infos == [] then s
    else
      var p := ModifyChanged(s, infos[..|infos| - 1]);
      var info := Last(infos);
      if info.id in p.all then State(ReadComponent(p.all, info), p.log + [Modified(info.id)])
      else
        var c := Create(p, info);
        if c.1 then State(c.0.all, c.0.log + [Modified(info.id)]) else p
  }

  /**
   * The modify pass creates the missing entries and reads the components it
   * is handed: the ids after it are those present or given a layer, each id
   * given a layer holds the last one given, the others keep theirs, and
   * every id of the pass held afterwards was modified.
   */
  lemma {:induction false} ModifyChangedLaw(s: State, infos: seq<LayerInfo>)
    ensures var r := ModifyChanged(s, infos);
      && ReadsLive(s.all, infos, r.all)
      && s.log <= r.log
      && (forall i :: 0 <= i < |infos| && infos[i].id in r.all ==> Modified(infos[i].id) in r.log[|s.log|..])
  {
    ModifyChangedKeeps(s, infos);
    ModifyChangedMarks(s, infos);
  }

  /** One id of the modify pass: it reads the entry, and the log ends with its modification. */
  lemma ModifyChangedStep(s: State, infos: seq<LayerInfo>)
    requires infos != []
    ensures var p := ModifyChanged(s, infos[..|infos| - 1]);
            var r := ModifyChanged(s, infos);
            var info := Last(infos);
            && ReadsLiveStep(p.all, info, r.all)
            && p.log <= r.log
            && (info.id in r.all ==> |r.log| > 0 && r.log[|r.log| - 1] == Modified(info.id))
  {
  }

  /** The modify pass reads live, and the log only grows. */
  lemma {:induction false} ModifyChangedKeeps(s: State, infos: seq<LayerInfo>)
    ensures var r := ModifyChanged(s, infos);
      ReadsLive(s.all, infos, r.all) && s.log <= r.log
    decreases |infos|
  {
    if infos != [] {
      var front := infos[..|infos| - 1];
      ModifyChangedKeeps(s, front);
      ModifyChangedStep(s, infos);
      ReadsLiveSnoc(s.all, infos, ModifyChanged(s, front).all, ModifyChanged(s, infos).all);
    }
  }

  /** Every id of the pass that ends up present was modified. */
  lemma {:induction false} ModifyChangedMarks(s: State, infos: seq<LayerInfo>)
    ensures var r := ModifyChanged(s, infos);
      s.log <= r.log && forall i :: 0 <= i < |infos| && infos[i].id in r.all ==> Modified(infos[i].id) in r.log[|s.log|..]
    decreases |infos|
  {
    if infos != [] {
      var front := infos[..|infos| - 1];
      ModifyChangedMarks(s, front);
      ModifyChangedStep(s, infos);
      var p := ModifyChanged(s, front);
      var r := ModifyChanged(s, infos);
      var info := Last(infos);
      assert p.log[|s.log|..] <= r.log[|s.log|..];
      forall i | 0 <= i < |infos| && infos[i].id in r.all ensures Modified(infos[i].id) in r.log[|s.log|..] {
        if infos[i].id == info.id {
          assert r.log[|r.log| - 1] == r.log[|s.log|..][|r.log| - 1 - |s.log|];
        } else {
          assert front[i] == infos[i];
        }
      }
    }
  }

  /** Modify (when its data is missing) and then update an emulated layer, as both active passes end. */
  function Refresh(s: State, id: int, l: Layer): State
  {
    State(s.all, s.log + (if l.hasData then [] else [Modified(id)]) + [Updated(id)])
  }

  /**
   * One id of the mirror view's active pass: created and modified when
   * missing; a present one is modified when its data is missing, then
   * updated, reading its component.
   */
  function MirrorStep(p: State, info: LayerInfo): (r: State)
    ensures ReadsLiveStep(p.all, info, r.all)
    ensures p.log <= r.log
    ensures info.id in r.all ==> |r.log| > 0 && r.log[|r.log| - 1] == Updated(info.id)
    ensures info.id in p.all ==>
      r.log == p.log + (if p.all[info.id].hasData then [] else [Modified(info.id)]) + [Updated(info.id)]
    ensures info.id !in p.all && info.layer.Some? ==>
      r.log == p.log + [Created(info.id), Modified(info.id), Updated(info.id), Modified(info.id)]
                + (if info.layer.value.hasData then [] else [Modified(info.id)]) + [Updated(info.id)]
    ensures info.id !in p.all && info.layer.None? ==> r == p
  {
    if info.id in p.all then Refresh(State(ReadComponent(p.all, info), p.log), info.id, p.all[info.id])
    else
      var c := Create(p, info);
      if c.1 then Refresh(State(c.0.all, c.0.log + [Modified(info.id)]), info.id, info.layer.value) else p
  }

  /** The mirror view's `UpdateActiveStateOnLayers`: one step per entry, in order. */
  function MirrorActive(s: State, infos: seq<LayerInfo>): State
    decreases |infos|
  {
    if infos == [] then s
    else MirrorStep(MirrorActive(s, infos[..|infos| - 1]), Last(infos))
  }

  /**
   * The mirror view's active pass creates exactly the missing ids given a
   * layer, reads the components it is handed (each id given a layer holds
   * the last one given, the others keep theirs), and updates every id it
   * then holds.
   */
  lemma MirrorActiveLaw(s: State, infos: seq<LayerInfo>)
    ensures var r := MirrorActive(s, infos);
      && ReadsLive(s.all, infos, r.all)
      && s.log <= r.log
      && (forall i :: 0 <= i < |infos| && infos[i].id in r.all ==> Updated(infos[i].id) in r.log[|s.log|..])
  {
    MirrorActiveKeeps(s, infos);
    MirrorActiveMarks(s, infos);
  }

  /** The last entry's step of the mirror view's active pass. */
  lemma MirrorActiveStep(s: State, infos: seq<LayerInfo>)
    requires infos != []
    ensures var p := MirrorActive(s, infos[..|infos| - 1]);
            var r := MirrorActive(s, infos);
            var info := Last(infos);
            && ReadsLiveStep(p.all, info, r.all)
            && p.log <= r.log
            && (info.id in r.all ==> |r.log| > |p.log| && r.log[|r.log| - 1] == Updated(info.id))
  {
  }

  /** What the log held after `base` stays there as the log grows, and its newest event is there too. */
  lemma TailGrows(base: seq<Event>, p: seq<Event>, r: seq<Event>)
    requires base <= p <= r
    ensures forall e :: e in p[|base|..] ==> e in r[|base|..]
    ensures |r| > |p| ==> r[|r| - 1] in r[|base|..]
  {
    assert p[|base|..] <= r[|base|..];
    if |r| > |p| {
      assert r[|r| - 1] == r[|base|..][|r| - 1 - |base|];
    }
  }

  /** The mirror view's active pass reads live, and the log only grows. */
  lemma {:induction false} MirrorActiveKeeps(s: State, infos: seq<LayerInfo>)
    ensures var r := MirrorActive(s, infos);
      ReadsLive(s.all, infos, r.all) && s.log <= r.log
    decreases |infos|
  {
    if infos != [] {
      var front := infos[..|infos| - 1];
      MirrorActiveKeeps(s, front);
      MirrorActiveStep(s, infos);
      ReadsLiveSnoc(s.all, infos, MirrorActive(s, front).all, MirrorActive(s, infos).all);
    }
  }

  /** Every id held after the pass was updated during it. */
  lemma {:induction false} MirrorActiveMarks(s: State, infos: seq<LayerInfo>)
    ensures var r := MirrorActive(s, infos);
      s.log <= r.log && forall i :: 0 <= i < |infos| && infos[i].id in r.all ==> Updated(infos[i].id) in r.log[|s.log|..]
    decreases |infos|
  {
    if infos != [] {
      var front := infos[..|infos| - 1];
      MirrorActiveMarks(s, front);
      MirrorActiveStep(s, infos);
      var p := MirrorActive(s, front);
      var r := MirrorActive(s, infos);
      var info := Last(infos);
      TailGrows(s.log, p.log, r.log);
      forall i | 0 <= i < |infos| && infos[i].id in r.all ensures Updated(infos[i].id) in r.log[|s.log|..] {
        if infos[i].id != info.id {
          assert front[i] == infos[i];
        }
      }
    }
  }

  // ---------------------------------------------------------------------
  // Drawn layers, sorting and the underlay / overlay split
  // ---------------------------------------------------------------------

  /** A layer that is drawn: enabled, with emulated data that is initialized. */
  predicate Drawn(l: Layer)
  {
    l.enabled && l.hasData && l.initialized
  }

  /** The entry is the dictionary's entry for its id, and is drawn. */
  predicate DrawnEntry(all: map<int, Layer>, e: Entry)
  {
    e.id in all && all[e.id] == e.layer && Drawn(e.layer)
  }

  /** No two entries share an id. */
  predicate DistinctIds(s: seq<Entry>)
  {
    forall i, j :: 0 <= i < j < |s| ==> s[i].id != s[j].id
  }

  /** Ascending by order. */
  predicate SortedByOrder(s: seq<Entry>)
  {
    forall i, j :: 0 <= i < j < |s| ==> s[i].layer.order <= s[j].layer.order
  }

  /**
   * The drawn entries of the dictionary, one per drawn id, in the
   * dictionary's (unspecified) order.
   */
  method GatherDrawn(all: map<int, Layer>) returns (drawn: seq<Entry>)
    ensures DistinctIds(drawn)
    ensures forall e :: e in drawn <==> DrawnEntry(all, e)
  {
    drawn := [];
    var rest := all;
    while exists k :: k in rest
      invariant rest.Keys <= all.Keys
      invariant forall k :: k in rest ==> rest[k] == all[k]
      invariant DistinctIds(drawn)
      invariant forall e :: e in drawn ==> e.id !in rest
      invariant forall e :: e in drawn <==> e.id !in rest && DrawnEntry(all, e)
      decreases |rest.Keys|
    {
      var k :| k in rest;
      assert rest.Keys == (rest - {k}).Keys + {k};
      if Drawn(rest[k]) {
        drawn := drawn + [Entry(k, rest[k])];
      }
      rest := rest - {k};
    }
  }

  /** An entry placed after the entries of no greater order and before the greater ones keeps the sequence sorted. */
  lemma InsertSorted(sorted: seq<Entry>, x: Entry, k: nat)
    requires SortedByOrder(sorted) && k <= |sorted|
    requires forall p :: 0 <= p < k ==> sorted[p].layer.order <= x.layer.order
    requires k < |sorted| ==> sorted[k].layer.order > x.layer.order
    ensures SortedByOrder(sorted[..k] + [x] + sorted[k..])
  {
    var r := sorted[..k] + [x] + sorted[k..];
    forall i, j | 0 <= i < j < |r| ensures r[i].layer.order <= r[j].layer.order {
      if j < k {
        assert r[i] == sorted[i] && r[j] == sorted[j];
      } else if j == k {
        assert r[i] == sorted[i];
      } else if i < k {
        assert r[i] == sorted[i] && r[j] == sorted[j - 1];
      } else if i == k {
        assert r[j] == sorted[j - 1];
      } else {
        assert r[i] == sorted[i - 1] && r[j] == sorted[j - 1];
      }
    }
  }

  /** Inserting one entry after every entry of no greater order. */
  method InsertByOrder(sorted: seq<Entry>, x: Entry) returns (r: seq<Entry>)
    requires SortedByOrder(sorted)
    ensures SortedByOrder(r) && multiset(r) == multiset(sorted) + multiset{x}
  {
    var k := 0;
    while k < |sorted| && sorted[k].layer.order <= x.layer.order
      invariant 0 <= k <= |sorted|
      invariant forall p :: 0 <= p < k ==> sorted[p].layer.order <= x.layer.order
    {
      k := k + 1;
    }
    InsertSorted(sorted, x, k);
    r := sorted[..k] + [x] + sorted[k..];
    assert sorted == sorted[..k] + sorted[k..];
  }

  /** `List.Sort` with the `Order` comparer (`EmulatedLayerDataSorter`): a sorted permutation. */
  method SortByOrder(s: seq<Entry>) returns (r: seq<Entry>)
    ensures SortedByOrder(r) && multiset(r) == multiset(s)
    ensures |r| == |s| && forall e :: e in r <==> e in s
    ensures DistinctIds(s) ==> DistinctIds(r)
  {
    r := [];
    for i := 0 to |s|
      invariant SortedByOrder(r) && multiset(r) == multiset(s[..i])
    {
      assert s[..i + 1] == s[..i] + [s[i]];
      r := InsertByOrder(r, s[i]);
    }
    assert s[..|s|] == s;
    assert |r| == |multiset(r)|;
    forall e ensures e in r <==> e in s {
      assert e in r <==> e in multiset(r);
      assert e in s <==> e in multiset(s);
    }
    if DistinctIds(s) {
      DistinctAfterSort(s, r);
    }
  }

  /** Sorting keeps the entries, so it keeps their ids apart. */
  lemma DistinctAfterSort(s: seq<Entry>, r: seq<Entry>)
    requires DistinctIds(s) && multiset(r) == multiset(s)
    ensures DistinctIds(r)
  {
    forall i, j | 0 <= i < j < |r| ensures r[i].id != r[j].id {
      assert r[i] in multiset(s) && r[j] in multiset(s);
      var a :| 0 <= a < |s| && s[a] == r[i];
      var b :| 0 <= b < |s| && s[b] == r[j];
      TwiceCounted(r, i, j);
      OnceInDistinct(s, a);
    }
  }

  /** An entry of a sequence with distinct ids occurs in it once. */
  lemma {:induction false} OnceInDistinct(s: seq<Entry>, a: nat)
    requires DistinctIds(s) && a < |s|
    ensures multiset(s)[s[a]] == 1
    decreases |s|
  {
    var x := s[a];
    var front := s[..|s| - 1];
    assert s == front + [Last(s)];
    assert DistinctIds(front);
    if a == |s| - 1 {
      assert x !in front;
    } else {
      OnceInDistinct(front, a);
      assert front[a] == x;
    }
  }

  /** An element at two positions is counted at least twice. */
  lemma TwiceCounted(r: seq<Entry>, i: nat, j: nat)
    requires i < j < |r|
    ensures r[i] == r[j] ==> multiset(r)[r[i]] >= 2
  {
    var x := r[i];
    assert r == r[..j] + [r[j]] + r[j + 1..];
    assert x in r[..j];
    assert multiset(r) == multiset(r[..j]) + multiset{r[j]} + multiset(r[j + 1..]);
  }

  /** The entries drawn as overlays (order at least 0) or as underlays (negative order), in their order. */
  function OfKind(s: seq<Entry>, overlay: bool): (r: seq<Entry>)
    ensures forall e :: e in r <==> e in s && (e.layer.order >= 0 <==> overlay)
    decreases |s|
  {
    if s == [] then []
    else
      var front := OfKind(s[..|s| - 1], overlay);
      var e := Last(s);
      assert forall x :: x in s <==> x in s[..|s| - 1] || x == e by {
        assert s == s[..|s| - 1] + [e];
      }
      if (e.layer.order >= 0) == overlay then front + [e] else front
  }

  /** The ids of a sequence of entries, in order. */
  function Ids(s: seq<Entry>): (r: seq<int>)
    ensures |r| == |s| && forall i :: 0 <= i < |s| ==> r[i] == s[i].id
  {
    seq(|s|, i requires 0 <= i < |s| => s[i].id)
  }

  /** Taking one more entry adds it to the list of its kind. */
  lemma OfKindSnoc(s: seq<Entry>, i: nat, overlay: bool)
    requires i < |s|
    ensures OfKind(s[..i + 1], overlay) ==
      OfKind(s[..i], overlay) + (if (s[i].layer.order >= 0) == overlay then [s[i]] else [])
  {
    assert s[..i + 1][..i] == s[..i];
  }

  /** The ids of two sequences joined. */
  lemma IdsAppend(a: seq<Entry>, b: seq<Entry>)
    ensures Ids(a + b) == Ids(a) + Ids(b)
  {
  }

  /** The ids of the entries of one kind, in order, collected one entry at a time. */
  function KindIds(s: seq<Entry>, overlay: bool): seq<int>
  {
    if s == [] then []
    else KindIds(s[..|s| - 1], overlay) + (if (Last(s).layer.order >= 0) == overlay then [Last(s).id] else [])
  }

  /** Collecting the ids one entry at a time gives the ids of the entries of that kind. */
  lemma {:induction false} KindIdsAreIds(s: seq<Entry>, overlay: bool)
    ensures KindIds(s, overlay) == Ids(OfKind(s, overlay))
    decreases |s|
  {
    if s != [] {
      var i := |s| - 1;
      KindIdsAreIds(s[..i], overlay);
      OfKindSnoc(s, i, overlay);
      assert s[..i + 1] == s;
      IdsAppend(OfKind(s[..i], overlay), if (s[i].layer.order >= 0) == overlay then [s[i]] else []);
    }
  }

  /** A sequence with every order negative has no overlays. */
  lemma {:induction false} NoOverlays(s: seq<Entry>)
    requires forall i :: 0 <= i < |s| ==> s[i].layer.order < 0
    ensures OfKind(s, true) == [] && OfKind(s, false) == s
    decreases |s|
  {
    if s != [] {
      NoOverlays(s[..|s| - 1]);
      assert s == s[..|s| - 1] + [Last(s)];
    }
  }

  /**
   * In a sorted sequence the underlays come first: the underlays followed
   * by the overlays give back the sequence, so splitting the sorted layers
   * by kind loses none, repeats none and keeps each kind in order.
   */
  lemma {:induction false} SplitByKind(s: seq<Entry>)
    requires SortedByOrder(s)
    ensures OfKind(s, false) + OfKind(s, true) == s
    ensures SortedByOrder(OfKind(s, false)) && SortedByOrder(OfKind(s, true))
    decreases |s|
  {
    if s != [] {
      var front := s[..|s| - 1];
      var e := Last(s);
      assert s == front + [e];
      SplitByKind(front);
      if e.layer.order < 0 {
        NoOverlays(front);
        assert OfKind(s, false) == s;
      }
    }
  }
}
