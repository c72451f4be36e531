/**
 * The layer-order bookkeeping of the composition-layers package
 * (`Runtime/Services/CompositionLayerManager.cs` and
 * `Runtime/Services/CompositionLayerUtils.cs`): the manager's lifecycle lists,
 * the table of occupied layer orders, the search for an unused order, and the
 * order changes and swaps that keep that table up to date.
 *
 * A `CompositionLayer` component is the class `Layer`, reduced to the fields
 * these files read or write. "The manager is active" is a non-null manager;
 * scene validity, the layer data type and the active/enabled state of a layer
 * are fields set by the engine.
 */
module LayerManager {
  import opened Wrappers

  /** No element occurs twice. */
  predicate NoDup<T(==)>(s: seq<T>)
  {
    forall i, j :: 0 <= i < j < |s| ==> s[i] != s[j]
  }

  /** `List.Remove(x)`: the sequence without the first occurrence of `x`. */
  function Without<T(==)>(s: seq<T>, x: T): (r: seq<T>)
    ensures x !in s ==> r == s
    ensures x in s ==> |r| == |s| - 1
    ensures forall y :: y in r ==> y in s
    ensures forall y :: y in s && y != x ==> y in r
  {
    if s == [] then []
    else if s[0] == x then s[1..]
    else [s[0]] + Without(s[1..], x)
  }

  /** In a list without duplicates, `Remove(x)` removes every occurrence of `x` and keeps the list duplicate-free. */
  lemma {:induction false} WithoutNoDup<T>(s: seq<T>, x: T)
    requires NoDup(s)
    ensures NoDup(Without(s, x)) && x !in Without(s, x)
  {
    if s != [] && s[0] != x {
      WithoutNoDup(s[1..], x);
      var r := Without(s[1..], x);
      assert s[0] !in s[1..];
      assert s[0] !in r;
    }
  }

  lemma SnocNoDup<T>(s: seq<T>, x: T)
    requires NoDup(s) && x !in s
    ensures NoDup(s + [x])
  {
    forall i, j | 0 <= i < j < |s| + 1 ensures (s + [x])[i] != (s + [x])[j] {
      assert (s + [x])[i] == s[i];
    }
  }

  /** A `CompositionLayer` component as far as ordering and bookkeeping see it. */
  class Layer {
    /** `GetInstanceID()`. */
    const id: int
    /** `m_Order`: negative orders render under the eye layer, the others over it. */
    var order: int
    /** `m_OrderInitialized`. */
    var orderInitialized: bool
    /** Whether `LayerData is DefaultLayerData`. */
    var isDefaultData: bool
    /** `CompositionLayerManager.IsLayerSceneValid(layer)`. */
    var sceneValid: bool
    /** `isActiveAndEnabled`. */
    var activeAndEnabled: bool
    /** Whether the game object carries `HideFlags.HideAndDontSave`. */
    var hidden: bool

    /** A freshly added component: order 1 (the serialized default), not yet initialized. */
    constructor (id: int, isDefaultData: bool, sceneValid: bool)
      ensures this.id == id && order == 1 && !orderInitialized
      ensures this.isDefaultData == isDefaultData && this.sceneValid == sceneValid
      ensures !activeAndEnabled && !hidden
    {
      this.id := id;
      order := 1;
      orderInitialized := false;
      this.isDefaultData := isDefaultData;
      this.sceneValid := sceneValid;
      activeAndEnabled := false;
      hidden := false;
    }
  }

  /**
   * `LayerSorter` of the manager: ascending order, ties broken by ascending
   * instance id (`int.CompareTo`).
   */
  function LayerSorter(lhsOrder: int, lhsId: int, rhsOrder: int, rhsId: int): (c: int)
    ensures c in {-1, 0, 1}
    ensures c < 0 <==> lhsOrder < rhsOrder || (lhsOrder == rhsOrder && lhsId < rhsId)
    ensures c == 0 <==> lhsOrder == rhsOrder && lhsId == rhsId
  {
    if lhsOrder == rhsOrder then (if lhsId < rhsId then -1 else if lhsId == rhsId then 0 else 1)
    else if lhsOrder < rhsOrder then -1
    else 1
  }

  /** The manager's comparer is a consistent comparison: antisymmetric and transitive. */
  lemma LayerSorterIsOrder(ao: int, ai: int, bo: int, bi: int, co: int, ci: int)
    ensures LayerSorter(ao, ai, bo, bi) == -LayerSorter(bo, bi, ao, ai)
    ensures LayerSorter(ao, ai, bo, bi) <= 0 && LayerSorter(bo, bi, co, ci) <= 0 ==> LayerSorter(ao, ai, co, ci) <= 0
  {
  }

  /**
   * The `CompositionLayerManager` singleton's bookkeeping. `known` is the key
   * set of `m_KnownLayers` (its `LayerInfo` values are determined by the key);
   * `removed` holds instance ids.
   */
  class CompositionLayerManager {
    var known: set<Layer>
    var created: seq<Layer>
    var removed: seq<int>
    var modified: seq<Layer>
    var active: seq<Layer>
    /** `OccupiedLayers`: which layer holds which order. */
    var occupied: map<int, Layer>
    /** `DefaultSceneCompositionLayer`. */
    var defaultSceneLayer: Layer?

    /** The lists hold known layers only and never hold a layer twice. */
    ghost predicate Valid()
      reads this
    {
      NoDup(created) && NoDup(modified) && NoDup(active)
      && (forall l :: l in created ==> l in known)
      && (forall l :: l in modified ==> l in known)
      && (forall l :: l in active ==> l in known)
    }

    /** A started manager: nothing known, nothing occupied. */
    constructor ()
      ensures Valid()
      ensures known == {} && created == [] && removed == [] && modified == [] && active == []
      ensures occupied == map[] && defaultSceneLayer == null
    {
      known := {};
      created := [];
      removed := [];
      modified := [];
      active := [];
      occupied := map[];
      defaultSceneLayer := null;
    }

    /** `ClearSingleShotState`: the per-frame lists are emptied; known, active and occupied stay. */
    method ClearSingleShotState()
      requires Valid()
      modifies this
      ensures Valid()
      ensures created == [] && removed == [] && modified == []
      ensures known == old(known) && active == old(active) && occupied == old(occupied)
      ensures defaultSceneLayer == old(defaultSceneLayer)
    {
      created := [];
      removed := [];
      modified := [];
    }

    /** `ClearAllState`: every list and the occupied table are emptied. */
    method ClearAllState()
      modifies this
      ensures Valid()
      ensures known == {} && created == [] && removed == [] && modified == [] && active == []
      ensures occupied == map[] && defaultSceneLayer == old(defaultSceneLayer)
    {
      known := {};
      created := [];
      removed := [];
      modified := [];
      active := [];
      occupied := map[];
    }

    /** The condition under which `CompositionLayerStateChanged` records a layer as modified. */
    predicate MarksModified(layer: Layer)
      reads this
    {
      layer in known && layer !in created && layer.id !in removed && layer !in modified
    }

    /**
     * `CompositionLayerStateChanged`: a known layer that is not already
     * created, removed or modified this frame becomes modified. (The
     * projection-rig synchronizer it also updates is not modelled.)
     */
    method CompositionLayerStateChanged(layer: Layer?)
      requires Valid()
      modifies this`modified
      ensures Valid()
      ensures modified == if layer != null && old(MarksModified(layer)) then old(modified) + [layer] else old(modified)
    {
      if layer == null || layer !in known {
        return;
      }
      if layer !in created && layer.id !in removed && layer !in modified {
        modified := modified + [layer];
      }
    }

    /**
     * The registration part of `CompositionLayerCreated`: the layer's order
     * is recorded as occupied when free; when another layer holds it, the
     * layer moves to the next unused order. A layer not yet known is added
     * to known and created.
     */
    method RegisterLayer(layer: Layer, inEditor: bool)
      requires Valid()
      modifies this, layer`order, layer`orderInitialized
      ensures Valid() && Registered(this, layer) && occupied != map[]
    {
      var layerKnown := layer in known;
      var k := layer.order;
      if k !in occupied {
        occupied := occupied[k := layer];
      } else if occupied[k] != layer {
        ghost var before := occupied;
        ghost var mods := modified;
        var next := NextUnusedLayer(this, k);
        SearchFinds(before.Keys, if k == 0 then (if k > -1 then 1 else -1) else k, k > -1);
        var _ := TryChangeLayerOrder(this, layer, k, next, inEditor);
        assert k in occupied || layer.order in occupied;
      }
      if layerKnown {
        return;
      }
      known := known + {layer};
      created := created + [layer];
    }

    /**
     * `CompositionLayerCreated`: the layer is registered, and a layer that
     * was not known yet is followed by the fallback step, which makes sure
     * order 0 has a holder once any order is occupied. `freshId` is the
     * instance id the engine gives the fallback layer if one is made.
     */
    method CompositionLayerCreated(layer: Layer, inEditor: bool, freshId: int)
      requires Valid()
      modifies this, layer`order, layer`orderInitialized, defaultSceneLayer
      ensures Valid()
      ensures layer in old(known) ==> Registered(this, layer) && defaultSceneLayer == old(defaultSceneLayer)
      ensures layer !in old(known) ==> layer in known && layer in created && |created| > |old(created)|
                                        && created[..|old(created)| + 1] == old(created) + [layer]
      ensures layer !in old(known) ==>
                modified == old(modified) || (old(defaultSceneLayer) != null && modified == old(modified) + [old(defaultSceneLayer)])
      ensures old(known) <= known && forall l :: l in known ==> l in old(known) || l == layer || l == old(defaultSceneLayer)
      ensures removed == old(removed) && active == old(active)
      ensures layer !in old(known) ==> 0 in occupied || (defaultSceneLayer != null && defaultSceneLayer in known)
      ensures defaultSceneLayer == old(defaultSceneLayer)
              || (old(defaultSceneLayer) == null && defaultSceneLayer != null && fresh(defaultSceneLayer)
                  && defaultSceneLayer.isDefaultData && defaultSceneLayer.order == 0
                  && 0 in occupied && occupied[0] == defaultSceneLayer)
    {
      var layerKnown := layer in known;
      RegisterLayer(layer, inEditor);
      if !layerKnown {
        ghost var mid := created;
        EnsureFallbackSceneCompositionLayer(inEditor, freshId);
        assert created[..|mid|] == mid;
      }
    }

    /**
     * `EnsureFallbackSceneCompositionLayer`, with no effect while no order or
     * order 0 is occupied. An existing default scene layer is registered
     * through `CompositionLayerCreated`; when it was unknown, that call's own
     * fallback step registers it once more. Without one, a hidden layer with
     * default layer data is made, set to order 0 and kept as the default.
     */
    method EnsureFallbackSceneCompositionLayer(inEditor: bool, freshId: int)
      requires Valid()
      modifies this, defaultSceneLayer
      ensures Valid()
      ensures removed == old(removed) && active == old(active)
      ensures |old(occupied)| == 0 || 0 in old(occupied) ==>
                known == old(known) && created == old(created) && modified == old(modified)
                && occupied == old(occupied) && defaultSceneLayer == old(defaultSceneLayer)
      ensures |old(occupied)| > 0 && 0 !in old(occupied) && old(defaultSceneLayer) == null ==>
                defaultSceneLayer != null && fresh(defaultSceneLayer) && defaultSceneLayer.id == freshId
                && defaultSceneLayer.isDefaultData && defaultSceneLayer.order == 0
                && occupied == old(occupied)[0 := defaultSceneLayer]
                && known == old(known) && created == old(created) && modified == old(modified)
      ensures |old(occupied)| > 0 && 0 !in old(occupied) && old(defaultSceneLayer) != null ==>
                var d := old(defaultSceneLayer);
                defaultSceneLayer == d && known == old(known) + {d}
                && created == (if d in old(known) then old(created) else old(created) + [d])
                && (modified == old(modified) || modified == old(modified) + [d])
                && (d.order in occupied ==> occupied[d.order] == d)
    {
      if |occupied| == 0 || 0 in occupied {
        return;
      }
      var d := defaultSceneLayer;
      if d != null {
        var dKnown := d in known;
        RegisterLayer(d, inEditor);
        if !dKnown && (|occupied| == 0 || 0 !in occupied) {
          RegisterLayer(d, inEditor);
        }
        return;
      }
      ghost var before := occupied;
      var fallback := new Layer(freshId, true, true);
      var ok := TryChangeLayerOrder(this, fallback, fallback.order, 0, inEditor);
      MoveIntoFree(before, occupied, fallback, true, 1, 0, ok);
      FreshAtZero(before, occupied, fallback);
      defaultSceneLayer := fallback;
    }

    /**
     * `CompositionLayerEnabled`: an unknown layer is created first; the layer
     * becomes active once, modified unless already created or modified, and
     * its order is recorded as held by it when free.
     */
    method CompositionLayerEnabled(layer: Layer, inEditor: bool, freshId: int)
      requires Valid()
      modifies this, layer`order, layer`orderInitialized, defaultSceneLayer
      ensures Valid()
      ensures layer in known && layer in active && removed == old(removed)
      ensures active == if layer in old(active) then old(active) else old(active) + [layer]
      ensures layer in old(known) ==>
                known == old(known) && created == old(created) && defaultSceneLayer == old(defaultSceneLayer)
                && layer.order == old(layer.order)
                && modified == (if layer in old(created) || layer in old(modified) then old(modified) else old(modified) + [layer])
                && occupied == (if old(layer.order) in old(occupied) then old(occupied)
                                else old(occupied)[old(layer.order) := layer])
      ensures layer !in old(known) ==>
                layer in created && layer.order in occupied
                && (modified == old(modified) || (old(defaultSceneLayer) != null && modified == old(modified) + [old(defaultSceneLayer)]))
    {
      if layer !in known {
        CompositionLayerCreated(layer, inEditor, freshId);
      }
      MarkEnabled(layer);
    }

    /** The second half of `CompositionLayerEnabled`, once the layer is known. */
    method MarkEnabled(layer: Layer)
      requires Valid() && layer in known
      modifies this`modified, this`active, this`occupied
      ensures Valid()
      ensures active == if layer in old(active) then old(active) else old(active) + [layer]
      ensures modified == if layer in created || layer in old(modified) then old(modified) else old(modified) + [layer]
      ensures occupied == if layer.order in old(occupied) then old(occupied) else old(occupied)[layer.order := layer]
    {
      if layer !in created && layer !in modified {
        SnocNoDup(modified, layer);
        modified := modified + [layer];
      }
      if layer !in active {
        SnocNoDup(active, layer);
        active := active + [layer];
      }
      if layer.order !in occupied {
        occupied := occupied[layer.order := layer];
      }
    }

    /**
     * `CompositionLayerDisabled`: an unknown layer is ignored; otherwise the
     * layer leaves the active list and becomes modified if it is not already.
     */
    method CompositionLayerDisabled(layer: Layer)
      requires Valid()
      modifies this
      ensures Valid()
      ensures layer !in old(known) ==>
                active == old(active) && modified == old(modified)
      ensures layer in old(known) ==>
                active == Without(old(active), layer) && layer !in active
                && modified == if layer in old(modified) then old(modified) else old(modified) + [layer]
      ensures known == old(known) && created == old(created) && removed == old(removed)
      ensures occupied == old(occupied) && defaultSceneLayer == old(defaultSceneLayer)
    {
      if layer !in known {
        return;
      }
      WithoutNoDup(active, layer);
      active := Without(active, layer);
      if layer !in modified {
        modified := modified + [layer];
      }
    }

    /**
     * `IsActiveLayersDestroyed`: no active layer is left, or the only one is
     * the hidden default scene layer.
     */
    predicate ActiveLayersDestroyed()
      reads this, set i | 0 <= i < |active| :: active[i]
    {
      |active| == 0 || (|active| == 1 && active[0].isDefaultData && active[0].hidden)
    }

    /** The known-layer branch of `CompositionLayerDestroyed`: the layer leaves every list and its id is reported removed. */
    method Forget(layer: Layer)
      requires Valid() && layer in known
      modifies this
      ensures Valid()
      ensures known == old(known) - {layer} && layer !in created && layer !in active && layer !in modified
      ensures created == Without(old(created), layer) && active == Without(old(active), layer)
      ensures modified == Without(old(modified), layer) && removed == old(removed) + [layer.id]
      ensures occupied == old(occupied) && defaultSceneLayer == old(defaultSceneLayer)
    {
      WithoutNoDup(created, layer);
      WithoutNoDup(active, layer);
      WithoutNoDup(modified, layer);
      known := known - {layer};
      created := Without(created, layer);
      active := Without(active, layer);
      modified := Without(modified, layer);
      removed := removed + [layer.id];
    }

    /**
     * `CompositionLayerDestroyed`. A known layer leaves known, created,
     * active and modified, and its id is reported as removed; its order is
     * freed only if this layer holds it. When no active layer is left and no
     * layer is in a scene (`anyLayerInScene`), the manager stops: its state
     * is cleared and `stop` is returned.
     */
    method CompositionLayerDestroyed(layer: Layer, anyLayerInScene: bool) returns (stop: bool)
      requires Valid()
      modifies this
      ensures Valid()
      ensures stop ==> known == {} && created == [] && removed == [] && modified == [] && active == []
                       && occupied == map[] && defaultSceneLayer == null
      ensures !stop ==> defaultSceneLayer == old(defaultSceneLayer)
      ensures !stop && layer in old(known) ==>
                known == old(known) - {layer} && layer !in created && layer !in active && layer !in modified
                && created == Without(old(created), layer) && active == Without(old(active), layer)
                && modified == Without(old(modified), layer) && removed == old(removed) + [layer.id]
      ensures !stop && layer !in old(known) ==>
                known == old(known) && created == old(created) && active == old(active)
                && modified == old(modified) && removed == old(removed)
      ensures !stop ==>
                occupied == if layer.order in old(occupied) && old(occupied)[layer.order] == layer
                            then old(occupied) - {layer.order} else old(occupied)
    {
      if layer in known {
        Forget(layer);
      }
      if layer.order in occupied && occupied[layer.order] == layer {
        occupied := occupied - {layer.order};
      }
      stop := ActiveLayersDestroyed() && !anyLayerInScene;
      if stop {
        defaultSceneLayer := null;
        ClearAllState();
      }
    }
  }

  // ---------------------------------------------------------------------
  // The search for an unused order
  // ---------------------------------------------------------------------

  /** The occupied orders still ahead of `order` in the search direction. */
  function Ahead(occ: set<int>, order: int, overlay: bool): set<int>
  {
    set k | k in occ && (if overlay then k >= order else k <= order)
  }

  /** One step of the search never adds orders ahead, and passing an occupied order removes it. */
  lemma AheadStep(occ: set<int>, order: int, overlay: bool)
    ensures var next := if overlay then order + 1 else order - 1;
            Ahead(occ, next, overlay) <= Ahead(occ, order, overlay)
            && (order in occ ==> |Ahead(occ, next, overlay)| < |Ahead(occ, order, overlay)|)
            && (order !in occ ==> Ahead(occ, next, overlay) == Ahead(occ, order, overlay))
  {
    var next := if overlay then order + 1 else order - 1;
    AheadSplit(occ, order, overlay);
    var a, b := Ahead(occ, order, overlay), Ahead(occ, next, overlay);
    if order in occ {
      assert |a| == |b| + 1;
    } else {
      assert a == b + {};
    }
  }

  /** The orders ahead of `order` are those ahead of the next order, and `order` itself when occupied. */
  lemma AheadSplit(occ: set<int>, order: int, overlay: bool)
    ensures var next := if overlay then order + 1 else order - 1;
            Ahead(occ, order, overlay) == Ahead(occ, next, overlay) + (if order in occ then {order} else {})
            && order !in Ahead(occ, next, overlay)
  {
  }

  /**
   * The loop of `GetNextUnusedLayer` as a function: from `order`, step up
   * (overlay) or down (underlay) while the order is occupied or 0.
   */
  function Search(occ: set<int>, order: int, overlay: bool): int
    decreases |Ahead(occ, order, overlay)|, if order == 0 then 1 else 0
  {
    if order in occ || order == 0 then
      AheadStep(occ, order, overlay);
      Search(occ, if overlay then order + 1 else order - 1, overlay)
    else order
  }

  /**
   * The search ends on the first order, in its direction, that is neither
   * occupied nor 0; every order it passes is occupied or 0.
   */
  lemma {:induction false} SearchFinds(occ: set<int>, order: int, overlay: bool)
    ensures var r := Search(occ, order, overlay);
            r !in occ && r != 0
            && (overlay ==> r >= order && forall k :: order <= k < r ==> k in occ || k == 0)
            && (!overlay ==> r <= order && forall k :: r < k <= order ==> k in occ || k == 0)
    decreases |Ahead(occ, order, overlay)|, if order == 0 then 1 else 0
  {
    if order in occ || order == 0 {
      AheadStep(occ, order, overlay);
      SearchFinds(occ, if overlay then order + 1 else order - 1, overlay);
    }
  }

  /** Where the two-argument search starts: 0 becomes 1 for overlays and -1 for underlays. */
  function SearchStart(order: int, overlay: bool): int
  {
    if order == 0 then (if overlay then 1 else -1) else order
  }

  /**
   * `GetNextUnusedLayer(order, overlay)`. With no manager the start value is
   * returned unsearched; otherwise the result is the first order from the
   * start, upwards for overlays and downwards for underlays, that is neither
   * occupied nor 0.
   */
  method GetNextUnusedLayer(m: CompositionLayerManager?, order: int, overlay: bool) returns (r: int)
    ensures m == null ==> r == SearchStart(order, overlay)
    ensures m != null ==> r == Search(m.occupied.Keys, SearchStart(order, overlay), overlay)
    ensures m != null ==> r !in m.occupied && r != 0
    ensures m != null && overlay ==>
              (r >= SearchStart(order, overlay) && forall k :: SearchStart(order, overlay) <= k < r ==> k in m.occupied || k == 0)
    ensures m != null && !overlay ==>
              (r <= SearchStart(order, overlay) && forall k :: r < k <= SearchStart(order, overlay) ==> k in m.occupied || k == 0)
  {
    r := order;
    if r == 0 {
      r := if overlay then 1 else -1;
    }
    if m == null {
      return;
    }
    ghost var occ := m.occupied.Keys;
    SearchFinds(occ, r, overlay);
    while r in m.occupied || r == 0
      invariant Search(occ, r, overlay) == Search(occ, SearchStart(order, overlay), overlay)
      decreases |Ahead(occ, r, overlay)|, if r == 0 then 1 else 0
    {
      AheadStep(occ, r, overlay);
      if overlay {
        r := r + 1;
      } else {
        r := r - 1;
      }
    }
  }

  /** `GetNextUnusedLayer(order)`: orders above -1 search upwards, the others downwards. */
  method NextUnusedLayer(m: CompositionLayerManager?, order: int) returns (r: int)
    ensures m == null ==> r == SearchStart(order, order > -1)
    ensures m != null ==> r == Search(m.occupied.Keys, SearchStart(order, order > -1), order > -1)
    ensures m != null ==> r !in m.occupied && r != 0
  {
    r := GetNextUnusedLayer(m, order, order > -1);
  }

  /** `GetFirstUnusedLayer(overlay)`: the search from 1 upwards or from -1 downwards. */
  method GetFirstUnusedLayer(m: CompositionLayerManager?, overlay: bool) returns (r: int)
    ensures m != null ==> r !in m.occupied && r != 0
    ensures m != null && overlay ==> (r >= 1 && forall k :: 1 <= k < r ==> k in m.occupied)
    ensures m != null && !overlay ==> (r <= -1 && forall k :: r < k <= -1 ==> k in m.occupied)
    ensures m == null ==> r == if overlay then 1 else -1
  {
    r := GetNextUnusedLayer(m, 0, overlay);
  }

  // ---------------------------------------------------------------------
  // Order changes (CompositionLayerUtils)
  // ---------------------------------------------------------------------

  /**
   * The table part of `CanChangeOrderTo`: order 0 belongs to layers with
   * default layer data; any other order is allowed when free or already
   * held by this layer.
   */
  predicate Allowed(occ: map<int, Layer>, layer: Layer, isDefaultData: bool, order: int)
  {
    if order == 0 then isDefaultData else order !in occ || occ[order] == layer
  }

  /** `CanChangeOrderTo`: always true with no manager or outside a valid scene. */
  predicate CanChangeOrderTo(m: CompositionLayerManager?, layer: Layer, order: int)
    reads m, layer
  {
    m == null || !layer.sceneValid || Allowed(m.occupied, layer, layer.isDefaultData, order)
  }

  /** With a manager and a valid scene, order 0 is allowed exactly to default layers, and another order exactly when free or held by the layer. */
  lemma CanChangeOrderToLaw(m: CompositionLayerManager, layer: Layer, order: int)
    requires layer.sceneValid
    ensures order == 0 ==> (CanChangeOrderTo(m, layer, order) <==> layer.isDefaultData)
    ensures order != 0 ==> (CanChangeOrderTo(m, layer, order) <==> order !in m.occupied || m.occupied[order] == layer)
  {
  }

  /**
   * What `CleanUpExtraInstancesOfLayer` may do: remove one key other than
   * `keep` that maps to the layer, when there is one. Which one is the first
   * in the dictionary's enumeration order, which is not specified.
   */
  ghost predicate CleanedUp(before: map<int, Layer>, after: map<int, Layer>, layer: Layer, keep: int)
  {
    if exists k :: k in before && k != keep && before[k] == layer then
      exists k :: k in before && k != keep && before[k] == layer && after == before - {k}
    else after == before
  }

  /** A clean-up only removes keys that map to the layer, and never `keep`. */
  lemma CleanedUpFacts(before: map<int, Layer>, after: map<int, Layer>, layer: Layer, keep: int)
    requires CleanedUp(before, after, layer, keep)
    ensures forall k :: k in after ==> k in before && after[k] == before[k]
    ensures forall k :: k in before && (k == keep || before[k] != layer) ==> k in after
    ensures |after.Keys| >= |before.Keys| - 1
  {
    if exists k :: k in before && k != keep && before[k] == layer {
      var k :| k in before && k != keep && before[k] == layer && after == before - {k};
      assert before.Keys == after.Keys + {k};
    }
  }

  /** `CleanUpExtraInstancesOfLayer`: removes at most one other key held by the layer. */
  method CleanUpExtraInstancesOfLayer(m: CompositionLayerManager, layer: Layer, newOrder: int)
    modifies m`occupied
    ensures CleanedUp(old(m.occupied), m.occupied, layer, newOrder)
  {
    if layer in m.occupied.Values {
      if k :| k in m.occupied && k != newOrder && m.occupied[k] == layer {
        m.occupied := m.occupied - {k};
      }
    }
  }

  /** The table without `oldOrder` when (and only when) the layer holds it. */
  function Vacate(occ: map<int, Layer>, layer: Layer, oldOrder: int): (r: map<int, Layer>)
    ensures r.Keys <= occ.Keys && (oldOrder in r ==> occ[oldOrder] != layer)
    ensures forall k :: k in r ==> r[k] == occ[k]
    ensures forall k :: k in occ && (k != oldOrder || occ[k] != layer) ==> k in r
  {
    if oldOrder in occ && occ[oldOrder] == layer then occ - {oldOrder} else occ - {}
  }

  /** Removing `keep` on both sides of a clean-up that kept it leaves a clean-up. */
  lemma CleanedUpWithout(before: map<int, Layer>, after: map<int, Layer>, layer: Layer, keep: int)
    requires CleanedUp(before, after, layer, keep)
    ensures CleanedUp(before - {keep}, after - {keep}, layer, keep)
  {
    if exists k :: k in before && k != keep && before[k] == layer {
      var k :| k in before && k != keep && before[k] == layer && after == before - {k};
      assert after - {keep} == (before - {keep}) - {k};
      assert k in before - {keep};
    } else {
      assert !exists k :: k in before - {keep} && k != keep && (before - {keep})[k] == layer;
    }
  }

  /** `after` is `before` cleaned up for the layer, with the layer holding order `k`. */
  ghost predicate Holds(before: map<int, Layer>, after: map<int, Layer>, layer: Layer, k: int)
  {
    k in after && after[k] == layer && CleanedUp(before - {k}, after - {k}, layer, k)
  }

  /**
   * The effect of `TryChangeLayerOrder` on the table when the manager is
   * active and the layer is in a valid scene.
   */
  ghost predicate OrderChange(before: map<int, Layer>, after: map<int, Layer>, layer: Layer, isDefaultData: bool,
                              oldOrder: int, newOrder: int, ok: bool)
  {
    if oldOrder == newOrder then
      if newOrder in before && before[newOrder] != layer then !ok && after == before
      else ok && Holds(before, after, layer, newOrder)
    else if !Allowed(before, layer, isDefaultData, newOrder) then !ok && after == before
    else
      var v := Vacate(before, layer, oldOrder);
      if newOrder in v && v[newOrder] != layer then !ok && CleanedUp(v, after, layer, newOrder)
      else ok && Holds(v, after, layer, newOrder)
  }

  /**
   * `SetLayerOrder`: in the editor through the serialized property, at run
   * time through `SetLayerOrderInternal` (which also marks the order
   * initialized); either way a changed value reports a state change.
   */
  method SetLayerOrder(m: CompositionLayerManager?, layer: Layer, value: int, inEditor: bool)
    requires m != null ==> m.Valid()
    modifies m, layer`order, layer`orderInitialized
    ensures m != null ==> m.Valid() && Same(m) && m.occupied == old(m.occupied)
    ensures m != null ==>
              m.modified == if old(layer.order) != value && layer.activeAndEnabled && old(m.MarksModified(layer))
                            then old(m.modified) + [layer] else old(m.modified)
    ensures layer.order == value
    ensures layer.orderInitialized == (old(layer.orderInitialized) || !inEditor)
  {
    if layer.order != value {
      layer.order := value;
      ReportStateChange(m, layer);
    }
    if !inEditor {
      layer.orderInitialized := true;
    }
  }

  /** Everything but `modified` and `occupied` is as it was. */
  twostate predicate Same(m: CompositionLayerManager)
    reads m
  {
    m.known == old(m.known) && m.created == old(m.created) && m.removed == old(m.removed)
    && m.active == old(m.active) && m.defaultSceneLayer == old(m.defaultSceneLayer)
  }

  /**
   * What registering a layer does: an unknown layer joins known and created;
   * modified may gain a known layer not yet created or modified; a free
   * order is recorded as held by the layer, and an order held by another
   * layer moves the layer to the next unused order (recorded as held when
   * the layer's scene is valid).
   */
  twostate predicate Registered(m: CompositionLayerManager, layer: Layer)
    reads m, layer
  {
    && m.known == old(m.known) + {layer}
    && m.created == (if layer in old(m.known) then old(m.created) else old(m.created) + [layer])
    && m.removed == old(m.removed) && m.active == old(m.active) && m.defaultSceneLayer == old(m.defaultSceneLayer)
    && (m.modified == old(m.modified)
        || (m.modified == old(m.modified) + [layer] && layer in old(m.known) && layer !in old(m.created) && layer !in old(m.modified)))
    && (var k := old(layer.order);
        if k !in old(m.occupied) then layer.order == k && m.occupied == old(m.occupied)[k := layer]
        else if old(m.occupied)[k] == layer then layer.order == k && m.occupied == old(m.occupied)
        else layer.order == Search(old(m.occupied).Keys, k, k > -1)
             && layer.order !in old(m.occupied) && layer.order != 0
             && (layer.sceneValid ==> layer.order in m.occupied && m.occupied[layer.order] == layer))
    && (layer.order in m.occupied ==> m.occupied[layer.order] == layer)
  }

  /** A fresh layer moved into the free order 0 is added there and nothing else changes. */
  lemma FreshAtZero(before: map<int, Layer>, after: map<int, Layer>, layer: Layer)
    requires 0 in after && after[0] == layer && 0 !in before
    requires forall k :: k in after && k != 0 ==> k in before && after[k] == before[k]
    requires forall k :: k in before && before[k] != layer ==> k in after && after[k] == before[k]
    requires forall k :: k in before ==> before[k] != layer
    ensures after == before[0 := layer]
  {
    forall k ensures k in after <==> k in before[0 := layer] {
      if k in before { assert before[k] != layer; }
    }
    forall k | k in after ensures after[k] == before[0 := layer][k] {
    }
    assert after.Keys == before[0 := layer].Keys;
  }

  /** `ReportStateChange`: an active and enabled layer notifies an active manager. */
  method ReportStateChange(m: CompositionLayerManager?, layer: Layer)
    requires m != null ==> m.Valid()
    modifies m
    ensures m != null ==> m.Valid() && Same(m) && m.occupied == old(m.occupied)
    ensures m != null ==>
              m.modified == if layer.activeAndEnabled && old(m.MarksModified(layer)) then old(m.modified) + [layer] else old(m.modified)
  {
    if layer.activeAndEnabled && m != null {
      m.CompositionLayerStateChanged(layer);
    }
  }

  /** How an order change may touch the modified list: not at all, or by appending the layer once. */
  twostate predicate ModifiedLaw(m: CompositionLayerManager, layer: Layer)
    reads m
  {
    m.modified == old(m.modified) || (m.modified == old(m.modified) + [layer] && old(m.MarksModified(layer)))
  }

  /**
   * After a clean-up that kept order `k`, `k` is held by another layer
   * exactly when it was before; when it was not, putting the layer at `k`
   * (if free) makes the layer hold it.
   */
  lemma PlaceAfterCleanUp(before: map<int, Layer>, after: map<int, Layer>, layer: Layer, k: int)
    requires CleanedUp(before, after, layer, k)
    ensures (k in after && after[k] != layer) <==> (k in before && before[k] != layer)
    ensures !(k in before && before[k] != layer) ==>
              Holds(before, if k in after then after else after[k := layer], layer, k)
  {
    CleanedUpFacts(before, after, layer, k);
    if !(k in before && before[k] != layer) {
      PlaceFree(before, after, layer, k);
    }
  }

  /** With `k` free of other layers after a clean-up, putting the layer there makes it hold `k`. */
  lemma PlaceFree(before: map<int, Layer>, after: map<int, Layer>, layer: Layer, k: int)
    requires CleanedUp(before, after, layer, k)
    requires !(k in before && before[k] != layer)
    ensures Holds(before, if k in after then after else after[k := layer], layer, k)
  {
    CleanedUpWithout(before, after, layer, k);
    if k in after {
      CleanedUpFacts(before, after, layer, k);
      HoldsIntro(before, after, after, layer, k);
    } else {
      HoldsAdded(before, after, layer, k);
    }
  }

  /** Adding the layer at a free `k` to a clean-up that kept `k` makes it hold `k`. */
  lemma HoldsAdded(before: map<int, Layer>, after: map<int, Layer>, layer: Layer, k: int)
    requires k !in after && CleanedUp(before - {k}, after - {k}, layer, k)
    ensures Holds(before, after[k := layer], layer, k)
  {
    assert after[k := layer] - {k} == after - {k};
  }

  /** The layer holding `k` in a table that agrees off `k` with a clean-up that kept `k`. */
  lemma HoldsIntro(before: map<int, Layer>, after: map<int, Layer>, placed: map<int, Layer>, layer: Layer, k: int)
    requires k in placed && placed[k] == layer && placed - {k} == after - {k}
    requires CleanedUp(before - {k}, after - {k}, layer, k)
    ensures Holds(before, placed, layer, k)
  {
  }

  /** The same-order branch of `TryChangeLayerOrder`. */
  method KeepOrder(m: CompositionLayerManager, layer: Layer, order: int, inEditor: bool) returns (ok: bool)
    requires m.Valid()
    modifies m, layer`order, layer`orderInitialized
    ensures m.Valid() && Same(m) && ModifiedLaw(m, layer)
    ensures layer.order == if ok then order else old(layer.order)
    ensures if order in old(m.occupied) && old(m.occupied)[order] != layer then !ok && m.occupied == old(m.occupied)
            else ok && Holds(old(m.occupied), m.occupied, layer, order)
  {
    if order in m.occupied && m.occupied[order] != layer {
      return false;
    }
    ghost var before := m.occupied;
    CleanUpExtraInstancesOfLayer(m, layer, order);
    PlaceAfterCleanUp(before, m.occupied, layer, order);
    if order !in m.occupied {
      m.occupied := m.occupied[order := layer];
    }
    ghost var placed := m.occupied;
    SetLayerOrder(m, layer, order, inEditor);
    assert m.occupied == placed;
    ok := true;
  }

  /** The changing-order branch of `TryChangeLayerOrder`, once `CanChangeOrderTo` has agreed. */
  method MoveOrder(m: CompositionLayerManager, layer: Layer, oldOrder: int, newOrder: int, inEditor: bool) returns (ok: bool)
    requires m.Valid()
    modifies m, layer`order, layer`orderInitialized
    ensures m.Valid() && Same(m) && ModifiedLaw(m, layer)
    ensures layer.order == if ok then newOrder else old(layer.order)
    ensures var v := Vacate(old(m.occupied), layer, oldOrder);
            if newOrder in v && v[newOrder] != layer then !ok && CleanedUp(v, m.occupied, layer, newOrder)
            else ok && Holds(v, m.occupied, layer, newOrder)
  {
    if oldOrder in m.occupied && m.occupied[oldOrder] == layer {
      m.occupied := m.occupied - {oldOrder};
    }
    ghost var v := m.occupied;
    assert v == Vacate(old(m.occupied), layer, oldOrder);
    CleanUpExtraInstancesOfLayer(m, layer, newOrder);
    PlaceAfterCleanUp(v, m.occupied, layer, newOrder);
    if newOrder in m.occupied && m.occupied[newOrder] != layer {
      return false;
    }
    if newOrder !in m.occupied {
      m.occupied := m.occupied[newOrder := layer];
    }
    ghost var placed := m.occupied;
    SetLayerOrder(m, layer, newOrder, inEditor);
    assert m.occupied == placed;
    ok := true;
  }

  /**
   * `TryChangeLayerOrder`. With no manager or outside a valid scene the
   * order is set and the call succeeds. Keeping the same order fails exactly
   * when another layer holds it; otherwise the layer ends holding it.
   * Changing the order fails when `CanChangeOrderTo` refuses; otherwise the
   * old order is released if the layer held it, and the layer ends holding
   * the new one (which fails only when order 0 is held by another default
   * layer).
   */
  method TryChangeLayerOrder(m: CompositionLayerManager?, layer: Layer, oldOrder: int, newOrder: int, inEditor: bool)
    returns (ok: bool)
    requires m != null ==> m.Valid()
    modifies m, layer`order, layer`orderInitialized
    ensures m != null ==> m.Valid() && Same(m) && ModifiedLaw(m, layer)
    ensures layer.order == if ok then newOrder else old(layer.order)
    ensures m == null || !layer.sceneValid ==> ok && (m != null ==> m.occupied == old(m.occupied))
    ensures m != null && layer.sceneValid ==>
              OrderChange(old(m.occupied), m.occupied, layer, layer.isDefaultData, oldOrder, newOrder, ok)
  {
    if m == null || !layer.sceneValid {
      SetLayerOrder(m, layer, newOrder, inEditor);
      return true;
    }
    if oldOrder == newOrder {
      ok := KeepOrder(m, layer, newOrder, inEditor);
      return;
    }
    if !CanChangeOrderTo(m, layer, newOrder) {
      return false;
    }
    ok := MoveOrder(m, layer, oldOrder, newOrder, inEditor);
  }

  /**
   * An allowed move into a free order succeeds: afterwards the layer holds
   * it, every other entry was already there, and entries of other layers
   * are kept.
   */
  lemma MoveIntoFree(before: map<int, Layer>, after: map<int, Layer>, layer: Layer, isDefaultData: bool,
                     oldOrder: int, newOrder: int, ok: bool)
    requires oldOrder != newOrder && newOrder !in before && (newOrder != 0 || isDefaultData)
    requires OrderChange(before, after, layer, isDefaultData, oldOrder, newOrder, ok)
    ensures ok && newOrder in after && after[newOrder] == layer
    ensures forall k :: k in after && k != newOrder ==> k in before && after[k] == before[k]
    ensures forall k :: k in before && before[k] != layer ==> k in after && after[k] == before[k]
  {
    assert Allowed(before, layer, isDefaultData, newOrder);
    var v := Vacate(before, layer, oldOrder);
    assert newOrder !in v;
    assert Holds(v, after, layer, newOrder);
    var b', a' := v - {newOrder}, after - {newOrder};
    CleanedUpFacts(b', a', layer, newOrder);
    assert b' == v;
    forall k | k in after && k != newOrder ensures k in before && after[k] == before[k] {
      assert k in a';
    }
    forall k | k in before && before[k] != layer ensures k in after && after[k] == before[k] {
      assert k in b';
      assert k in a';
    }
  }

  /** Entries of other layers are kept, and every entry added belongs to the layer. */
  ghost predicate OthersKept(before: map<int, Layer>, after: map<int, Layer>, layer: Layer)
  {
    (forall k :: k in before && before[k] != layer ==> k in after && after[k] == before[k])
    && (forall k :: k in after && after[k] != layer ==> k in before && after[k] == before[k])
  }

  /** Two steps that each keep other layers' entries keep them together. */
  lemma OthersKeptTrans(a: map<int, Layer>, b: map<int, Layer>, c: map<int, Layer>, layer: Layer)
    requires OthersKept(a, b, layer) && OthersKept(b, c, layer)
    ensures OthersKept(a, c, layer)
  {
  }

  /** A clean-up that keeps `keep`, with the layer placed at `keep`, keeps the entries of other layers. */
  lemma HoldsKeepsOthers(before: map<int, Layer>, after: map<int, Layer>, layer: Layer, k: int)
    requires Holds(before, after, layer, k) && !(k in before && before[k] != layer)
    ensures OthersKept(before, after, layer)
  {
    var b', a' := before - {k}, after - {k};
    CleanedUpFacts(b', a', layer, k);
    forall j | j in before && before[j] != layer ensures j in after && after[j] == before[j] {
      assert j != k && j in b';
      assert j in a';
    }
    forall j | j in after && after[j] != layer ensures j in before && after[j] == before[j] {
      assert j != k && j in a';
    }
  }

  /** Whatever `TryChangeLayerOrder` does to the table, it touches only the layer's own entries. */
  lemma OrderChangeFrame(before: map<int, Layer>, after: map<int, Layer>, layer: Layer, isDefaultData: bool,
                         oldOrder: int, newOrder: int, ok: bool)
    requires OrderChange(before, after, layer, isDefaultData, oldOrder, newOrder, ok)
    ensures OthersKept(before, after, layer)
  {
    if oldOrder == newOrder {
      if ok {
        HoldsKeepsOthers(before, after, layer, newOrder);
      }
    } else if Allowed(before, layer, isDefaultData, newOrder) {
      var v := Vacate(before, layer, oldOrder);
      assert OthersKept(before, v, layer);
      if newOrder in v && v[newOrder] != layer {
        CleanedUpFacts(v, after, layer, newOrder);
      } else {
        HoldsKeepsOthers(v, after, layer, newOrder);
      }
      OthersKeptTrans(before, v, after, layer);
    }
  }

  /**
   * A layer that holds no entry yet and asks for a free order it may take
   * gets exactly that entry added.
   */
  lemma TakeFreeOrder(before: map<int, Layer>, after: map<int, Layer>, layer: Layer, isDefaultData: bool,
                      oldOrder: int, newOrder: int, ok: bool)
    requires newOrder !in before && (forall k :: k in before ==> before[k] != layer) && (newOrder != 0 || isDefaultData)
    requires OrderChange(before, after, layer, isDefaultData, oldOrder, newOrder, ok)
    ensures ok && after == before[newOrder := layer]
  {
    var v := Vacate(before, layer, oldOrder);
    assert v == before;
    assert before - {newOrder} == before;
    assert Holds(v, after, layer, newOrder);
    assert !exists k :: k in before && k != newOrder && before[k] == layer;
    assert after - {newOrder} == before;
    assert after == before[newOrder := layer];
  }

  /** The guards of `TrySwapLayers`, read on the current state. */
  predicate SwapGuards(m: CompositionLayerManager?, lhl: Layer, rhl: Layer)
    reads m, lhl, rhl
  {
    lhl != rhl && m != null && lhl.sceneValid && rhl.sceneValid
    && m.defaultSceneLayer != lhl && m.defaultSceneLayer != rhl
    && lhl in m.occupied.Values && rhl in m.occupied.Values
    && (lhl.order in m.occupied ==> m.occupied[lhl.order] == lhl)
    && (rhl.order in m.occupied ==> m.occupied[rhl.order] == rhl)
  }

  /**
   * `TrySwapLayers` as written: after its guards it releases both orders and
   * assigns each layer the other's order through the `Order` setter, then
   * returns true whatever the setters did. When both moves are allowed the
   * orders are exchanged; when the right-hand layer sits at order 0 and the
   * left-hand layer is not a default layer, the first move is refused and
   * the call still succeeds, leaving both layers at the left-hand order.
   */
  method TrySwapLayers(m: CompositionLayerManager?, lhl: Layer, rhl: Layer, inEditor: bool) returns (ok: bool)
    requires m != null ==> m.Valid()
    modifies m, lhl`order, lhl`orderInitialized, rhl`order, rhl`orderInitialized
    ensures m != null ==> m.Valid() && Same(m)
    ensures ok == old(SwapGuards(m, lhl, rhl))
    ensures !ok ==> lhl.order == old(lhl.order) && rhl.order == old(rhl.order)
    ensures ok && old(lhl.order) != old(rhl.order)
            && (old(rhl.order) != 0 || lhl.isDefaultData) && (old(lhl.order) != 0 || rhl.isDefaultData) ==>
              m != null && lhl.order == old(rhl.order) && rhl.order == old(lhl.order)
              && lhl.order in m.occupied && m.occupied[lhl.order] == lhl
              && rhl.order in m.occupied && m.occupied[rhl.order] == rhl
    ensures ok && old(rhl.order) == 0 && old(lhl.order) != 0 && !lhl.isDefaultData ==>
              lhl.order == old(lhl.order) && rhl.order == old(lhl.order)
  {
    if !SwapGuards(m, lhl, rhl) {
      if m != null {
        assert m.occupied == old(m.occupied);
      }
      return false;
    }
    var lo, ro := lhl.order, rhl.order;
    m.occupied := m.occupied - {lo} - {ro};
    ghost var o1 := m.occupied;
    var ok1 := TryChangeLayerOrder(m, lhl, lo, ro, inEditor);
    ghost var o2 := m.occupied;
    if lo != ro && (ro != 0 || lhl.isDefaultData) {
      MoveIntoFree(o1, o2, lhl, lhl.isDefaultData, lo, ro, ok1);
    }
    var ok2 := TryChangeLayerOrder(m, rhl, rhl.order, lo, inEditor);
    if lo != ro && (ro != 0 || lhl.isDefaultData) && (lo != 0 || rhl.isDefaultData) {
      MoveIntoFree(o2, m.occupied, rhl, rhl.isDefaultData, ro, lo, ok2);
    }
    if ro == 0 && lo != 0 && !lhl.isDefaultData {
      MoveIntoFree(o2, m.occupied, rhl, rhl.isDefaultData, ro, lo, ok2);
    }
    return true;
  }

  /** The guards under which both moves of a swap are allowed. */
  predicate SwapAllowed(m: CompositionLayerManager?, lhl: Layer, rhl: Layer)
    reads m, lhl, rhl
  {
    SwapGuards(m, lhl, rhl) && lhl.order != rhl.order
    && (rhl.order != 0 || lhl.isDefaultData) && (lhl.order != 0 || rhl.isDefaultData)
  }

  /**
   * `TrySwapLayers` as evidently intended: it succeeds only when both moves
   * are allowed, and then the two layers have exchanged their orders and
   * each holds its new order in the table; otherwise nothing changes. When
   * neither order was 0, a second call swaps them back.
   */
  method TrySwapLayersChecked(m: CompositionLayerManager?, lhl: Layer, rhl: Layer, inEditor: bool) returns (ok: bool)
    requires m != null ==> m.Valid()
    modifies m, lhl`order, lhl`orderInitialized, rhl`order, rhl`orderInitialized
    ensures m != null ==> m.Valid() && Same(m)
    ensures ok == old(SwapAllowed(m, lhl, rhl))
    ensures !ok ==> lhl.order == old(lhl.order) && rhl.order == old(rhl.order) && (m != null ==> m.occupied == old(m.occupied))
    ensures ok ==> m != null && lhl.order == old(rhl.order) && rhl.order == old(lhl.order)
                   && lhl.order in m.occupied && m.occupied[lhl.order] == lhl
                   && rhl.order in m.occupied && m.occupied[rhl.order] == rhl
    ensures ok && old(lhl.order) != 0 && old(rhl.order) != 0 ==> SwapAllowed(m, lhl, rhl)
  {
    if !SwapAllowed(m, lhl, rhl) {
      return false;
    }
    ok := TrySwapLayers(m, lhl, rhl, inEditor);
  }
}
