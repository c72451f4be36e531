/**
 * The editor side of layer ordering and naming:
 * `Editor/Layers/CompositionLayerEditorUtils.cs` (the layer-type name lists,
 * the formatted layer name, the sorted occupied layers, the editor's
 * comparer and the three-step order change) and the reorder pass of
 * `Editor/Layers/CompositionLayersWindow.cs`.
 */
module LayerEditor {
  import opened Wrappers
  import opened LayerManager
  import opened LayerDescriptors

  // ---------------------------------------------------------------------
  // Layer-type name lists
  // ---------------------------------------------------------------------

  const ProjectionRigType := "Unity.XR.CompositionLayers.Layers.ProjectionLayerRigData"
  const DefaultType := "Unity.XR.CompositionLayers.Layers.DefaultLayerData"
  const QuadType := "Unity.XR.CompositionLayers.Layers.QuadLayerData"
  const CylinderType := "Unity.XR.CompositionLayers.Layers.CylinderLayerData"

  /** Types hidden from the layer-type dropdown. */
  predicate Hidden(d: Descriptor)
  {
    d.dataType == Some(ProjectionRigType) || d.dataType == Some(DefaultType)
  }

  /** Types offered for UI layers. */
  predicate ForUI(d: Descriptor)
  {
    d.dataType == Some(QuadType) || d.dataType == Some(CylinderType)
  }

  /** `LayerNames`: the full names of the descriptors not hidden, in descriptor order. */
  function LayerNames(all: seq<Descriptor>): seq<string>
  {
    if all == [] then []
    else
      var d := all[|all| - 1];
      LayerNames(all[..|all| - 1]) + (if Hidden(d) then [] else [d.typeFullName])
  }

  /** `UILayerNames`: the full names of the Quad and Cylinder descriptors, in descriptor order. */
  function UILayerNames(all: seq<Descriptor>): seq<string>
  {
    if all == [] then []
    else
      var d := all[|all| - 1];
      UILayerNames(all[..|all| - 1]) + (if !Hidden(d) && ForUI(d) then [d.typeFullName] else [])
  }

  /**
   * A name is listed exactly when some descriptor that is not hidden has it;
   * the UI names are listed names of Quad or Cylinder descriptors.
   */
  lemma {:induction false} NameListsLaw(all: seq<Descriptor>)
    ensures forall n :: n in LayerNames(all) <==> exists d :: d in all && !Hidden(d) && d.typeFullName == n
    ensures forall n :: n in UILayerNames(all) <==> exists d :: d in all && ForUI(d) && d.typeFullName == n
    ensures forall n :: n in UILayerNames(all) ==> n in LayerNames(all)
  {
    if all != [] {
      var init, d := all[..|all| - 1], all[|all| - 1];
      assert all == init + [d];
      NameListsLaw(init);
      forall n | n in LayerNames(all) ensures exists e :: e in all && !Hidden(e) && e.typeFullName == n {
        if n !in LayerNames(init) {
          assert d in all;
        } else {
          var e :| e in init && !Hidden(e) && e.typeFullName == n;
          assert e in all;
        }
      }
      forall n | n in UILayerNames(all) ensures exists e :: e in all && ForUI(e) && e.typeFullName == n {
        if n !in UILayerNames(init) {
          assert d in all;
        } else {
          var e :| e in init && ForUI(e) && e.typeFullName == n;
          assert e in all;
        }
      }
      forall n | exists e :: e in all && ForUI(e) && e.typeFullName == n ensures n in UILayerNames(all) {
        var e :| e in all && ForUI(e) && e.typeFullName == n;
        if e != d {
          assert e in init;
        }
      }
    }
  }

  /** The registered descriptors of the hidden types are never listed, whatever else is. */
  lemma HiddenNotListed(all: seq<Descriptor>)
    requires forall d :: d in all ==> d.dataType == Some(d.typeFullName)
    ensures ProjectionRigType !in LayerNames(all) && DefaultType !in LayerNames(all)
    ensures forall n :: n in UILayerNames(all) ==> n == QuadType || n == CylinderType
  {
    NameListsLaw(all);
    forall d | d in all && !Hidden(d) ensures d.typeFullName != ProjectionRigType && d.typeFullName != DefaultType {
      assert d.dataType == Some(d.typeFullName);
    }
    forall d | d in all && ForUI(d) ensures d.typeFullName == QuadType || d.typeFullName == CylinderType {
      assert d.dataType == Some(d.typeFullName);
    }
  }

  /**
   * The static constructor's name lists and the list `SortedLayers` that
   * `GetKnownOccupiedLayersFromManager` refreshes.
   */
  class CompositionLayerEditorUtils {
    var uiLayerNames: seq<string>
    var layerNames: seq<string>
    var sortedLayers: seq<Layer>

    /** The static constructor: one pass over `all`, the descriptors in the registry's order. */
    constructor (all: seq<Descriptor>)
      ensures layerNames == LayerNames(all) && uiLayerNames == UILayerNames(all) && sortedLayers == []
    {
      var ui: seq<string> := [];
      var names: seq<string> := [];
      for i := 0 to |all|
        invariant names == LayerNames(all[..i]) && ui == UILayerNames(all[..i])
      {
        var d := all[i];
        assert all[..i + 1][..i] == all[..i];
        if Hidden(d) {
          continue;
        }
        if ForUI(d) {
          ui := ui + [d.typeFullName];
        }
        names := names + [d.typeFullName];
      }
      assert all[..|all|] == all;
      uiLayerNames := ui;
      layerNames := names;
      sortedLayers := [];
    }

    /**
     * `GetKnownOccupiedLayersFromManager`: with no manager the list is
     * emptied; otherwise it holds the layers of `OccupiedLayers`, one per
     * entry, sorted by ascending order.
     */
    method GetKnownOccupiedLayersFromManager(m: CompositionLayerManager?)
      modifies this`sortedLayers
      ensures m == null ==> sortedLayers == []
      ensures m != null ==> |sortedLayers| == |m.occupied.Keys|
                            && (forall l :: l in sortedLayers <==> Occupies(m.occupied, l))
                            && SortedByOrder(sortedLayers)
    {
      if m == null {
        sortedLayers := [];
        return;
      }
      var values := OccupiedValues(m);
      sortedLayers := SortByOrder(values);
    }
  }

  /** The layer holds some entry of the table. */
  ghost predicate Occupies(occ: map<int, Layer>, l: Layer)
  {
    exists k :: k in occ && occ[k] == l
  }

  /** `GetOccupiedLayers`: the table's layers, one per entry, in the dictionary's (unspecified) order. */
  method OccupiedValues(m: CompositionLayerManager) returns (values: seq<Layer>)
    ensures |values| == |m.occupied.Keys|
    ensures forall l :: l in values <==> Occupies(m.occupied, l)
  {
    var occ := m.occupied;
    values := [];
    var rest := occ;
    while exists k :: k in rest
      invariant rest.Keys <= occ.Keys
      invariant forall k :: k in rest ==> rest[k] == occ[k]
      invariant |values| + |rest.Keys| == |occ.Keys|
      invariant forall l :: l in values ==> Occupies(occ, l)
      invariant forall k :: k in occ && k !in rest ==> occ[k] in values
      decreases |rest.Keys|
    {
      var k :| k in rest;
      assert rest.Keys == (rest - {k}).Keys + {k};
      values := values + [rest[k]];
      rest := rest - {k};
    }
  }

  /** Ascending by `Order`. */
  predicate SortedByOrder(s: seq<Layer>)
    reads s
  {
    forall i, j :: 0 <= i < j < |s| ==> s[i].order <= s[j].order
  }

  /** A layer placed after the layers of no greater order and before the greater ones keeps the sequence sorted. */
  lemma InsertSorted(sorted: seq<Layer>, x: Layer, k: nat)
    requires SortedByOrder(sorted) && k <= |sorted|
    requires forall p :: 0 <= p < k ==> sorted[p].order <= x.order
    requires k < |sorted| ==> sorted[k].order > x.order
    ensures SortedByOrder(sorted[..k] + [x] + sorted[k..])
  {
    var r := sorted[..k] + [x] + sorted[k..];
    forall i, j | 0 <= i < j < |r| ensures r[i].order <= r[j].order {
      if j < k {
        assert r[i] == sorted[i] && r[j] == sorted[j];
      } else if j == k {
        assert r[i] == sorted[i];
      } else if i < k {
        assert r[i] == sorted[i] && r[j] == sorted[j - 1];
      } else if i == k {
        assert r[j] == sorted[j - 1];
      } else {
        assert r[i] == sorted[i - 1] && r[j] == sorted[j - 1];
      }
    }
  }

  /** Inserting one layer after every layer of no greater order. */
  method InsertByOrder(sorted: seq<Layer>, x: Layer) returns (r: seq<Layer>)
    requires SortedByOrder(sorted)
    ensures SortedByOrder(r) && multiset(r) == multiset(sorted) + multiset{x}
  {
    var k := 0;
    while k < |sorted| && sorted[k].order <= x.order
      invariant 0 <= k <= |sorted|
      invariant forall p :: 0 <= p < k ==> sorted[p].order <= x.order
    {
      k := k + 1;
    }
    InsertSorted(sorted, x, k);
    r := sorted[..k] + [x] + sorted[k..];
    assert sorted == sorted[..k] + sorted[k..];
  }

  /** `List.Sort` with a consistent order-by-`Order` comparer: a sorted permutation. */
  method SortByOrder(s: seq<Layer>) returns (r: seq<Layer>)
    ensures SortedByOrder(r) && multiset(r) == multiset(s)
    ensures |r| == |s| && forall l :: l in r <==> l in s
  {
    r := [];
    for i := 0 to |s|
      invariant SortedByOrder(r) && multiset(r) == multiset(s[..i])
    {
      assert s[..i + 1] == s[..i] + [s[i]];
      r := InsertByOrder(r, s[i]);
    }
    assert s[..|s|] == s;
    assert |r| == |multiset(r)|;
    forall l ensures l in r <==> l in s {
      assert l in r <==> l in multiset(r);
      assert l in s <==> l in multiset(s);
    }
  }

  // ---------------------------------------------------------------------
  // The editor's comparer
  // ---------------------------------------------------------------------

  /** `LayerSorter` of the editor, as written: equal orders compare as 1. */
  function EditorLayerSorter(lhsOrder: int, rhsOrder: int): int
  {
    if lhsOrder == rhsOrder then 1 else if lhsOrder < rhsOrder then -1 else 1
  }

  /**
   * The comparer as written is not a comparison: two layers of the same
   * order (a layer and itself, in particular) each compare greater than the
   * other.
   */
  lemma EditorLayerSorterNotAntisymmetric(order: int)
    ensures EditorLayerSorter(order, order) == 1
    ensures EditorLayerSorter(order, order) != -EditorLayerSorter(order, order)
  {
  }

  /** The comparer as evidently intended: equal orders compare equal. */
  function EditorLayerSorterFixed(lhsOrder: int, rhsOrder: int): (c: int)
    ensures c == 0 <==> lhsOrder == rhsOrder
    ensures c < 0 <==> lhsOrder < rhsOrder
  {
    if lhsOrder == rhsOrder then 0 else if lhsOrder < rhsOrder then -1 else 1
  }

  /** The fixed comparer agrees with the as-written one except on equal orders, and is antisymmetric and transitive. */
  lemma EditorLayerSorterFixedIsOrder(a: int, b: int, c: int)
    ensures a != b ==> EditorLayerSorterFixed(a, b) == EditorLayerSorter(a, b)
    ensures EditorLayerSorterFixed(a, b) == -EditorLayerSorterFixed(b, a)
    ensures EditorLayerSorterFixed(a, b) <= 0 && EditorLayerSorterFixed(b, c) <= 0 ==> EditorLayerSorterFixed(a, c) <= 0
  {
  }

  /** A sequence sorted by order is ordered by the fixed comparer. */
  lemma SortedAgreesWithSorter(s: seq<Layer>)
    requires SortedByOrder(s)
    ensures forall i, j :: 0 <= i < j < |s| ==> EditorLayerSorterFixed(s[i].order, s[j].order) <= 0
  {
  }

  // ---------------------------------------------------------------------
  // Formatted layer names
  // ---------------------------------------------------------------------

  const EmptyLayerName := "[Empty]"
  const UnknownLayerName := "(UnKnown) - "

  /** `default(LayerDataDescriptor)`; its null strings are empty here, and it differs from `Empty` by `PreferOverlay`. */
  const DefaultDescriptor := Descriptor("", "", "", "", "", "", "", false, false, None)

  /**
   * `GetFormattedLayerName(typeFullName)`, given whether the layer data is
   * supported on all platforms (`EditorPlatformManager.IsSupportedLayerDataAllPlatforms`).
   */
  function GetFormattedLayerName(registry: map<string, Descriptor>, typeFullName: Option<string>, supportedAll: bool): string
  {
    if typeFullName.None? || typeFullName.value == "" then EmptyLayerName
    else
      var d := GetLayerDescriptor(registry, typeFullName);
      if d != DefaultDescriptor && d != Empty then
        var providerName := if d.provider != "Unity" then d.provider + " - " else "";
        var layerName := providerName + d.name;
        if supportedAll then layerName else "! " + layerName
      else UnknownLayerName + typeFullName.value
  }

  /**
   * The formatted name over a registry built from `types`: "[Empty]" for a
   * null or empty name; "(UnKnown) - " and the name for a type that is not
   * attributed; otherwise the descriptor's name, after its provider and " - "
   * unless the provider is "Unity", after "! " unless supported on all
   * platforms.
   */
  lemma FormattedNameLaw(types: seq<LayerDataType>, name: Option<string>, supportedAll: bool)
    requires Register(Pending(types)).Some?
    ensures var r := GetFormattedLayerName(Register(Pending(types)).value, name, supportedAll);
            (name.None? || name.value == "" ==> r == EmptyLayerName)
            && (name.Some? && name.value != "" && !Attributed(types, name.value) ==> r == UnknownLayerName + name.value)
            && (name.Some? && name.value != "" && Attributed(types, name.value) ==>
                  exists t, a :: t in types && a in t.attrs && t.fullName == name.value
                    && var d := Describe(t, a);
                       r == (if supportedAll then "" else "! ") + (if d.provider == "Unity" then "" else d.provider + " - ") + d.name)
  {
    LookupLaw(types, name);
    var reg := Register(Pending(types)).value;
    if name.Some? && name.value != "" && Attributed(types, name.value) {
      var t, a :| t in types && a in t.attrs && t.fullName == name.value
                  && GetLayerDescriptor(reg, name) == Describe(t, a);
      FormattedDescriptor(reg, name, supportedAll, Describe(t, a));
    }
  }

  /** A registered descriptor (it has a type) is shown by its provider, its name and the platform mark. */
  lemma FormattedDescriptor(reg: map<string, Descriptor>, name: Option<string>, supportedAll: bool, d: Descriptor)
    requires name.Some? && name.value != "" && GetLayerDescriptor(reg, name) == d && d.dataType.Some?
    ensures GetFormattedLayerName(reg, name, supportedAll)
      == (if supportedAll then "" else "! ") + (if d.provider == "Unity" then "" else d.provider + " - ") + d.name
  {
    var p := if d.provider == "Unity" then "" else d.provider + " - ";
    assert "" + (p + d.name) == p + d.name;
    assert ("! " + p) + d.name == "! " + (p + d.name);
  }

  // ---------------------------------------------------------------------
  // Order changes from the editor
  // ---------------------------------------------------------------------

  /** Order `order` is free and the layer may take it, and the layer holds no entry yet. */
  ghost predicate TakesFree(occ: map<int, Layer>, layer: Layer, isDefaultData: bool, order: int)
  {
    order !in occ && (forall k :: k in occ ==> occ[k] != layer) && (order != 0 || isDefaultData)
  }

  /**
   * `SetOrderInEditor`: try the new order, then keeping the old one, then
   * the next unused order after the new one. With no manager or outside a
   * valid scene the first try succeeds. Otherwise the layer ends holding its
   * order in the table, other layers' entries are kept, and a layer that
   * asks for a free order it may take gets exactly that.
   */
  method SetOrderInEditor(m: CompositionLayerManager?, layer: Layer, oldOrder: int, newOrder: int)
    requires m != null ==> m.Valid()
    modifies m, layer`order, layer`orderInitialized
    ensures m != null ==> m.Valid() && Same(m) && OthersKept(old(m.occupied), m.occupied, layer)
    ensures m == null || !layer.sceneValid ==> layer.order == newOrder && (m != null ==> m.occupied == old(m.occupied))
    ensures m != null && layer.sceneValid ==> layer.order in m.occupied && m.occupied[layer.order] == layer
    ensures m != null && layer.sceneValid && TakesFree(old(m.occupied), layer, layer.isDefaultData, newOrder) ==>
              layer.order == newOrder && m.occupied == old(m.occupied)[newOrder := layer]
  {
    if m == null || !layer.sceneValid {
      var ok := TryChangeLayerOrder(m, layer, oldOrder, newOrder, true);
      return;
    }
    ghost var o0 := m.occupied;
    var ok1 := TryChangeLayerOrder(m, layer, oldOrder, newOrder, true);
    OrderChangeFrame(o0, m.occupied, layer, layer.isDefaultData, oldOrder, newOrder, ok1);
    if TakesFree(o0, layer, layer.isDefaultData, newOrder) {
      TakeFreeOrder(o0, m.occupied, layer, layer.isDefaultData, oldOrder, newOrder, ok1);
    }
    if ok1 {
      return;
    }
    ghost var o1 := m.occupied;
    var ok2 := TryChangeLayerOrder(m, layer, oldOrder, oldOrder, true);
    OrderChangeFrame(o1, m.occupied, layer, layer.isDefaultData, oldOrder, oldOrder, ok2);
    OthersKeptTrans(o0, o1, m.occupied, layer);
    if ok2 {
      return;
    }
    ghost var o2 := m.occupied;
    var orderValue := NextUnusedLayer(m, newOrder);
    var ok3 := TryChangeLayerOrder(m, layer, oldOrder, orderValue, true);
    MoveIntoFree(o2, m.occupied, layer, layer.isDefaultData, oldOrder, orderValue, ok3);
    OrderChangeFrame(o2, m.occupied, layer, layer.isDefaultData, oldOrder, orderValue, ok3);
    OthersKeptTrans(o0, o2, m.occupied, layer);
  }

  // ---------------------------------------------------------------------
  // The reorder pass of the layers window
  // ---------------------------------------------------------------------

  /** `IndexOf`: the first index of `x` in `s`, or -1. */
  function IndexOf<T(==)>(s: seq<T>, x: T): (i: int)
    ensures -1 <= i < |s|
    ensures i >= 0 ==> s[i] == x && forall j :: 0 <= j < i ==> s[j] != x
    ensures i == -1 <==> x !in s
  {
    if s == [] then -1
    else if s[0] == x then 0
    else var r := IndexOf(s[1..], x); if r == -1 then -1 else r + 1
  }

  /** The order the pass targets for each position: its distance from the default scene layer. */
  function Targets(list: seq<Layer>, defaultLayer: Layer?): seq<int>
  {
    var pivot := IndexOf(list, defaultLayer);
    seq(|list|, i requires 0 <= i < |list| => i - pivot)
  }

  /**
   * The targets are consecutive and increasing; the default scene layer
   * targets 0, those before it negative orders and those after it positive
   * ones; without it in the list, position `i` targets `i + 1`.
   */
  lemma TargetsLaw(list: seq<Layer>, defaultLayer: Layer?)
    ensures |Targets(list, defaultLayer)| == |list|
    ensures forall i :: 0 <= i < |list| - 1 ==> Targets(list, defaultLayer)[i + 1] == Targets(list, defaultLayer)[i] + 1
    ensures defaultLayer in list ==>
              forall i :: 0 <= i < |list| ==>
                (Targets(list, defaultLayer)[i] == 0 <==> list[i] == defaultLayer && forall j :: 0 <= j < i ==> list[j] != defaultLayer)
                && (Targets(list, defaultLayer)[i] < 0 <==> forall j :: 0 <= j <= i ==> list[j] != defaultLayer)
    ensures defaultLayer !in list ==> forall i :: 0 <= i < |list| ==> Targets(list, defaultLayer)[i] == i + 1
  {
    var pivot := IndexOf(list, defaultLayer);
    if defaultLayer in list {
      forall i | 0 <= i < |list|
        ensures (Targets(list, defaultLayer)[i] < 0 <==> forall j :: 0 <= j <= i ==> list[j] != defaultLayer)
      {
        if i >= pivot {
          assert list[pivot] == defaultLayer;
        }
      }
    }
  }

  /** The table the pass builds when every layer takes its target: the first `i` layers at their targets, those in a valid scene in the table. */
  ghost function Assigned(list: seq<Layer>, pivot: int, i: nat): (occ: map<int, Layer>)
    requires i <= |list|
    reads (set l | l in list)`sceneValid
  {
    if i == 0 then map[]
    else
      var prev := Assigned(list, pivot, i - 1);
      if list[i - 1].sceneValid then prev[i - 1 - pivot := list[i - 1]] else prev
  }

  /** Each entry of the table of the first `i` layers is the layer at its target. */
  lemma {:induction false} AssignedEntries(list: seq<Layer>, pivot: int, i: nat)
    requires i <= |list|
    ensures forall k :: k in Assigned(list, pivot, i) ==> 0 <= k + pivot < i && Assigned(list, pivot, i)[k] == list[k + pivot]
  {
    if i > 0 {
      AssignedEntries(list, pivot, i - 1);
    }
  }

  /** The pivot of the pass may take order 0: it is the default layer, and it carries default layer data when its scene is valid. */
  predicate PivotMayTakeZero(list: seq<Layer>, defaultLayer: Layer?)
    reads list
  {
    var pivot := IndexOf(list, defaultLayer);
    pivot >= 0 && list[pivot].sceneValid ==> list[pivot].isDefaultData
  }

  /**
   * What the pass has done after its first `i` layers: the table holds only
   * those layers; with no repeats, each of them in a valid scene holds its
   * order; in a clean run, each took its target.
   */
  ghost predicate Reordered(m: CompositionLayerManager, list: seq<Layer>, i: nat, pivot: int, clean: bool)
    requires i <= |list|
    reads m, list
  {
    (forall k :: k in m.occupied ==> m.occupied[k] in list[..i])
    && (NoDup(list) ==>
          forall j :: 0 <= j < i && list[j].sceneValid ==> list[j].order in m.occupied && m.occupied[list[j].order] == list[j])
    && (clean ==> m.occupied == Assigned(list, pivot, i) && forall j :: 0 <= j < i ==> list[j].order == j - pivot)
  }

  /** In a clean run, the target of layer `i` is free and the layer holds no entry yet. */
  lemma FreeTarget(before: map<int, Layer>, list: seq<Layer>, i: nat, pivot: int)
    requires i < |list| && NoDup(list) && before == Assigned(list, pivot, i)
    ensures i - pivot !in before && forall k :: k in before ==> before[k] != list[i]
  {
    AssignedEntries(list, pivot, i);
    forall k | k in before ensures before[k] != list[i] {
      assert before[k] == list[k + pivot];
    }
  }

  /** After layer `i`'s step, the table still holds only layers of the list seen so far. */
  lemma StillFromList(before: map<int, Layer>, after: map<int, Layer>, list: seq<Layer>, i: nat)
    requires i < |list| && OthersKept(before, after, list[i])
    requires forall k :: k in before ==> before[k] in list[..i]
    ensures forall k :: k in after ==> after[k] in list[..i + 1]
  {
    assert list[..i + 1] == list[..i] + [list[i]];
    forall k | k in after ensures after[k] in list[..i + 1] {
      if after[k] != list[i] {
        assert after[k] in list[..i];
      }
    }
  }

  /** One step of the pass: layer `i` is sent to order `i - pivot`. */
  method ReorderOne(m: CompositionLayerManager, list: seq<Layer>, layer: Layer, i: nat, pivot: int, ghost clean: bool)
    requires i < |list| && list[i] == layer && m.Valid() && Reordered(m, list, i, pivot, clean)
    requires clean ==> NoDup(list) && (i == pivot && list[i].sceneValid ==> list[i].isDefaultData)
    modifies m, layer`order, layer`orderInitialized
    ensures m.Valid() && Same(m) && Reordered(m, list, i + 1, pivot, clean)
  {
    ghost var before := m.occupied;
    if clean {
      FreeTarget(before, list, i, pivot);
    }
    SetOrderInEditor(m, layer, layer.order, i - pivot);
    assert forall k :: k in m.occupied ==> m.occupied[k] in list[..i + 1] by {
      StillFromList(before, m.occupied, list, i);
    }
    assert NoDup(list) ==>
             forall j :: 0 <= j < i + 1 && list[j].sceneValid ==> list[j].order in m.occupied && m.occupied[list[j].order] == list[j] by {
      if NoDup(list) {
        forall j | 0 <= j < i && list[j].sceneValid
          ensures list[j].order in m.occupied && m.occupied[list[j].order] == list[j]
        {
          assert list[j] != layer;
          assert list[j].order == old(list[j].order);
          assert old(list[j].order) in before && before[old(list[j].order)] == list[j];
        }
      }
    }
    assert clean ==> m.occupied == Assigned(list, pivot, i + 1) && forall j :: 0 <= j < i + 1 ==> list[j].order == j - pivot by {
      if clean {
        forall j | 0 <= j < i ensures list[j].order == j - pivot {
          assert list[j] != layer;
        }
      }
    }
  }

  /**
   * `OnReorderCallback`: `OccupiedLayers` is cleared, then every layer of
   * the reordered list is sent to its target through `SetOrderInEditor`.
   * The table then holds only layers of the list. When the list has no
   * repeats, every layer in a valid scene holds its order in the table; when
   * moreover the pivot may take order 0, every layer takes exactly its
   * target and the table is exactly those of valid scenes at their targets.
   */
  method OnReorderCallback(m: CompositionLayerManager, list: seq<Layer>)
    requires m.Valid()
    modifies m, (set l | l in list)`order, (set l | l in list)`orderInitialized
    ensures m.Valid()
    ensures forall k :: k in m.occupied ==> m.occupied[k] in list
    ensures NoDup(list) ==> forall l :: l in list && l.sceneValid ==> l.order in m.occupied && m.occupied[l.order] == l
    ensures NoDup(list) && old(PivotMayTakeZero(list, m.defaultSceneLayer)) ==>
              (forall i :: 0 <= i < |list| ==> list[i].order == old(Targets(list, m.defaultSceneLayer))[i])
              && m.occupied == Assigned(list, old(IndexOf(list, m.defaultSceneLayer)), |list|)
  {
    m.occupied := map[];
    var pivot := IndexOf(list, m.defaultSceneLayer);
    ghost var targets := Targets(list, m.defaultSceneLayer);
    ghost var clean := NoDup(list) && PivotMayTakeZero(list, m.defaultSceneLayer);
    ReorderList(m, list, pivot, clean);
    ReorderedAll(m, list, pivot, clean);
    assert forall i :: 0 <= i < |list| ==> targets[i] == i - pivot;
  }

  /** The loop of the pass: each layer in turn is sent to its target. */
  method ReorderList(m: CompositionLayerManager, list: seq<Layer>, pivot: int, ghost clean: bool)
    requires m.Valid() && m.occupied == map[]
    requires clean ==> NoDup(list) && (0 <= pivot < |list| && list[pivot].sceneValid ==> list[pivot].isDefaultData)
    modifies m, (set l | l in list)`order, (set l | l in list)`orderInitialized
    ensures m.Valid() && m.defaultSceneLayer == old(m.defaultSceneLayer)
    ensures Reordered(m, list, |list|, pivot, clean)
  {
    for i := 0 to |list|
      invariant m.Valid() && m.defaultSceneLayer == old(m.defaultSceneLayer)
      invariant Reordered(m, list, i, pivot, clean)
    {
      ReorderOne(m, list, list[i], i, pivot, clean);
    }
  }

  /** The whole list reordered, stated over the list rather than its prefix. */
  lemma ReorderedAll(m: CompositionLayerManager, list: seq<Layer>, pivot: int, clean: bool)
    requires Reordered(m, list, |list|, pivot, clean)
    ensures forall k :: k in m.occupied ==> m.occupied[k] in list
    ensures NoDup(list) ==> forall l :: l in list && l.sceneValid ==> l.order in m.occupied && m.occupied[l.order] == l
    ensures clean ==> (forall i :: 0 <= i < |list| ==> list[i].order == i - pivot) && m.occupied == Assigned(list, pivot, |list|)
  {
    assert list[..|list|] == list;
    if NoDup(list) {
      forall l | l in list && l.sceneValid
        ensures l.order in m.occupied && m.occupied[l.order] == l
      {
        var j :| 0 <= j < |list| && list[j] == l;
      }
    }
  }
}
