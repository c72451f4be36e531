/**
 * The registry of layer-data descriptors built by the static constructor of
 * `CompositionLayerUtils` (`Runtime/Services/CompositionLayerUtils.cs`), and
 * its lookup `GetLayerDescriptor`. The reflective scan for `LayerData`
 * subclasses is given as a sequence of types, each with the
 * `CompositionLayerDataAttribute`s it carries.
 */
module LayerDescriptors {
  import opened Wrappers

  /** A `CompositionLayerDataAttribute`: each string may be left unset (null). */
  datatype DataAttribute = DataAttribute(
    provider: Option<string>, name: Option<string>, description: Option<string>,
    iconPath: Option<string>, inspectorIcon: Option<string>, listViewIcon: Option<string>,
    preferOverlay: bool, supportTransform: bool)

  /** A `LayerData` subclass: its `FullName`, `Name`, the name of its module and its attributes. */
  datatype LayerDataType = LayerDataType(fullName: string, name: string, moduleName: string, attrs: seq<DataAttribute>)

  /**
   * A `LayerDataDescriptor`. `dataType` is the described type, by full name
   * (null for the empty descriptor). The suggested extension types are not
   * part of this model.
   */
  datatype Descriptor = Descriptor(
    provider: string, name: string, typeFullName: string, description: string,
    iconPath: string, inspectorIcon: string, listViewIcon: string,
    preferOverlay: bool, supportTransform: bool, dataType: Option<string>)

  /** `LayerDataDescriptor.Empty`: empty strings, overlay preferred, no transform, no type. */
  const Empty := Descriptor("", "", "", "", "", "", "", true, false, None)

  /** `!string.IsNullOrEmpty(s) ? s : fallback`. */
  function OrElse(s: Option<string>, fallback: string): string
  {
    if s.Some? && s.value != "" then s.value else fallback
  }

  /** The descriptor the registration builds for one attribute of a type. */
  function Describe(t: LayerDataType, a: DataAttribute): Descriptor
  {
    Descriptor(OrElse(a.provider, t.moduleName), OrElse(a.name, t.name), t.fullName,
               OrElse(a.description, ""), OrElse(a.iconPath, ""), OrElse(a.inspectorIcon, ""),
               OrElse(a.listViewIcon, ""), a.preferOverlay, a.supportTransform, Some(t.fullName))
  }

  /** The descriptors of one type, one per attribute, in attribute order. */
  function Describes(t: LayerDataType, attrs: seq<DataAttribute>): seq<Descriptor>
  {
    seq(|attrs|, i requires 0 <= i < |attrs| => Describe(t, attrs[i]))
  }

  /** Every descriptor the scan produces, type by type. */
  function Pending(types: seq<LayerDataType>): seq<Descriptor>
  {
    if types == [] then []
    else Pending(types[..|types| - 1]) + Describes(types[|types| - 1], types[|types| - 1].attrs)
  }

  /** Adding descriptors one at a time; a second descriptor for a full name throws (`None`). */
  function Register(ds: seq<Descriptor>): Option<map<string, Descriptor>>
  {
    if ds == [] then Some(map[])
    else
      match Register(ds[..|ds| - 1])
      case None => None
      case Some(reg) =>
        var d := ds[|ds| - 1];
        if d.typeFullName in reg then None else Some(reg[d.typeFullName := d])
  }

  /** No two descriptors share a full name. */
  predicate Distinct(ds: seq<Descriptor>)
  {
    forall i, j :: 0 <= i < j < |ds| ==> ds[i].typeFullName != ds[j].typeFullName
  }

  /**
   * Registration succeeds exactly when the full names are distinct, and then
   * the registry holds every descriptor under its full name and nothing else.
   */
  lemma {:induction false} RegisterLaw(ds: seq<Descriptor>)
    ensures Register(ds).Some? <==> Distinct(ds)
    ensures Register(ds).Some? ==>
              Register(ds).value.Keys == (set d | d in ds :: d.typeFullName)
              && (forall d :: d in ds ==> Register(ds).value[d.typeFullName] == d)
  {
    if ds != [] {
      var init, d := ds[..|ds| - 1], ds[|ds| - 1];
      assert ds == init + [d];
      RegisterLaw(init);
      RegisterStep(init, d);
      DistinctSnoc(init, d);
      NamesSnoc(init, d);
    }
  }

  /** One more descriptor keeps the full names distinct exactly when no earlier one has its full name. */
  lemma DistinctSnoc(init: seq<Descriptor>, d: Descriptor)
    ensures Distinct(init + [d]) <==> Distinct(init) && forall e :: e in init ==> e.typeFullName != d.typeFullName
  {
    var ds := init + [d];
    if Distinct(ds) {
      forall e | e in init ensures e.typeFullName != d.typeFullName {
        var i :| 0 <= i < |init| && init[i] == e;
        assert ds[i] == e && ds[|init|] == d;
      }
      forall i, j | 0 <= i < j < |init| ensures init[i].typeFullName != init[j].typeFullName {
        assert ds[i] == init[i] && ds[j] == init[j];
      }
    }
    if Distinct(init) && forall e :: e in init ==> e.typeFullName != d.typeFullName {
      forall i, j | 0 <= i < j < |ds| ensures ds[i].typeFullName != ds[j].typeFullName {
        if j == |init| {
          assert ds[i] in init;
        } else {
          assert init[i] == ds[i] && init[j] == ds[j];
        }
      }
    }
  }

  /** The full names of one more descriptor. */
  lemma NamesSnoc(init: seq<Descriptor>, d: Descriptor)
    ensures (set e | e in init + [d] :: e.typeFullName) == (set e | e in init :: e.typeFullName) + {d.typeFullName}
  {
  }

  /** The descriptors of a type's attributes grow by one per attribute. */
  lemma DescribesSnoc(t: LayerDataType, attrs: seq<DataAttribute>, j: nat)
    requires j < |attrs|
    ensures Describes(t, attrs[..j + 1]) == Describes(t, attrs[..j]) + [Describe(t, attrs[j])]
  {
  }

  /** Every pending descriptor describes one attribute of one of the scanned types. */
  lemma {:induction false} PendingFrom(types: seq<LayerDataType>, d: Descriptor)
    requires d in Pending(types)
    ensures exists t, a :: t in types && a in t.attrs && d == Describe(t, a)
  {
    var init, last := types[..|types| - 1], types[|types| - 1];
    if d in Pending(init) {
      PendingFrom(init, d);
      var t, a :| t in init && a in t.attrs && d == Describe(t, a);
      assert t in types;
    } else {
      var i :| 0 <= i < |last.attrs| && Describes(last, last.attrs)[i] == d;
      assert last.attrs[i] in last.attrs;
    }
  }

  /** Every attribute of every scanned type has its descriptor pending. */
  lemma {:induction false} PendingCovers(types: seq<LayerDataType>, t: LayerDataType, a: DataAttribute)
    requires t in types && a in t.attrs
    ensures Describe(t, a) in Pending(types)
  {
    var init, last := types[..|types| - 1], types[|types| - 1];
    if t in init {
      PendingCovers(init, t, a);
    } else {
      assert t == last;
      var i :| 0 <= i < |t.attrs| && t.attrs[i] == a;
      assert Describes(last, last.attrs)[i] == Describe(t, a);
    }
  }

  /**
   * The static constructor: every attribute of every scanned type adds its
   * descriptor under the type's full name; a full name registered twice
   * throws, here `None` (the descriptors after it are then not added).
   */
  method RegisterLayerDescriptors(types: seq<LayerDataType>) returns (registry: Option<map<string, Descriptor>>)
    ensures registry == Register(Pending(types))
  {
    registry := Some(map[]);
    for i := 0 to |types|
      invariant registry == Register(Pending(types[..i]))
    {
      PendingSnoc(types, i);
      registry := RegisterType(registry, Pending(types[..i]), types[i]);
    }
    assert types[..|types|] == types;
  }

  /** The inner loop of the static constructor: the descriptors of one type's attributes, added in turn. */
  method RegisterType(registry0: Option<map<string, Descriptor>>, ghost before: seq<Descriptor>, t: LayerDataType)
    returns (registry: Option<map<string, Descriptor>>)
    requires registry0 == Register(before)
    ensures registry == Register(before + Describes(t, t.attrs))
  {
    registry := registry0;
    assert before + Describes(t, t.attrs[..0]) == before;
    for j := 0 to |t.attrs|
      invariant registry == Register(before + Describes(t, t.attrs[..j]))
    {
      var d := Describe(t, t.attrs[j]);
      DescribesAppend(before, t, j);
      RegisterStep(before + Describes(t, t.attrs[..j]), d);
      if registry.Some? {
        if d.typeFullName in registry.value {
          registry := None;
        } else {
          registry := Some(registry.value[d.typeFullName := d]);
        }
      }
    }
    assert t.attrs[..|t.attrs|] == t.attrs;
  }

  /** Registering one more descriptor: a thrown registration stays thrown, a repeated full name throws, a new one is added. */
  lemma RegisterStep(ds: seq<Descriptor>, d: Descriptor)
    ensures Register(ds + [d]) ==
      if Register(ds).None? || d.typeFullName in Register(ds).value then None
      else Some(Register(ds).value[d.typeFullName := d])
  {
    assert (ds + [d])[..|ds|] == ds;
  }

  /** The pending descriptors grow by one per attribute of the type being scanned. */
  lemma DescribesAppend(before: seq<Descriptor>, t: LayerDataType, j: nat)
    requires j < |t.attrs|
    ensures before + Describes(t, t.attrs[..j + 1]) == (before + Describes(t, t.attrs[..j])) + [Describe(t, t.attrs[j])]
  {
    DescribesSnoc(t, t.attrs, j);
  }

  /** `GetLayerDescriptor(typeFullName)`: `Empty` for a null or empty name and for an unregistered one. */
  function GetLayerDescriptor(registry: map<string, Descriptor>, typeFullName: Option<string>): Descriptor
  {
    if typeFullName.None? || typeFullName.value == "" then Empty
    else if typeFullName.value in registry then registry[typeFullName.value]
    else Empty
  }

  /** A type that carries the attribute (a type without one is never registered). */
  predicate Attributed(types: seq<LayerDataType>, name: string)
  {
    exists t :: t in types && t.fullName == name && t.attrs != []
  }

  /**
   * Looking up a registry built from `types`: a null or empty name gives
   * `Empty`; any other name gives a descriptor other than `Empty` exactly
   * when a scanned type of that full name carries the attribute, and that
   * descriptor is the one built from one of its attributes.
   */
  lemma LookupLaw(types: seq<LayerDataType>, name: Option<string>)
    requires Register(Pending(types)).Some?
    ensures name.None? || name.value == "" ==> GetLayerDescriptor(Register(Pending(types)).value, name) == Empty
    ensures name.Some? && name.value != "" ==>
              (GetLayerDescriptor(Register(Pending(types)).value, name) != Empty <==> Attributed(types, name.value))
    ensures name.Some? && name.value != "" && Attributed(types, name.value) ==>
              exists t, a :: t in types && a in t.attrs && t.fullName == name.value
                             && GetLayerDescriptor(Register(Pending(types)).value, name) == Describe(t, a)
  {
    var ds := Pending(types);
    RegisterLaw(ds);
    var reg := Register(ds).value;
    if name.Some? && name.value != "" {
      var n := name.value;
      if Attributed(types, n) {
        var t :| t in types && t.fullName == n && t.attrs != [];
        PendingCovers(types, t, t.attrs[0]);
        assert Describe(t, t.attrs[0]).typeFullName == n;
      }
      if n in reg {
        var d :| d in ds && d.typeFullName == n;
        PendingFrom(types, d);
        var t, a :| t in types && a in t.attrs && d == Describe(t, a);
        assert GetLayerDescriptor(reg, name) == d;
        assert t.fullName == n;
      }
    }
  }

  /** Once registration has thrown, adding more descriptors does not undo it. */
  lemma {:induction false} ThrownStays(ds: seq<Descriptor>, more: seq<Descriptor>)
    requires Register(ds).None?
    ensures Register(ds + more).None?
  {
    if more != [] {
      var init := more[..|more| - 1];
      ThrownStays(ds, init);
      assert (ds + more)[..|ds + more| - 1] == ds + init;
    } else {
      assert ds + more == ds;
    }
  }

  /** The descriptors of the first `k` types come first. */
  lemma {:induction false} PendingPrefix(types: seq<LayerDataType>, k: nat)
    requires k <= |types|
    ensures exists rest :: Pending(types) == Pending(types[..k]) + rest
  {
    if k < |types| {
      var init := types[..|types| - 1];
      PendingPrefix(init, k);
      var rest :| Pending(init) == Pending(init[..k]) + rest;
      assert init[..k] == types[..k];
      assert Pending(types) == Pending(types[..k]) + (rest + Describes(types[|types| - 1], types[|types| - 1].attrs));
    } else {
      assert types[..k] == types;
      assert Pending(types) == Pending(types[..k]) + [];
    }
  }

  /** A descriptor whose full name is already pending makes its registration throw. */
  lemma AddExisting(ds: seq<Descriptor>, e: Descriptor, d: Descriptor)
    requires e in ds && e.typeFullName == d.typeFullName
    ensures Register(ds + [d]).None?
  {
    RegisterLaw(ds);
    assert (ds + [d])[..|ds|] == ds;
  }

  /** The descriptors of the first `j + 1` types: those of the first `j`, then those of type `j`. */
  lemma PendingSnoc(types: seq<LayerDataType>, j: nat)
    requires j < |types|
    ensures Pending(types[..j + 1]) == Pending(types[..j]) + Describes(types[j], types[j].attrs)
  {
    assert types[..j + 1][..j] == types[..j];
  }

  /** A type whose first attribute repeats a pending full name makes the registration throw. */
  lemma ThrowsAt(before: seq<Descriptor>, e: Descriptor, t: LayerDataType)
    requires e in before && e.typeFullName == t.fullName && t.attrs != []
    ensures Register(before + Describes(t, t.attrs)).None?
  {
    var d := Describe(t, t.attrs[0]);
    AddExisting(before, e, d);
    var tail := Describes(t, t.attrs)[1..];
    assert Describes(t, t.attrs) == [d] + tail;
    ThrownStays(before + [d], tail);
    assert before + Describes(t, t.attrs) == (before + [d]) + tail;
  }

  /** Two attributed types with the same full name make the registration throw. */
  lemma DuplicateThrows(types: seq<LayerDataType>, i: nat, j: nat)
    requires i < j < |types| && types[i].fullName == types[j].fullName
    requires types[i].attrs != [] && types[j].attrs != []
    ensures Register(Pending(types)).None?
  {
    var ti := types[i];
    assert types[..j][i] == ti;
    PendingCovers(types[..j], ti, ti.attrs[0]);
    ThrowsAt(Pending(types[..j]), Describe(ti, ti.attrs[0]), types[j]);
    PendingSnoc(types, j);
    PendingPrefix(types, j + 1);
    var rest :| Pending(types) == Pending(types[..j + 1]) + rest;
    ThrownStays(Pending(types[..j + 1]), rest);
  }
}
