/**
 * `EmulatedCompositionLayerUtils`: the registry from layer-data types to the
 * emulated layer data types that draw them, and the three emulation flags.
 * Types are named by their full names.  Each concrete emulated type declares,
 * through its attributes, the layer-data types it emulates; a registry entry
 * may be claimed only once.
 */
module EmulatedCompositionLayerUtils {
  import opened Wrappers

  /**
   * A subclass of the emulated layer data base class: its name, whether it is
   * abstract, and the layer-data types named by its attributes (None when the
   * attribute array could not be read).
   */
  datatype EmulatedType = EmulatedType(name: string, isAbstract: bool, attributes: Option<seq<string>>)

  /** The two exceptions the registry build throws. */
  datatype Failure =
    | MissingAttribute(typeName: string)
    | AlreadyUsed(layerDataType: string, typeName: string, associatedType: string)

  /** The registry after a build, and the exception that stopped it, if any. */
  datatype Outcome = Outcome(registry: map<string, string>, error: Option<Failure>)

  // ---------------------------------------------------------------------
  // The build as a fold
  // ---------------------------------------------------------------------

  /** The attribute loop: each layer-data type is added unless already present, which throws. */
  function AddAttributes(reg: map<string, string>, name: string, attrs: seq<string>): Outcome
  {
    if |attrs| == 0 then Outcome(reg, None)
    else
      var o := AddAttributes(reg, name, attrs[..|attrs| - 1]);
      var k := attrs[|attrs| - 1];
      if o.error.Some? then o
      else if k in o.registry then Outcome(o.registry, Some(AlreadyUsed(k, name, o.registry[k])))
      else Outcome(o.registry[k := name], None)
  }

  /** One type: abstract ones are skipped, concrete ones need at least one attribute. */
  function RegisterType(reg: map<string, string>, t: EmulatedType): Outcome
  {
    if t.isAbstract then Outcome(reg, None)
    else if t.attributes.None? || |t.attributes.value| == 0 then Outcome(reg, Some(MissingAttribute(t.name)))
    else AddAttributes(reg, t.name, t.attributes.value)
  }

  /** `GetEmulatedLayerDataTypes`: the types in discovery order, stopping at the first exception. */
  function Register(reg: map<string, string>, types: seq<EmulatedType>): Outcome
  {
    if |types| == 0 then Outcome(reg, None)
    else
      var o := Register(reg, types[..|types| - 1]);
      if o.error.Some? then o else RegisterType(o.registry, types[|types| - 1])
  }

  // ---------------------------------------------------------------------
  // What the build means
  // ---------------------------------------------------------------------

  predicate Distinct(s: seq<string>)
  {
    forall i, j :: 0 <= i < j < |s| ==> s[i] != s[j]
  }

  /** Every concrete type declares at least one layer-data type. */
  predicate AllAttributed(types: seq<EmulatedType>)
  {
    forall t :: t in types && !t.isAbstract ==> t.attributes.Some? && |t.attributes.value| > 0
  }

  /** The layer-data types claimed by the concrete types, in discovery order. */
  function Claims(types: seq<EmulatedType>): seq<string>
  {
    if |types| == 0 then []
    else
      var t := types[|types| - 1];
      Claims(types[..|types| - 1]) + (if t.isAbstract || t.attributes.None? then [] else t.attributes.value)
  }

  /** `name` is a concrete type of `types` that declares `key`. */
  ghost predicate Declares(types: seq<EmulatedType>, key: string, name: string)
  {
    exists t :: t in types && !t.isAbstract && t.name == name && t.attributes.Some? && key in t.attributes.value
  }

  lemma DistinctSnoc(s: seq<string>, x: string)
    ensures Distinct(s + [x]) <==> Distinct(s) && x !in s
  {
    var s' := s + [x];
    if Distinct(s') {
      forall i, j | 0 <= i < j < |s| ensures s[i] != s[j] {
        assert s[i] == s'[i] && s[j] == s'[j];
      }
      forall i | 0 <= i < |s| ensures s[i] != x {
        assert s'[i] != s'[|s|];
      }
    }
  }

  lemma DistinctAppend(s: seq<string>, u: seq<string>)
    ensures Distinct(s + u) ==> Distinct(s) && Distinct(u) && forall k :: k in u ==> k !in s
  {
    if Distinct(s + u) {
      forall i, j | 0 <= i < j < |s| ensures s[i] != s[j] {
        assert s[i] == (s + u)[i] && s[j] == (s + u)[j];
      }
      forall i, j | 0 <= i < j < |u| ensures u[i] != u[j] {
        assert u[i] == (s + u)[|s| + i] && u[j] == (s + u)[|s| + j];
      }
      forall k | k in u ensures k !in s {
        var j :| 0 <= j < |u| && u[j] == k;
        forall i | 0 <= i < |s| ensures s[i] != k {
          assert (s + u)[i] != (s + u)[|s| + j];
        }
      }
    }
  }

  lemma DistinctJoin(s: seq<string>, u: seq<string>)
    requires Distinct(s) && Distinct(u) && forall k :: k in u ==> k !in s
    ensures Distinct(s + u)
  {
    forall i, j | 0 <= i < j < |s + u| ensures (s + u)[i] != (s + u)[j] {
      if j < |s| {
        assert (s + u)[i] == s[i] && (s + u)[j] == s[j];
      } else if i < |s| {
        assert (s + u)[i] == s[i] && (s + u)[j] == u[j - |s|];
        assert u[j - |s|] in u;
      } else {
        assert (s + u)[i] == u[i - |s|] && (s + u)[j] == u[j - |s|];
      }
    }
  }

  /**
   * The attribute loop succeeds exactly when its layer-data types are
   * distinct and none is registered yet; then each of them maps to the type
   * and nothing else changes.  A failure names a type already registered.
   */
  lemma AddAttributesLaw(reg: map<string, string>, name: string, attrs: seq<string>)
    ensures var o := AddAttributes(reg, name, attrs);
      && (o.error.None? <==> Distinct(attrs) && forall k :: k in attrs ==> k !in reg)
      && (o.error.None? ==> o.registry.Keys == reg.Keys + set k | k in attrs)
      && (o.error.None? ==> forall k :: k in attrs ==> o.registry[k] == name)
      && (forall k :: k in reg ==> k in o.registry && o.registry[k] == reg[k])
      && (forall k :: k in o.registry && k !in reg ==> k in attrs && o.registry[k] == name)
      && (o.error.Some? ==> o.error.value.AlreadyUsed? && o.error.value.typeName == name
                            && o.error.value.layerDataType in o.registry)
  {
    AddAttributesSucceeds(reg, name, attrs);
    AddAttributesKeeps(reg, name, attrs);
  }

  /** The attribute loop succeeds exactly when its layer-data types are distinct and new, and then adds each of them. */
  lemma {:induction false} AddAttributesSucceeds(reg: map<string, string>, name: string, attrs: seq<string>)
    ensures var o := AddAttributes(reg, name, attrs);
      && (o.error.None? <==> Distinct(attrs) && forall k :: k in attrs ==> k !in reg)
      && (o.error.None? ==> o.registry.Keys == reg.Keys + set k | k in attrs)
      && (o.error.None? ==> forall k :: k in attrs ==> o.registry[k] == name)
  {
    if |attrs| > 0 {
      var init := attrs[..|attrs| - 1];
      var k := attrs[|attrs| - 1];
      assert attrs == init + [k];
      AddAttributesSucceeds(reg, name, init);
      DistinctSnoc(init, k);
    }
  }

  /** The attribute loop never replaces an entry, adds only its own types, and can only fail on a registered one. */
  lemma {:induction false} AddAttributesKeeps(reg: map<string, string>, name: string, attrs: seq<string>)
    ensures var o := AddAttributes(reg, name, attrs);
      && (forall k :: k in reg ==> k in o.registry && o.registry[k] == reg[k])
      && (forall k :: k in o.registry && k !in reg ==> k in attrs && o.registry[k] == name)
      && (o.error.Some? ==> o.error.value.AlreadyUsed? && o.error.value.typeName == name
                            && o.error.value.layerDataType in o.registry)
  {
    if |attrs| > 0 {
      var init := attrs[..|attrs| - 1];
      var k := attrs[|attrs| - 1];
      assert attrs == init + [k];
      AddAttributesKeeps(reg, name, init);
    }
  }

  lemma ClaimsSnoc(types: seq<EmulatedType>, t: EmulatedType)
    ensures Claims(types + [t]) == Claims(types) + (if t.isAbstract || t.attributes.None? then [] else t.attributes.value)
  {
    assert (types + [t])[..|types|] == types;
  }

  lemma DeclaresSnoc(types: seq<EmulatedType>, t: EmulatedType, key: string, name: string)
    ensures Declares(types, key, name) ==> Declares(types + [t], key, name)
  {
    if Declares(types, key, name) {
      var u :| u in types && !u.isAbstract && u.name == name && u.attributes.Some? && key in u.attributes.value;
      assert u in types + [t];
    }
  }

  /**
   * The whole build: it succeeds exactly when every concrete type has an
   * attribute and the claimed layer-data types are distinct and not yet
   * registered.  Entries already present are never replaced, and every new
   * entry maps a layer-data type to a concrete type that declares it, so
   * abstract types are never registered.
   */
  lemma RegisterLaw(reg: map<string, string>, types: seq<EmulatedType>)
    ensures var o := Register(reg, types);
      && (o.error.None? <==> AllAttributed(types) && Distinct(Claims(types)) && forall k :: k in Claims(types) ==> k !in reg)
      && (o.error.None? ==> o.registry.Keys == reg.Keys + set k | k in Claims(types))
      && (forall k :: k in reg ==> k in o.registry && o.registry[k] == reg[k])
      && (forall k :: k in o.registry && k !in reg ==> Declares(types, k, o.registry[k]))
  {
    RegisterSucceeds(reg, types);
    RegisterKeeps(reg, types);
  }

  /** A build sound so far: every concrete type attributed, claims distinct and unregistered. */
  predicate Sound(reg: map<string, string>, types: seq<EmulatedType>)
  {
    AllAttributed(types) && Distinct(Claims(types)) && forall k :: k in Claims(types) ==> k !in reg
  }

  /** The build succeeds exactly when it is sound, and then registers exactly the claims. */
  lemma {:induction false} RegisterSucceeds(reg: map<string, string>, types: seq<EmulatedType>)
    ensures var o := Register(reg, types);
      && (o.error.None? <==> Sound(reg, types))
      && (o.error.None? ==> o.registry.Keys == reg.Keys + set k | k in Claims(types))
  {
    if |types| > 0 {
      var init := types[..|types| - 1];
      var t := types[|types| - 1];
      assert types == init + [t];
      RegisterSucceeds(reg, init);
      if Register(reg, init).error.Some? {
        UnsoundSnoc(reg, init, t);
      } else {
        RegisterTypeSucceeds(reg, init, t);
      }
    }
  }

  /** Once the build is unsound, one more type keeps it unsound. */
  lemma UnsoundSnoc(reg: map<string, string>, init: seq<EmulatedType>, t: EmulatedType)
    requires !Sound(reg, init)
    ensures !Sound(reg, init + [t])
  {
    var types := init + [t];
    ClaimsSnoc(init, t);
    if !AllAttributed(init) {
      var u :| u in init && !u.isAbstract && !(u.attributes.Some? && |u.attributes.value| > 0);
      assert u in types;
    } else if !Distinct(Claims(init)) {
      DistinctAppend(Claims(init), Claims(types)[|Claims(init)|..]);
      assert Claims(init) + Claims(types)[|Claims(init)|..] == Claims(types);
    } else {
      var k :| k in Claims(init) && k in reg;
      assert k in Claims(types);
    }
  }

  /** From a successful sound build, registering one more type succeeds exactly when the whole stays sound. */
  lemma RegisterTypeSucceeds(reg: map<string, string>, init: seq<EmulatedType>, t: EmulatedType)
    requires Register(reg, init).error.None? && Sound(reg, init)
    requires Register(reg, init).registry.Keys == reg.Keys + set k | k in Claims(init)
    ensures var o := Register(reg, init + [t]);
      && (o.error.None? <==> Sound(reg, init + [t]))
      && (o.error.None? ==> o.registry.Keys == reg.Keys + set k | k in Claims(init + [t]))
  {
    var types := init + [t];
    assert types[..|types| - 1] == init;
    assert Register(reg, types) == RegisterType(Register(reg, init).registry, t);
    if t.isAbstract {
      SoundSnocAbstract(reg, init, t);
    } else if t.attributes.None? || |t.attributes.value| == 0 {
      assert t in types;
    } else {
      AttributedStep(reg, init, t, Register(reg, init));
    }
  }

  /** The step for a concrete type with attributes, from any successful outcome over the sound prefix. */
  lemma AttributedStep(reg: map<string, string>, init: seq<EmulatedType>, t: EmulatedType, o: Outcome)
    requires o.error.None? && Sound(reg, init) && o.registry.Keys == reg.Keys + set k | k in Claims(init)
    requires !t.isAbstract && t.attributes.Some? && |t.attributes.value| > 0
    ensures var r := RegisterType(o.registry, t);
      && (r.error.None? <==> Sound(reg, init + [t]))
      && (r.error.None? ==> r.registry.Keys == reg.Keys + set k | k in Claims(init + [t]))
  {
    var attrs := t.attributes.value;
    SoundSnocAttributed(reg, init, t);
    AddAttributesSucceeds(o.registry, t.name, attrs);
    KeysOfAppend(Claims(init), attrs);
  }

  lemma KeysOfAppend(a: seq<string>, b: seq<string>)
    ensures (set k | k in a + b) == (set k | k in a) + (set k | k in b)
  {
  }

  /** An abstract type claims nothing and leaves soundness as it was. */
  lemma SoundSnocAbstract(reg: map<string, string>, init: seq<EmulatedType>, t: EmulatedType)
    requires t.isAbstract
    ensures Claims(init + [t]) == Claims(init)
    ensures Sound(reg, init + [t]) <==> Sound(reg, init)
  {
    ClaimsSnoc(init, t);
    if AllAttributed(init) {
      forall u | u in init + [t] && !u.isAbstract
        ensures u.attributes.Some? && |u.attributes.value| > 0
      {
        assert u in init;
      }
    }
  }

  /** An attributed type keeps a sound build sound exactly when its claims are distinct and new. */
  lemma SoundSnocAttributed(reg: map<string, string>, init: seq<EmulatedType>, t: EmulatedType)
    requires Sound(reg, init) && !t.isAbstract && t.attributes.Some? && |t.attributes.value| > 0
    ensures Claims(init + [t]) == Claims(init) + t.attributes.value
    ensures Sound(reg, init + [t]) <==>
      Distinct(t.attributes.value) && forall k :: k in t.attributes.value ==> k !in reg && k !in Claims(init)
  {
    var attrs := t.attributes.value;
    ClaimsSnoc(init, t);
    DistinctAppend(Claims(init), attrs);
    forall u | u in init + [t] && !u.isAbstract
      ensures u.attributes.Some? && |u.attributes.value| > 0
    {
      if u != t {
        assert u in init;
      }
    }
    if Distinct(attrs) && forall k :: k in attrs ==> k !in reg && k !in Claims(init) {
      DistinctJoin(Claims(init), attrs);
    }
  }

  /** Entries already present are never replaced, and every new entry is declared by a concrete type. */
  lemma {:induction false} RegisterKeeps(reg: map<string, string>, types: seq<EmulatedType>)
    ensures var o := Register(reg, types);
      && (forall k :: k in reg ==> k in o.registry && o.registry[k] == reg[k])
      && (forall k :: k in o.registry && k !in reg ==> Declares(types, k, o.registry[k]))
  {
    if |types| > 0 {
      var init := types[..|types| - 1];
      var t := types[|types| - 1];
      assert types == init + [t];
      RegisterKeeps(reg, init);
      var o := Register(reg, init);
      forall k | k in o.registry && k !in reg
        ensures Declares(types, k, o.registry[k])
      {
        DeclaresSnoc(init, t, k, o.registry[k]);
      }
      if o.error.None? && !t.isAbstract && t.attributes.Some? && |t.attributes.value| > 0 {
        AddAttributesLaw(o.registry, t.name, t.attributes.value);
        var r := RegisterType(o.registry, t);
        forall k | k in r.registry && k !in reg
          ensures Declares(types, k, r.registry[k])
        {
          if k !in o.registry {
            assert t in types;
          }
        }
      }
    }
  }

  /**
   * From an empty registry: a successful build maps every layer-data type a
   * concrete type declares to that type, and nothing else is registered.
   */
  lemma RegisteredFromEmpty(types: seq<EmulatedType>, t: EmulatedType, key: string)
    requires Register(map[], types).error.None?
    requires t in types && !t.isAbstract && t.attributes.Some? && key in t.attributes.value
    ensures key in Register(map[], types).registry
    ensures Declares(types, key, Register(map[], types).registry[key])
  {
    RegisterLaw(map[], types);
    ClaimedIn(types, t, key);
  }

  lemma {:induction false} ClaimedIn(types: seq<EmulatedType>, t: EmulatedType, key: string)
    requires t in types && !t.isAbstract && t.attributes.Some? && key in t.attributes.value
    ensures key in Claims(types)
  {
    var init := types[..|types| - 1];
    assert types == init + [types[|types| - 1]];
    if t != types[|types| - 1] {
      assert t in init;
      ClaimedIn(init, t, key);
    }
  }

  // ---------------------------------------------------------------------
  // The static class
  // ---------------------------------------------------------------------

  /** The registry of the static class, filled in place by its static constructor. */
  class EmulatedLayerDataTypes {
    var registry: map<string, string>

    constructor ()
      ensures registry == map[]
    {
      registry := map[];
    }

    /**
     * `GetEmulatedLayerDataTypes`: the nested loops over types and their
     * attributes.  An exception leaves the entries added before it in place.
     */
    method GetEmulatedLayerDataTypes(types: seq<EmulatedType>) returns (error: Option<Failure>)
      modifies this
      ensures Outcome(registry, error) == Register(old(registry), types)
    {
      ghost var reg0 := registry;
      var i := 0;
      while i < |types|
        invariant 0 <= i <= |types|
        invariant Register(reg0, types[..i]) == Outcome(registry, None)
      {
        var t := types[i];
        assert types[..i + 1] == types[..i] + [t];
        assert types[..i + 1][..i] == types[..i];
        if t.isAbstract {
          i := i + 1;
          continue;
        }
        if t.attributes.None? || |t.attributes.value| == 0 {
          error := Some(MissingAttribute(t.name));
          assert types[..|types|] == types;
          PrefixStops(reg0, types, i + 1);
          return;
        }
        error := AddAttributesInPlace(t.name, t.attributes.value);
        if error.Some? {
          assert types[..|types|] == types;
          PrefixStops(reg0, types, i + 1);
          return;
        }
        i := i + 1;
      }
      error := None;
      assert types[..i] == types;
    }

    /** The attribute loop of one type: each layer-data type in turn is added, stopping at one already present. */
    method AddAttributesInPlace(name: string, attrs: seq<string>) returns (error: Option<Failure>)
      modifies this
      ensures Outcome(registry, error) == AddAttributes(old(registry), name, attrs)
    {
      ghost var regT := registry;
      var j := 0;
      while j < |attrs|
        invariant 0 <= j <= |attrs|
        invariant AddAttributes(regT, name, attrs[..j]) == Outcome(registry, None)
      {
        var k := attrs[j];
        assert attrs[..j + 1][..j] == attrs[..j];
        if k in registry {
          error := Some(AlreadyUsed(k, name, registry[k]));
          assert AddAttributes(regT, name, attrs[..j + 1]) == Outcome(registry, error);
          AddAttributesStops(regT, name, attrs, j + 1);
          return;
        }
        registry := registry[k := name];
        j := j + 1;
      }
      assert attrs[..j] == attrs;
      error := None;
    }

    /** `GetEmulatedLayerDataType`: None for no type or an unregistered one. */
    function GetEmulatedLayerDataType(t: Option<string>): (r: Option<string>)
      reads this
      ensures t.None? ==> r.None?
      ensures t.Some? && t.value !in registry ==> r.None?
      ensures t.Some? && t.value in registry ==> r == Some(registry[t.value])
    {
      if t.None? then None
      else if t.value in registry then Some(registry[t.value])
      else None
    }
  }

  /** Once the attribute loop has thrown, later attributes change nothing. */
  lemma {:induction false} AddAttributesStops(reg: map<string, string>, name: string, attrs: seq<string>, n: nat)
    requires n <= |attrs|
    requires AddAttributes(reg, name, attrs[..n]).error.Some?
    ensures AddAttributes(reg, name, attrs) == AddAttributes(reg, name, attrs[..n])
    decreases |attrs| - n
  {
    if n < |attrs| {
      assert attrs[..n + 1][..n] == attrs[..n];
      AddAttributesStops(reg, name, attrs, n + 1);
    } else {
      assert attrs[..n] == attrs;
    }
  }

  /** Once the build has thrown, later types change nothing. */
  lemma {:induction false} PrefixStops(reg: map<string, string>, types: seq<EmulatedType>, n: nat)
    requires n <= |types|
    requires Register(reg, types[..n]).error.Some?
    ensures Register(reg, types) == Register(reg, types[..n])
    decreases |types| - n
  {
    if n < |types| {
      assert types[..n + 1][..n] == types[..n];
      PrefixStops(reg, types, n + 1);
    } else {
      assert types[..n] == types;
    }
  }

  // ---------------------------------------------------------------------
  // Emulation flags
  // ---------------------------------------------------------------------

  /**
   * `EmulationInScene`, `EmulationInPlayMode`, `EmulationInStandalone`: the
   * getter's answer, and false while no getter is installed.
   */
  function EmulationFlag(getter: Option<bool>): (r: bool)
    ensures getter.None? ==> !r
    ensures getter.Some? ==> (r <==> getter.value)
  {
    getter.Some? && getter.value
  }
}
