/**
 * `Editor/Layers/PlatformLayerDataUtil.cs`: dropping the platform data of
 * inactive platforms from a layer's parallel arrays, and building the list of
 * platform data for the active platforms, one per active type.
 */
module PlatformLayerDataUtil {
  import opened Wrappers
  import opened CompositionLayerCodec

  /** The first type in `types` whose full name is `key`. */
  function FirstNamed(types: seq<PlatformType>, key: string): Option<PlatformType>
  {
    if types == [] then None
    else if types[0].fullName == key then Some(types[0])
    else FirstNamed(types[1..], key)
  }

  /** The lookup finds nothing exactly when no type has the name, and otherwise the first type that has it. */
  lemma {:induction false} FirstNamedLaw(types: seq<PlatformType>, key: string)
    ensures FirstNamed(types, key).None? <==> forall t :: t in types ==> t.fullName != key
    ensures FirstNamed(types, key).Some? ==>
              exists i :: 0 <= i < |types| && types[i] == FirstNamed(types, key).value && types[i].fullName == key
                          && forall j :: 0 <= j < i ==> types[j].fullName != key
  {
    if types != [] && types[0].fullName != key {
      FirstNamedLaw(types[1..], key);
      var r := FirstNamed(types[1..], key);
      if r.Some? {
        var i :| 0 <= i < |types| - 1 && types[1..][i] == r.value && types[1..][i].fullName == key
                 && forall j :: 0 <= j < i ==> types[1..][j].fullName != key;
        assert types[i + 1] == r.value;
        forall j | 0 < j < i + 1 ensures types[j].fullName != key {
          assert types[j] == types[1..][j - 1];
        }
      }
      assert forall t :: t in types ==> t == types[0] || t in types[1..];
    }
  }

  /** `GetPlatformLayerDataTypeFromKey`: null for a null list, otherwise the first type with that full name. */
  function TypeFromKey(types: Option<seq<PlatformType>>, key: string): (r: Option<PlatformType>)
    ensures types.None? ==> r.None?
    ensures types.Some? ==> r == FirstNamed(types.value, key)
  {
    if types.None? then None else FirstNamed(types.value, key)
  }

  /** A key names one of the active types. */
  predicate Active(types: Option<seq<PlatformType>>, key: string)
  {
    TypeFromKey(types, key).Some?
  }

  /** The indices below `n` whose key names an active type, in order. */
  function Kept(keys: seq<string>, types: Option<seq<PlatformType>>, n: nat): (idx: seq<nat>)
    requires n <= |keys|
    ensures |idx| <= n
    ensures forall k :: 0 <= k < |idx| ==> idx[k] < n && Active(types, keys[idx[k]])
    ensures forall k, l :: 0 <= k < l < |idx| ==> idx[k] < idx[l]
  {
    if n == 0 then [] else Kept(keys, types, n - 1) + (if Active(types, keys[n - 1]) then [n - 1] else [])
  }

  /** Every index naming an active type is kept, and all are kept exactly when every key is active. */
  lemma KeptLaw(keys: seq<string>, types: Option<seq<PlatformType>>, n: nat)
    requires n <= |keys|
    ensures forall i :: 0 <= i < n && Active(types, keys[i]) ==> i in Kept(keys, types, n)
    ensures |Kept(keys, types, n)| == n <==> forall i :: 0 <= i < n ==> Active(types, keys[i])
  {
    KeptComplete(keys, types, n);
    KeptAll(keys, types, n);
  }

  lemma KeptComplete(keys: seq<string>, types: Option<seq<PlatformType>>, n: nat)
    requires n <= |keys|
    ensures forall i :: 0 <= i < n && Active(types, keys[i]) ==> i in Kept(keys, types, n)
  {
    forall i | 0 <= i < n && Active(types, keys[i]) ensures i in Kept(keys, types, n) {
      KeptHas(keys, types, n, i);
    }
  }

  /** One index naming an active type is kept. */
  lemma {:induction false} KeptHas(keys: seq<string>, types: Option<seq<PlatformType>>, n: nat, i: nat)
    requires n <= |keys| && i < n && Active(types, keys[i])
    ensures i in Kept(keys, types, n)
    decreases n
  {
    var prev := Kept(keys, types, n - 1);
    var tail := if Active(types, keys[n - 1]) then [n - 1] else [];
    assert Kept(keys, types, n) == prev + tail;
    if i < n - 1 {
      KeptHas(keys, types, n - 1, i);
    } else {
      assert tail == [i];
    }
  }

  lemma {:induction false} KeptAll(keys: seq<string>, types: Option<seq<PlatformType>>, n: nat)
    requires n <= |keys|
    ensures |Kept(keys, types, n)| == n <==> forall i :: 0 <= i < n ==> Active(types, keys[i])
  {
    if n > 0 {
      KeptAll(keys, types, n - 1);
      var prev := Kept(keys, types, n - 1);
      var last := Active(types, keys[n - 1]);
      assert |Kept(keys, types, n)| == |prev| + (if last then 1 else 0);
      if |Kept(keys, types, n)| == n {
        assert |prev| == n - 1 && last;
        forall i | 0 <= i < n ensures Active(types, keys[i]) {
          if i == n - 1 {
            assert last;
          }
        }
      }
      if forall i :: 0 <= i < n ==> Active(types, keys[i]) {
        assert last;
        assert forall i :: 0 <= i < n - 1 ==> Active(types, keys[i]);
      }
    }
  }

  /** The elements of `s` at the indices `idx`, an index past the end giving null. */
  function Pick<T>(s: seq<Option<T>>, idx: seq<nat>): (r: seq<Option<T>>)
    ensures |r| == |idx|
    ensures forall k :: 0 <= k < |idx| ==> r[k] == if idx[k] < |s| then s[idx[k]] else None
  {
    seq(|idx|, k requires 0 <= k < |idx| => if idx[k] < |s| then s[idx[k]] else None)
  }

  /** The keys at the indices `idx`. */
  function PickKeys(keys: seq<string>, idx: seq<nat>): (r: seq<string>)
    requires forall k :: 0 <= k < |idx| ==> idx[k] < |keys|
    ensures |r| == |idx| && forall k :: 0 <= k < |idx| ==> r[k] == keys[idx[k]]
  {
    seq(|idx|, k requires 0 <= k < |idx| => keys[idx[k]])
  }

  /** Picking one more index appends its element. */
  lemma PickSnoc<T>(s: seq<Option<T>>, keys: seq<string>, idx: seq<nat>, i: nat)
    requires i < |keys| && forall k :: 0 <= k < |idx| ==> idx[k] < |keys|
    ensures Pick(s, idx + [i]) == Pick(s, idx) + [if i < |s| then s[i] else None]
    ensures PickKeys(keys, idx + [i]) == PickKeys(keys, idx) + [keys[i]]
  {
  }

  /** The text stored at index `i`: null past the end of the array. */
  function TextAt(texts: Option<seq<Option<string>>>, i: nat): Option<string>
  {
    if texts.Some? && i < |texts.value| then texts.value[i] else None
  }

  /** The binary segment stored at index `i`: empty past the last well-formed segment. */
  function SegmentAt(binary: Option<seq<int>>, i: nat): seq<int>
  {
    var s := if binary.Some? then Decode(binary.value) else [];
    if i < |s| then s[i] else []
  }

  /**
   * `CompactPlatformLayerDataArray` as a function. The fields are rewritten
   * only when a key names no active type or when the texts or binaries are
   * longer than the keys; then the kept keys, and the texts and binaries
   * beside them, are stored in order, with trailing nulls trimmed.
   */
  function CompactedFields(f: Fields, types: Option<seq<PlatformType>>): Fields
  {
    var ks := KeysOf(f);
    var ts := TextsOf(f);
    var segs := SegmentsOf(f);
    var idx := Kept(ks, types, |ks|);
    if |ks| < |ts| || |ks| < |segs| || |idx| < |ks| then Rewritten(ks, ts, segs, idx) else f
  }

  /** The keys, an absent array read as empty. */
  function KeysOf(f: Fields): seq<string>
  {
    if f.keys.Some? then f.keys.value else []
  }

  /** The texts, an absent array read as empty. */
  function TextsOf(f: Fields): seq<Option<string>>
  {
    if f.texts.Some? then f.texts.value else []
  }

  /** The binary segments (`ToBinaryDataList`). */
  function SegmentsOf(f: Fields): seq<seq<int>>
  {
    if f.binary.Some? then Decode(f.binary.value) else []
  }

  /** The fields holding the keys at `idx`, with the texts and segments beside them, trailing nulls trimmed. */
  function Rewritten(ks: seq<string>, ts: seq<Option<string>>, segs: seq<seq<int>>, idx: seq<nat>): Fields
    requires forall k :: 0 <= k < |idx| ==> idx[k] < |ks|
  {
    Fields(Some(PickKeys(ks, idx)), Compacted(Some(Pick(ts, idx))), Some(EncodeArray(Compacted(Some(Pick(Present(segs), idx))))))
  }

  /** In the rewritten fields, slot `k` holds what slot `idx[k]` held. */
  lemma RewrittenReads(ks: seq<string>, ts: seq<Option<string>>, segs: seq<seq<int>>, idx: seq<nat>, k: nat)
    requires forall k :: 0 <= k < |idx| ==> idx[k] < |ks|
    requires k < |idx|
    ensures TextAt(Rewritten(ks, ts, segs, idx).texts, k) == if idx[k] < |ts| then ts[idx[k]] else None
    ensures SegmentAt(Rewritten(ks, ts, segs, idx).binary, k) == if idx[k] < |segs| then segs[idx[k]] else []
  {
    CompactedReads(Pick(ts, idx), k);
    CompactedSegments(Pick(Present(segs), idx), k);
  }

  /** After trimming trailing nulls, every index still reads as before. */
  lemma CompactedReads<T>(s: seq<Option<T>>, i: nat)
    requires i < |s|
    ensures var c := Compacted(Some(s));
            (if c.Some? && i < |c.value| then c.value[i] else None) == s[i]
  {
    CompactedLaw(Some(s));
  }

  /** The segments of the encoding of a compacted list read as the list's entries. */
  lemma CompactedSegments(s: seq<Option<seq<int>>>, i: nat)
    requires i < |s|
    ensures SegmentAt(Some(EncodeArray(Compacted(Some(s)))), i) == if s[i].Some? then s[i].value else []
  {
    CompactedLaw(Some(s));
    var c := Compacted(Some(s));
    if c.Some? {
      var r := c.value;
      RoundTrip([], r);
      assert Decode(EncodeArray(c)) == Contents(r);
      if i < |r| {
        assert r[i] == s[i];
      } else {
        assert s[i].None?;
      }
    } else {
      assert EncodeArray(c) == [];
      assert s[i].None?;
    }
  }

  /**
   * Compaction keeps exactly the keys naming an active type, in their
   * original order, with the texts and binary segments beside them.
   */
  lemma CompactedAligned(f: Fields, types: Option<seq<PlatformType>>)
    ensures var ks := KeysOf(f);
            var g := CompactedFields(f, types);
            var idx := Kept(ks, types, |ks|);
            g != f ==>
              g.keys == Some(PickKeys(ks, idx))
              && forall k :: 0 <= k < |idx| ==>
                   TextAt(g.texts, k) == TextAt(f.texts, idx[k]) && SegmentAt(g.binary, k) == SegmentAt(f.binary, idx[k])
  {
    var ks, ts, segs := KeysOf(f), TextsOf(f), SegmentsOf(f);
    var idx := Kept(ks, types, |ks|);
    var g := CompactedFields(f, types);
    if g != f {
      assert g == Rewritten(ks, ts, segs, idx);
      forall k | 0 <= k < |idx|
        ensures TextAt(g.texts, k) == TextAt(f.texts, idx[k]) && SegmentAt(g.binary, k) == SegmentAt(f.binary, idx[k])
      {
        RewrittenReads(ks, ts, segs, idx, k);
      }
    }
  }

  /** After compaction every key names an active type. */
  lemma CompactedActive(f: Fields, types: Option<seq<PlatformType>>)
    ensures var g := CompactedFields(f, types);
            g.keys.Some? ==> forall k :: 0 <= k < |g.keys.value| ==> Active(types, g.keys.value[k])
  {
    KeptLaw(KeysOf(f), types, |KeysOf(f)|);
  }

  /** When every key is active and neither texts nor binary segments outnumber the keys, nothing changes. */
  lemma CompactedUnchanged(f: Fields, types: Option<seq<PlatformType>>)
    requires |TextsOf(f)| <= |KeysOf(f)| && |SegmentsOf(f)| <= |KeysOf(f)|
    requires forall i :: 0 <= i < |KeysOf(f)| ==> Active(types, KeysOf(f)[i])
    ensures CompactedFields(f, types) == f
  {
    KeptLaw(KeysOf(f), types, |KeysOf(f)|);
  }

  /**
   * `CompactPlatformLayerDataArray`: keeps the keys that name an active type
   * with the text and binary beside them, and writes the fields back when
   * something was dropped or an array was too long.
   */
  method CompactPlatformLayerDataArray(layer: PlatformDataFields, types: Option<seq<PlatformType>>)
    modifies layer
    ensures layer.Current() == CompactedFields(old(layer.Current()), types)
  {
    var keys := if layer.keys.Some? then layer.keys.value else [];
    var texts := if layer.texts.Some? then layer.texts.value else [];
    var binaries := ToBinaryDataList(layer.binary);
    ghost var f := layer.Current();
    assert keys == KeysOf(f) && texts == TextsOf(f) && binaries == SegmentsOf(f);
    var newKeys, newTexts, newBinaries, dropped := KeepActive(keys, texts, binaries, types);
    if |keys| < |texts| || |keys| < |binaries| || dropped {
      WriteBack(layer, newKeys, newTexts, newBinaries);
    }
  }

  /** The write-back of `CompactPlatformLayerDataArray`: the kept keys, and the texts and binaries with trailing nulls trimmed. */
  method WriteBack(layer: PlatformDataFields, newKeys: seq<string>, newTexts: seq<Option<string>>, newBinaries: seq<Option<seq<int>>>)
    modifies layer
    ensures layer.Current() == Fields(Some(newKeys), Compacted(Some(newTexts)), Some(EncodeArray(Compacted(Some(newBinaries)))))
  {
    var textsArray := CompactArray(Some(newTexts));
    var binariesArray := CompactArray(Some(newBinaries));
    layer.keys := Some(newKeys);
    layer.texts := textsArray;
    var words := FromBinaryDataList(binariesArray);
    layer.binary := Some(words);
  }

  /** The loop of `CompactPlatformLayerDataArray`: the kept keys with their texts and binaries, and whether any key was dropped. */
  method KeepActive(keys: seq<string>, texts: seq<Option<string>>, binaries: seq<seq<int>>, types: Option<seq<PlatformType>>)
    returns (newKeys: seq<string>, newTexts: seq<Option<string>>, newBinaries: seq<Option<seq<int>>>, dropped: bool)
    ensures var idx := Kept(keys, types, |keys|);
            newKeys == PickKeys(keys, idx) && newTexts == Pick(texts, idx) && newBinaries == Pick(Present(binaries), idx)
    ensures dropped <==> exists i :: 0 <= i < |keys| && !Active(types, keys[i])
    ensures dropped <==> |Kept(keys, types, |keys|)| < |keys|
  {
    newKeys, newTexts, newBinaries, dropped := [], [], [], false;
    for i := 0 to |keys|
      invariant var idx := Kept(keys, types, i);
                newKeys == PickKeys(keys, idx) && newTexts == Pick(texts, idx) && newBinaries == Pick(Present(binaries), idx)
      invariant dropped <==> exists j :: 0 <= j < i && !Active(types, keys[j])
    {
      ghost var idx := Kept(keys, types, i);
      if TypeFromKey(types, keys[i]).Some? {
        assert Kept(keys, types, i + 1) == idx + [i];
        PickSnoc(texts, keys, idx, i);
        PickSnoc(Present(binaries), keys, idx, i);
        newKeys := newKeys + [keys[i]];
        newTexts := newTexts + [if i < |texts| then texts[i] else None];
        newBinaries := newBinaries + [if i < |binaries| then Some(binaries[i]) else None];
      } else {
        assert Kept(keys, types, i + 1) == idx;
        dropped := true;
      }
    }
    KeptAll(keys, types, |keys|);
  }

  /** A platform data object: its type and what it was read from (`NoData` for a fresh one). */
  datatype Instance = Instance(kind: PlatformType, content: Restored)

  /**
   * `GetPlatformLayerDataList` after the compaction: one instance per key
   * that names an active type, read from the layer's fields (a fresh one
   * when nothing could be read).
   */
  function InstancesOf(f: Fields, types: Option<seq<PlatformType>>, n: nat): (r: seq<Instance>)
    requires f.keys.Some? ==> n <= |f.keys.value|
    requires f.keys.None? ==> n == 0
    ensures |r| <= n
  {
    if n == 0 then []
    else
      var t := TypeFromKey(types, f.keys.value[n - 1]);
      InstancesOf(f, types, n - 1) + (if t.Some? then [Instance(t.value, Restore(f, t.value))] else [])
  }

  /** Every listed instance is of an active type, read from the fields. */
  lemma {:induction false} InstancesLaw(f: Fields, types: Option<seq<PlatformType>>, n: nat)
    requires f.keys.Some? ==> n <= |f.keys.value|
    requires f.keys.None? ==> n == 0
    ensures forall x :: x in InstancesOf(f, types, n) ==>
              types.Some? && x.kind in types.value && x.content == Restore(f, x.kind)
  {
    if n > 0 {
      InstancesLaw(f, types, n - 1);
      if types.Some? {
        FirstNamedLaw(types.value, f.keys.value[n - 1]);
      }
    }
  }

  /** `GetPlatformLayerDataList`: compacts the fields, then reads one instance per active key. */
  method GetPlatformLayerDataList(layer: PlatformDataFields, types: Option<seq<PlatformType>>) returns (list: seq<Instance>)
    modifies layer
    ensures layer.Current() == CompactedFields(old(layer.Current()), types)
    ensures list == InstancesOf(layer.Current(), types, if layer.keys.Some? then |layer.keys.value| else 0)
  {
    CompactPlatformLayerDataArray(layer, types);
    list := [];
    ghost var f := layer.Current();
    var keyLength := if layer.keys.Some? then |layer.keys.value| else 0;
    for i := 0 to keyLength
      invariant layer.Current() == f
      invariant list == InstancesOf(layer.Current(), types, i)
    {
      var t := TypeFromKey(types, layer.keys.value[i]);
      if t.Some? {
        var content := layer.DeserializePlatformLayerData(t.value);
        list := list + [Instance(t.value, content)];
      }
    }
  }

  /** `GetActivePlatformLayerDataTypes`: the platform-data type of each active provider that has one; null without providers. */
  function ActiveTypes(providers: Option<seq<Option<PlatformType>>>): (r: Option<seq<PlatformType>>)
    ensures r.None? <==> providers.None?
    ensures r.Some? ==> forall t :: t in r.value <==> Some(t) in providers.value
  {
    if providers.None? then None else Some(Types(providers.value))
  }

  /** The present entries of a list, in order. */
  function Types(s: seq<Option<PlatformType>>): (r: seq<PlatformType>)
    ensures forall t :: t in r <==> Some(t) in s
  {
    if s == [] then [] else (if s[0].Some? then [s[0].value] else []) + Types(s[1..])
  }

  /** The first instance of type `t` in the list, or a fresh one. */
  function FindOrCreate(list: seq<Instance>, t: PlatformType): (x: Instance)
    ensures x.kind == t
    ensures x in list || x == Instance(t, NoData)
  {
    if list == [] then Instance(t, NoData)
    else if list[0].kind == t then list[0]
    else FindOrCreate(list[1..], t)
  }

  /**
   * `GetActivePlatformLayerDataList`: null for a null layer; empty without
   * active providers; otherwise exactly one instance per active type, in the
   * order of the types, taken from the layer when it has one and fresh
   * otherwise.
   */
  method GetActivePlatformLayerDataList(layer: PlatformDataFields?, types: Option<seq<PlatformType>>,
                                        providers: Option<seq<Option<PlatformType>>>)
    returns (r: Option<seq<Instance>>)
    modifies layer
    ensures layer == null <==> r.None?
    ensures layer != null && providers.None? ==> r == Some([])
    ensures layer != null && providers.Some? ==>
              var active := ActiveTypes(providers).value;
              var list := InstancesOf(layer.Current(), types, if layer.keys.Some? then |layer.keys.value| else 0);
              r.Some? && |r.value| == |active|
              && forall k :: 0 <= k < |active| ==> r.value[k].kind == active[k] && r.value[k] == FindOrCreate(list, active[k])
  {
    if layer == null {
      return None;
    }
    var list := GetPlatformLayerDataList(layer, types);
    var activeTypes := ActiveTypes(providers);
    if activeTypes.None? {
      return Some([]);
    }
    var sorted := InActiveOrder(list, activeTypes.value);
    r := Some(sorted);
  }

  /** The last loop of `GetActivePlatformLayerDataList`: for each active type, its instance in the list or a fresh one. */
  method InActiveOrder(list: seq<Instance>, active: seq<PlatformType>) returns (sorted: seq<Instance>)
    ensures |sorted| == |active|
    ensures forall k :: 0 <= k < |active| ==> sorted[k].kind == active[k] && sorted[k] == FindOrCreate(list, active[k])
  {
    sorted := [];
    for k := 0 to |active|
      invariant |sorted| == k
      invariant forall l :: 0 <= l < k ==> sorted[l] == FindOrCreate(list, active[l])
    {
      sorted := sorted + [FindOrCreate(list, active[k])];
    }
  }
}
