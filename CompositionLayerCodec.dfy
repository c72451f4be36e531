/**
 * The serialised side of `CompositionLayer` (`Runtime/CompositionLayer.cs`):
 * the length-prefixed `int[][] <-> int[]` codec, the helpers that compact,
 * shrink and grow C# arrays, and the three parallel fields that keep each
 * platform's layer data under the full name of its type.
 *
 * A C# array reference that may be null is an `Option<seq<_>>`, and an array
 * of references has `Option` elements. The `ref` array parameters of the
 * helpers become an argument and a result.
 */
module CompositionLayerCodec {
  import opened Wrappers
  import Text

  // ---------------------------------------------------------------------
  // The length-prefixed codec
  // ---------------------------------------------------------------------

  /** The words `FromBinaryDataList` writes for one entry: its length, then its values; a null entry is a lone 0. */
  function Segment(entry: Option<seq<int>>): seq<int>
  {
    match entry
    case None => [0]
    case Some(d) => [|d|] + d
  }

  /** `FromBinaryDataList` as a function: the segments of the entries, in order. */
  function Encode(entries: seq<Option<seq<int>>>): seq<int>
  {
    if entries == [] then [] else Segment(entries[0]) + Encode(entries[1..])
  }

  /**
   * `ToBinaryDataList` as a function: read a length, then that many values,
   * until the input ends; a negative length or one that runs past the end
   * stops the decoding with the segments read so far.
   */
  function Decode(binary: seq<int>): seq<seq<int>>
    decreases |binary|
  {
    if binary == [] then []
    else if binary[0] < 0 || 1 + binary[0] > |binary| then []
    else [binary[1..1 + binary[0]]] + Decode(binary[1 + binary[0]..])
  }

  /** What each entry reads back as: its values, or nothing for a null entry. */
  function Contents(entries: seq<Option<seq<int>>>): (c: seq<seq<int>>)
    ensures |c| == |entries|
    ensures forall i :: 0 <= i < |entries| ==> c[i] == if entries[i].Some? then entries[i].value else []
  {
    if entries == [] then [] else [if entries[0].Some? then entries[0].value else []] + Contents(entries[1..])
  }

  /** The entries of a list of arrays with no null entry. */
  function Present(list: seq<seq<int>>): (entries: seq<Option<seq<int>>>)
    ensures |entries| == |list| && forall i :: 0 <= i < |list| ==> entries[i] == Some(list[i])
  {
    seq(|list|, i requires 0 <= i < |list| => Some(list[i]))
  }

  /** The number of values over all entries. */
  function TotalLength(entries: seq<Option<seq<int>>>): nat
  {
    if entries == [] then 0 else (if entries[0].Some? then |entries[0].value| else 0) + TotalLength(entries[1..])
  }

  /** Encoding distributes over concatenation. */
  lemma {:induction false} EncodeAppend(a: seq<Option<seq<int>>>, b: seq<Option<seq<int>>>)
    ensures Encode(a + b) == Encode(a) + Encode(b)
  {
    if a != [] {
      assert (a + b)[0] == a[0];
      assert (a + b)[1..] == a[1..] + b;
      EncodeAppend(a[1..], b);
      assert Encode(a + b) == Segment(a[0]) + (Encode(a[1..]) + Encode(b));
    } else {
      assert a + b == b;
    }
  }

  /** One encoded segment decodes back as its entry's values, ahead of whatever follows it. */
  lemma SegmentDecodes(entry: Option<seq<int>>, rest: seq<int>)
    ensures Decode(Segment(entry) + rest) == [if entry.Some? then entry.value else []] + Decode(rest)
  {
    var s := Segment(entry) + rest;
    var d := if entry.Some? then entry.value else [];
    assert s[0] == |d|;
    assert s[1..1 + |d|] == d;
    assert s[1 + |d|..] == rest;
  }

  /**
   * Decoding an encoding gives back the entries' values, then whatever the
   * rest decodes to: the round trip, and, when the rest is malformed, the
   * segments decoded before the fault.
   */
  lemma {:induction false} DecodeEncode(entries: seq<Option<seq<int>>>, rest: seq<int>)
    ensures Decode(Encode(entries) + rest) == Contents(entries) + Decode(rest)
  {
    if entries != [] {
      var head := if entries[0].Some? then entries[0].value else [];
      var tail := Encode(entries[1..]) + rest;
      assert Encode(entries) + rest == Segment(entries[0]) + tail by {
        Text.AppendAssoc(Segment(entries[0]), Encode(entries[1..]), rest);
      }
      SegmentDecodes(entries[0], tail);
      DecodeEncode(entries[1..], rest);
      assert Contents(entries) == [head] + Contents(entries[1..]);
      Text.AppendAssoc([head], Contents(entries[1..]), Decode(rest));
    } else {
      assert Encode(entries) + rest == rest;
    }
  }

  /** `ToBinaryDataList(FromBinaryDataList(L)) == L` for a list with no null entry; null entries read back as empty arrays. */
  lemma RoundTrip(list: seq<seq<int>>, entries: seq<Option<seq<int>>>)
    ensures Decode(Encode(Present(list))) == list
    ensures Decode(Encode(entries)) == Contents(entries)
  {
    DecodeEncode(Present(list), []);
    DecodeEncode(entries, []);
    assert Encode(Present(list)) + [] == Encode(Present(list));
    assert Encode(entries) + [] == Encode(entries);
    assert Contents(Present(list)) == list;
  }

  /** A malformed tail (negative or overrunning length) ends the decoding after the well-formed segments. */
  lemma MalformedTail(entries: seq<Option<seq<int>>>, bad: seq<int>)
    requires bad != [] && (bad[0] < 0 || 1 + bad[0] > |bad|)
    ensures Decode(Encode(entries) + bad) == Contents(entries)
  {
    DecodeEncode(entries, bad);
  }

  /** The encoding has one length word per entry plus every value. */
  lemma {:induction false} EncodeLength(entries: seq<Option<seq<int>>>)
    ensures |Encode(entries)| == |entries| + TotalLength(entries)
  {
    if entries != [] {
      EncodeLength(entries[1..]);
    }
  }

  /**
   * One step of the decoding loop, after the segments in `list` were read: at
   * a well-formed length the next segment joins them; at a malformed one
   * nothing more is read.
   */
  lemma DecodeAt(list: seq<seq<int>>, b: seq<int>, pos: nat)
    requires pos < |b|
    ensures b[pos] < 0 || pos + 1 + b[pos] > |b| ==> list + Decode(b[pos..]) == list
    ensures 0 <= b[pos] && pos + 1 + b[pos] <= |b| ==>
      list + Decode(b[pos..]) == (list + [b[pos + 1..pos + 1 + b[pos]]]) + Decode(b[pos + 1 + b[pos]..])
  {
    var t := b[pos..];
    if 0 <= b[pos] && pos + 1 + b[pos] <= |b| {
      assert t[0] == b[pos];
      assert t[1..1 + t[0]] == b[pos + 1..pos + 1 + b[pos]];
      assert t[1 + t[0]..] == b[pos + 1 + b[pos]..];
    } else {
      assert list + [] == list;
    }
  }

  /**
   * The decoding seen from a position holding the `i`-th segment onwards: a
   * malformed length there ends it; a well-formed one is that segment, and
   * the rest decodes from just after it.
   */
  lemma SegmentStep(b: seq<int>, pos: nat, segments: seq<seq<int>>, i: nat)
    requires pos < |b| && i <= |segments| && Decode(b[pos..]) == segments[i..]
    ensures b[pos] < 0 || pos + 1 + b[pos] > |b| ==> segments[i..] == []
    ensures 0 <= b[pos] && pos + 1 + b[pos] <= |b| ==>
      i < |segments| && segments[i] == b[pos + 1..pos + 1 + b[pos]]
      && Decode(b[pos + 1 + b[pos]..]) == segments[i + 1..]
  {
    var t := b[pos..];
    if 0 <= b[pos] && pos + 1 + b[pos] <= |b| {
      assert t[0] == b[pos];
      assert t[1..1 + t[0]] == b[pos + 1..pos + 1 + b[pos]];
      assert t[1 + t[0]..] == b[pos + 1 + b[pos]..];
      assert segments[i..][0] == segments[i];
      assert segments[i..][1..] == segments[i + 1..];
    }
  }

  /** `ToBinaryDataList`: the segments of `binary` up to its end or its first malformed length; none for null. */
  method ToBinaryDataList(binary: Option<seq<int>>) returns (list: seq<seq<int>>)
    ensures binary.None? ==> list == []
    ensures binary.Some? ==> list == Decode(binary.value)
  {
    list := [];
    if binary.None? {
      return;
    }
    var b := binary.value;
    var pos := 0;
    assert [] + Decode(b[0..]) == Decode(b) by {
      assert b[0..] == b;
    }
    while pos < |b|
      invariant 0 <= pos <= |b|
      invariant list + Decode(b[pos..]) == Decode(b)
      decreases |b| - pos
    {
      var length := b[pos];
      var next := pos + 1 + length;
      if length < 0 || next > |b| {
        DecodeAt(list, b, pos);
        return;
      }
      ghost var before := list;
      list := list + [b[pos + 1..next]];
      DecodeAt(before, b, pos);
      pos := next;
    }
    assert list + Decode(b[pos..]) == list by {
      assert b[pos..] == [];
      assert list + [] == list;
    }
  }

  /** `FromBinaryDataList`: each entry's length and values in turn, 0 for a null entry; nothing for a null list. */
  method FromBinaryDataList(entries: Option<seq<Option<seq<int>>>>) returns (binary: seq<int>)
    ensures binary == if entries.Some? then Encode(entries.value) else []
  {
    binary := [];
    if entries.None? {
      return;
    }
    var list := entries.value;
    for i := 0 to |list|
      invariant binary == Encode(list[..i])
    {
      var segment := if list[i].Some? then [|list[i].value|] + list[i].value else [0];
      assert Encode([list[i]]) == segment by {
        assert [list[i]][1..] == [];
      }
      assert list[..i + 1] == list[..i] + [list[i]];
      EncodeAppend(list[..i], [list[i]]);
      binary := binary + segment;
    }
    assert list[..|list|] == list;
  }

  // ---------------------------------------------------------------------
  // Array helpers
  // ---------------------------------------------------------------------

  /** The length `CompactArray` keeps: one past the last non-null element, 0 when there is none. */
  function UsedLength<T>(s: seq<Option<T>>): (n: nat)
    ensures n <= |s| && (n > 0 ==> s[n - 1].Some?)
    ensures forall i :: n <= i < |s| ==> s[i].None?
  {
    if s == [] then 0 else if s[|s| - 1].Some? then |s| else UsedLength(s[..|s| - 1])
  }

  /**
   * `ShrinkArray`: a null array, or one no longer than `n`, is kept; a
   * longer one becomes null when `n <= 0` and its first `n` elements
   * otherwise. It never grows and always keeps a prefix.
   */
  function Shrink<T>(values: Option<seq<T>>, n: int): (r: Option<seq<T>>)
    ensures values.None? ==> r.None?
    ensures values.Some? ==> (r.None? <==> n <= 0 && n < |values.value|)
    ensures r.Some? ==> |r.value| <= |values.value| && r.value == values.value[..|r.value|]
    ensures r.Some? && n < |values.value| ==> |r.value| == n
  {
    if values.None? || |values.value| <= n then values
    else if n <= 0 then None
    else Some(values.value[..n])
  }

  /** `Array.Resize` to `n`: the first `n` elements, padded with nulls; a null array becomes `n` nulls. */
  function Resize<T>(values: Option<seq<Option<T>>>, n: nat): (r: seq<Option<T>>)
    ensures |r| == n
    ensures forall i :: 0 <= i < n ==> r[i] == if values.Some? && i < |values.value| then values.value[i] else None
  {
    seq(n, i requires 0 <= i < n => if values.Some? && i < |values.value| then values.value[i] else None)
  }

  /** `ExpandArray`: an array at least `n` long is kept; otherwise it is resized to `n`. It never shrinks and keeps its prefix. */
  function Expand<T>(values: Option<seq<Option<T>>>, n: nat): (r: seq<Option<T>>)
    ensures values.Some? ==> |r| >= |values.value| && r[..|values.value|] == values.value
    ensures |r| >= n && (values.None? || |values.value| < n ==> |r| == n)
    ensures forall i :: 0 <= i < |r| && (values.None? || i >= |values.value|) ==> r[i].None?
  {
    if values.Some? && |values.value| >= n then values.value else Resize(values, n)
  }

  /** `CompactArray` as a function: the array without its trailing nulls. */
  function Compacted<T>(values: Option<seq<Option<T>>>): Option<seq<Option<T>>>
  {
    if values.None? then None else Shrink(values, UsedLength(values.value))
  }

  /**
   * Compaction removes only trailing nulls: interior nulls and the order of
   * the elements are kept, and a non-empty array of nulls becomes null.
   */
  lemma CompactedLaw<T>(values: Option<seq<Option<T>>>)
    ensures values.None? ==> Compacted(values).None?
    ensures values.Some? ==>
              (Compacted(values).None? <==> |values.value| > 0 && forall i :: 0 <= i < |values.value| ==> values.value[i].None?)
    ensures Compacted(values).Some? ==>
              var r := Compacted(values).value;
              r == values.value[..|r|] && (r == [] || r[|r| - 1].Some?)
              && forall i :: |r| <= i < |values.value| ==> values.value[i].None?
  {
    if values.Some? && |values.value| > 0 && UsedLength(values.value) > 0 {
      var k := UsedLength(values.value) - 1;
      assert values.value[k].Some?;
    }
  }

  /** `CompactArray`: scans from the end for the last non-null element and shrinks the array to it. */
  method CompactArray<T>(values: Option<seq<Option<T>>>) returns (r: Option<seq<Option<T>>>)
    ensures r == Compacted(values)
  {
    if values.None? {
      return values;
    }
    var s := values.value;
    var newLength := 0;
    var i := |s| - 1;
    while i >= 0
      invariant -1 <= i < |s|
      invariant forall j :: i < j < |s| ==> s[j].None?
      decreases i + 1
    {
      if s[i].Some? {
        newLength := i + 1;
        break;
      }
      i := i - 1;
    }
    UsedLengthIs(s, newLength);
    r := Shrink(values, newLength);
  }

  /** The used length is the only length whose last element is present and after which all are null. */
  lemma {:induction false} UsedLengthIs<T>(s: seq<Option<T>>, n: nat)
    requires n <= |s| && (n > 0 ==> s[n - 1].Some?)
    requires forall i :: n <= i < |s| ==> s[i].None?
    ensures UsedLength(s) == n
    decreases |s|
  {
    if s != [] && s[|s| - 1].None? {
      UsedLengthIs(s[..|s| - 1], n);
    }
  }

  /** `ArrayRemoveAt` as a function: null stays null, an empty array becomes null, otherwise slot `index` is nulled and the array compacted. */
  function RemovedAt<T>(values: Option<seq<Option<T>>>, index: nat): Option<seq<Option<T>>>
  {
    if values.None? then None
    else if |values.value| == 0 then None
    else if index < |values.value| then Compacted(Some(values.value[index := None]))
    else Compacted(values)
  }

  /** `ArrayRemoveAt`: afterwards slot `index` is null or gone, and every other element is where it was. */
  method ArrayRemoveAt<T>(values: Option<seq<Option<T>>>, index: nat) returns (r: Option<seq<Option<T>>>)
    ensures r == RemovedAt(values, index)
    ensures r.Some? ==> values.Some? && |r.value| <= |values.value|
    ensures r.Some? ==> forall i :: 0 <= i < |r.value| ==> r.value[i] == if i == index then None else values.value[i]
    ensures r.Some? ==> forall i :: |r.value| <= i < |values.value| && i != index ==> values.value[i].None?
  {
    if values.None? {
      return None;
    }
    if |values.value| == 0 {
      return None;
    }
    var s := values.value;
    if index < |s| {
      s := s[index := None];
    }
    r := CompactArray(Some(s));
    CompactedLaw(Some(s));
    assert |s| == |values.value|;
    assert forall i :: 0 <= i < |s| && i != index ==> s[i] == values.value[i];
  }

  // ---------------------------------------------------------------------
  // Platform layer data, kept as keys with parallel texts and binaries
  // ---------------------------------------------------------------------

  /** A `PlatformLayerData` type: its full name, and whether it serialises to binary (`IsSupportedSerializeBinary`). */
  datatype PlatformType = PlatformType(fullName: string, binaryCapable: bool)

  /** A `PlatformLayerData` instance, with what `SerializeBinary()` and `Serialize()` return for it. */
  datatype PlatformValue = PlatformValue(kind: PlatformType, binary: Option<seq<int>>, text: Option<string>)

  /** What deserialising gives: no call at all (the data are missing), or the argument handed to `DeserializeBinary` or `Deserialize`. */
  datatype Restored = NoData | FromBinary(words: Option<seq<int>>) | FromText(text: Option<string>)

  /** The index of the first key equal to `name`. */
  function FirstIndex(keys: seq<string>, name: string): (r: Option<nat>)
    ensures r.None? <==> name !in keys
    ensures r.Some? ==> r.value < |keys| && keys[r.value] == name && forall j :: 0 <= j < r.value ==> keys[j] != name
  {
    if keys == [] then None
    else if keys[0] == name then Some(0)
    else match FirstIndex(keys[1..], name)
      case None => None
      case Some(i) => Some(i + 1)
  }

  /** The encoding of a possibly null list of entries (`FromBinaryDataList`). */
  function EncodeArray(entries: Option<seq<Option<seq<int>>>>): seq<int>
  {
    if entries.Some? then Encode(entries.value) else []
  }

  /** The three serialised fields after `SerializePlatformLayerData(v)`. */
  datatype Fields = Fields(keys: Option<seq<string>>, texts: Option<seq<Option<string>>>, binary: Option<seq<int>>)

  /**
   * `SerializePlatformLayerData` as a function. When a key names the type,
   * its slot is rewritten: a binary type writes its binary segment and drops
   * its text, a text type writes its text and drops its binary segment.
   * Otherwise the name is appended to the keys and the value goes to the new
   * last slot, the other array being cut to the keys' length.
   */
  function Serialized(f: Fields, v: PlatformValue): Fields
  {
    var name := v.kind.fullName;
    var ks := if f.keys.Some? then f.keys.value else [];
    var binaries := Present(if f.binary.Some? then Decode(f.binary.value) else []);
    match FirstIndex(ks, name)
    case Some(i) =>
      if v.kind.binaryCapable then
        Fields(f.keys, RemovedAt(f.texts, i), Some(Encode(Expand(Some(binaries), i + 1)[i := v.binary])))
      else
        Fields(f.keys, Some(Expand(f.texts, i + 1)[i := v.text]), Some(EncodeArray(RemovedAt(Some(binaries), i))))
    case None =>
      var n := |ks|;
      if v.kind.binaryCapable then
        Fields(Some(ks + [name]), Shrink(f.texts, n + 1), Some(Encode(Resize(Some(binaries), n + 1)[n := v.binary])))
      else
        Fields(Some(ks + [name]), Some(Resize(f.texts, n + 1)[n := v.text]), Some(EncodeArray(Shrink(Some(binaries), n + 1))))
  }

  /**
   * `DeserializePlatformLayerData` as a function. With no keys, or neither
   * texts nor binary, nothing is read. A binary type reads the segment at
   * the index of the first key naming it, when the binary has that many
   * well-formed segments (an empty segment reads as null); otherwise the
   * text at that index is read; with no key, the read is given null.
   */
  function Restore(f: Fields, kind: PlatformType): Restored
  {
    if f.keys.None? || (f.texts.None? && f.binary.None?) then NoData
    else
      var j := FirstIndex(f.keys.value, kind.fullName);
      var segments := if f.binary.Some? then Decode(f.binary.value) else [];
      if f.binary.Some? && kind.binaryCapable && j.Some? && j.value < |segments| then
        FromBinary(if |segments[j.value]| > 0 then Some(segments[j.value]) else None)
      else if f.texts.Some? && j.Some? then
        FromText(if j.value < |f.texts.value| then f.texts.value[j.value] else None)
      else if kind.binaryCapable then FromBinary(None)
      else FromText(None)
  }

  /** A key that is already there stays where it is; a new one is appended. */
  lemma SerializedKeys(f: Fields, v: PlatformValue)
    ensures var ks := if f.keys.Some? then f.keys.value else [];
            if v.kind.fullName in ks then Serialized(f, v).keys == f.keys
            else Serialized(f, v).keys == Some(ks + [v.kind.fullName])
    ensures Serialized(f, v).binary.Some?
  {
  }

  /** What a binary type wrote reads back, an empty or null array as null. */
  function BinaryReadBack(v: PlatformValue): Restored
  {
    FromBinary(if v.binary.Some? && |v.binary.value| > 0 then v.binary else None)
  }

  /** A binary type read back from a binary whose slot `i` it was just written to. */
  lemma BinarySlotReadBack(keys: seq<string>, b: seq<Option<seq<int>>>, i: nat, v: PlatformValue, texts: Option<seq<Option<string>>>)
    requires v.kind.binaryCapable && i < |b| && b[i] == v.binary
    requires FirstIndex(keys, v.kind.fullName) == Some(i)
    ensures Restore(Fields(Some(keys), texts, Some(Encode(b))), v.kind) == BinaryReadBack(v)
  {
    RoundTrip([], b);
    var c := Contents(b);
    assert c[i] == if v.binary.Some? then v.binary.value else [];
  }

  /** A text type read back from texts whose slot `i` it was just written to. */
  lemma TextSlotReadBack(keys: seq<string>, t: seq<Option<string>>, i: nat, v: PlatformValue, binary: seq<int>)
    requires !v.kind.binaryCapable && i < |t| && t[i] == v.text
    requires FirstIndex(keys, v.kind.fullName) == Some(i)
    ensures Restore(Fields(Some(keys), Some(t), Some(binary)), v.kind) == FromText(v.text)
  {
  }

  /** The read-back when a key already named the type: its slot was rewritten. */
  lemma SerializeRestoreFound(f: Fields, v: PlatformValue, i: nat)
    requires FirstIndex(if f.keys.Some? then f.keys.value else [], v.kind.fullName) == Some(i)
    ensures Restore(Serialized(f, v), v.kind) == if v.kind.binaryCapable then BinaryReadBack(v) else FromText(v.text)
  {
    var ks := if f.keys.Some? then f.keys.value else [];
    var binaries := Present(if f.binary.Some? then Decode(f.binary.value) else []);
    assert f.keys == Some(ks);
    if v.kind.binaryCapable {
      var b := Expand(Some(binaries), i + 1)[i := v.binary];
      assert Serialized(f, v) == Fields(f.keys, RemovedAt(f.texts, i), Some(Encode(b)));
      BinarySlotReadBack(ks, b, i, v, RemovedAt(f.texts, i));
    } else {
      var t := Expand(f.texts, i + 1)[i := v.text];
      var w := EncodeArray(RemovedAt(Some(binaries), i));
      assert Serialized(f, v) == Fields(f.keys, Some(t), Some(w));
      TextSlotReadBack(ks, t, i, v, w);
    }
  }

  /** The read-back when no key named the type: it was appended with its value in the new last slot. */
  lemma SerializeRestoreNew(f: Fields, v: PlatformValue)
    requires FirstIndex(if f.keys.Some? then f.keys.value else [], v.kind.fullName).None?
    ensures Restore(Serialized(f, v), v.kind) == if v.kind.binaryCapable then BinaryReadBack(v) else FromText(v.text)
  {
    var name := v.kind.fullName;
    var ks := if f.keys.Some? then f.keys.value else [];
    var binaries := Present(if f.binary.Some? then Decode(f.binary.value) else []);
    var n := |ks|;
    FirstIndexAppended(ks, name);
    SerializedNew(f, v);
    if v.kind.binaryCapable {
      var b := Resize(Some(binaries), n + 1);
      assert b[n := v.binary][n] == v.binary;
      BinarySlotReadBack(ks + [name], b[n := v.binary], n, v, Shrink(f.texts, n + 1));
    } else {
      var t := Resize(f.texts, n + 1);
      assert t[n := v.text][n] == v.text;
      TextSlotReadBack(ks + [name], t[n := v.text], n, v, EncodeArray(Shrink(Some(binaries), n + 1)));
    }
  }

  /** A name not among the keys is first found at the end once appended. */
  lemma FirstIndexAppended(ks: seq<string>, name: string)
    requires name !in ks
    ensures FirstIndex(ks + [name], name) == Some(|ks|)
  {
    assert (ks + [name])[|ks|] == name;
    assert forall j :: 0 <= j < |ks| ==> (ks + [name])[j] == ks[j];
  }

  /** `Serialized` when no key names the type: the name is appended and its value goes to the new last slot. */
  lemma SerializedNew(f: Fields, v: PlatformValue)
    requires FirstIndex(if f.keys.Some? then f.keys.value else [], v.kind.fullName).None?
    ensures var ks := if f.keys.Some? then f.keys.value else [];
      var binaries := Present(if f.binary.Some? then Decode(f.binary.value) else []);
      var n := |ks|;
      Serialized(f, v) ==
        if v.kind.binaryCapable then
          Fields(Some(ks + [v.kind.fullName]), Shrink(f.texts, n + 1), Some(Encode(Resize(Some(binaries), n + 1)[n := v.binary])))
        else
          Fields(Some(ks + [v.kind.fullName]), Some(Resize(f.texts, n + 1)[n := v.text]), Some(EncodeArray(Shrink(Some(binaries), n + 1))))
  {
  }

  /** `Serialized` when a key names the type: its slot `i` is rewritten. */
  lemma SerializedFound(f: Fields, v: PlatformValue, i: nat)
    requires f.keys.Some? && FirstIndex(f.keys.value, v.kind.fullName) == Some(i)
    ensures var binaries := Present(if f.binary.Some? then Decode(f.binary.value) else []);
      Serialized(f, v) ==
        if v.kind.binaryCapable then
          Fields(f.keys, RemovedAt(f.texts, i), Some(Encode(Expand(Some(binaries), i + 1)[i := v.binary])))
        else
          Fields(f.keys, Some(Expand(f.texts, i + 1)[i := v.text]), Some(EncodeArray(RemovedAt(Some(binaries), i))))
  {
  }

  /** Reading a type back right after writing it gives what was written. */
  lemma {:induction false} SerializeRestore(f: Fields, v: PlatformValue)
    ensures Restore(Serialized(f, v), v.kind) == if v.kind.binaryCapable then BinaryReadBack(v) else FromText(v.text)
  {
    match FirstIndex(if f.keys.Some? then f.keys.value else [], v.kind.fullName)
    case Some(i) => SerializeRestoreFound(f, v, i);
    case None => SerializeRestoreNew(f, v);
  }

  /** The platform-data fields of a `CompositionLayer`. */
  class PlatformDataFields {
    var keys: Option<seq<string>>
    var texts: Option<seq<Option<string>>>
    var binary: Option<seq<int>>

    constructor()
      ensures keys.None? && texts.None? && binary.None?
    {
      keys, texts, binary := None, None, None;
    }

    /** The three fields as one value. */
    function Current(): Fields
      reads this
    {
      Fields(keys, texts, binary)
    }

    /** `SerializePlatformLayerData`: a null value changes nothing; otherwise the fields become `Serialized`. */
    method SerializePlatformLayerData(v: Option<PlatformValue>)
      modifies this
      ensures v.None? ==> Current() == old(Current())
      ensures v.Some? ==> Current() == Serialized(old(Current()), v.value)
    {
      if v.None? {
        return;
      }
      var data := v.value;
      var name := data.kind.fullName;
      var keyLength := if keys.Some? then |keys.value| else 0;
      var binaries := ToBinaryDataList(binary);
      var ks := if keys.Some? then keys.value else [];
      for i := 0 to keyLength
        invariant forall j :: 0 <= j < i ==> ks[j] != name
      {
        if ks[i] == name {
          assert FirstIndex(ks, name) == Some(i);
          RewriteSlot(data, i, binaries);
          return;
        }
      }
      assert FirstIndex(ks, name).None?;
      AppendSlot(data, binaries);
    }

    /** The found-key branch: the type's slot `i` is rewritten in the texts or in the binary. */
    method RewriteSlot(data: PlatformValue, i: nat, binaries: seq<seq<int>>)
      requires keys.Some? && FirstIndex(keys.value, data.kind.fullName) == Some(i)
      requires binaries == if binary.Some? then Decode(binary.value) else []
      modifies this
      ensures Current() == Serialized(old(Current()), data)
    {
      SerializedFound(Current(), data, i);
      if data.kind.binaryCapable {
        var expanded := Expand(Some(Present(binaries)), i + 1);
        var words := FromBinaryDataList(Some(expanded[i := data.binary]));
        binary := Some(words);
        texts := ArrayRemoveAt(texts, i);
      } else {
        var removed := ArrayRemoveAt(Some(Present(binaries)), i);
        var words := FromBinaryDataList(removed);
        binary := Some(words);
        texts := Some(Expand(texts, i + 1)[i := data.text]);
      }
    }

    /** The new-key branch: the name is appended and the value goes to the new last slot. */
    method AppendSlot(data: PlatformValue, binaries: seq<seq<int>>)
      requires FirstIndex(if keys.Some? then keys.value else [], data.kind.fullName).None?
      requires binaries == if binary.Some? then Decode(binary.value) else []
      modifies this
      ensures Current() == Serialized(old(Current()), data)
    {
      var ks := if keys.Some? then keys.value else [];
      var keyLength := |ks|;
      keys := Some(ks + [data.kind.fullName]);
      var entries: Option<seq<Option<seq<int>>>>;
      if data.kind.binaryCapable {
        entries := Some(Resize(Some(Present(binaries)), keyLength + 1)[keyLength := data.binary]);
        texts := Shrink(texts, keyLength + 1);
      } else {
        entries := Shrink(Some(Present(binaries)), keyLength + 1);
        texts := Some(Resize(texts, keyLength + 1)[keyLength := data.text]);
      }
      var words := FromBinaryDataList(entries);
      binary := Some(words);
    }

    /**
     * `DeserializePlatformLayerData(ref data)`: the binary walk for a binary
     * type, then the texts, then a read of null.
     */
    method DeserializePlatformLayerData(kind: PlatformType) returns (r: Restored)
      ensures r == Restore(Current(), kind)
    {
      if keys.None? || (texts.None? && binary.None?) {
        return NoData;
      }
      if binary.Some? && kind.binaryCapable {
        var found := BinaryLookup(keys.value, binary.value, kind.fullName);
        if found.Some? {
          return FromBinary(found.value);
        }
      }
      if texts.Some? {
        var found := TextLookup(keys.value, texts.value, kind.fullName);
        if found.Some? {
          return FromText(found.value);
        }
      }
      if kind.binaryCapable {
        r := FromBinary(None);
      } else {
        r := FromText(None);
      }
    }
  }

  /**
   * The binary walk of `DeserializePlatformLayerData`: keys and segments are
   * read in step until the keys or the well-formed segments run out; the
   * segment beside the first key naming the type is found (an empty one
   * reads as null).
   */
  method BinaryLookup(keys: seq<string>, b: seq<int>, name: string) returns (found: Option<Option<seq<int>>>)
    ensures var j := FirstIndex(keys, name);
            found.Some? <==> j.Some? && j.value < |Decode(b)|
    ensures found.Some? ==>
              var s := Decode(b)[FirstIndex(keys, name).value];
              found.value == if |s| > 0 then Some(s) else None
  {
    ghost var j := FirstIndex(keys, name);
    ghost var segments := Decode(b);
    var pos := 0;
    var i := 0;
    var stop := false;
    while !stop && i < |keys| && pos < |b|
      invariant 0 <= pos <= |b| && 0 <= i <= |segments| && i <= |keys|
      invariant Decode(b[pos..]) == segments[i..]
      invariant stop ==> segments[i..] == []
      invariant forall k :: 0 <= k < i ==> keys[k] != name
      decreases |b| - pos, if stop then 0 else 1
    {
      var length := b[pos];
      var next := pos + 1 + length;
      SegmentStep(b, pos, segments, i);
      if length < 0 || next > |b| {
        stop := true;
        continue;
      }
      if keys[i] == name {
        assert j == Some(i);
        if length > 0 {
          return Some(Some(b[pos + 1..next]));
        } else {
          return Some(None);
        }
      }
      pos := next;
      i := i + 1;
    }
    assert i == |keys| || segments[i..] == [] by {
      if !stop && i < |keys| && pos == |b| {
        assert b[pos..] == [];
      }
    }
    found := None;
  }

  /** The text step of `DeserializePlatformLayerData`: the text beside the first key naming the type, null when missing. */
  method TextLookup(keys: seq<string>, texts: seq<Option<string>>, name: string) returns (found: Option<Option<string>>)
    ensures found.Some? <==> name in keys
    ensures found.Some? ==>
              var j := FirstIndex(keys, name).value;
              found.value == if j < |texts| then texts[j] else None
  {
    for i := 0 to |keys|
      invariant forall k :: 0 <= k < i ==> keys[k] != name
    {
      if keys[i] == name {
        assert FirstIndex(keys, name) == Some(i);
        if i < |texts| && texts[i].Some? {
          return Some(texts[i]);
        } else {
          return Some(None);
        }
      }
    }
    found := None;
  }
}
