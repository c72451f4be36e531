/**
 * The editor's small user-interface helpers: the nested "GUI enabled" stack,
 * inspector-style display names, the display name of a platform provider and
 * the two list-to-text concatenations.  `GUI.enabled` (engine state) is a
 * field of the `GuiEnabledStack` object next to the push counter; strings are
 * character sequences, and only ASCII letters have an upper case.
 */
module UIHelper {
  import opened Wrappers
  import opened Text

  // ----------------------------------------------------------------------
  // PushEnabled / PopEnabled

  /** `GUI.enabled` together with the count of pushes that left it disabled. */
  datatype GuiState = GuiState(enabled: bool, pushDisabledCount: nat)

  /** A push disables the GUI when asked to, and counts every push made while disabled. */
  function Push(s: GuiState, isEnabled: bool): GuiState
  {
    var enabled := s.enabled && isEnabled;
    GuiState(enabled, if enabled then s.pushDisabledCount else s.pushDisabledCount + 1)
  }

  /** A pop undoes one counted push and re-enables the GUI when the count returns to zero. */
  function Pop(s: GuiState): GuiState
  {
    if s.pushDisabledCount > 0 then
      var count := s.pushDisabledCount - 1;
      GuiState(if count == 0 then true else s.enabled, count)
    else s
  }

  /** The three rules the helpers follow. */
  lemma PushPopLaw(s: GuiState, isEnabled: bool)
    ensures Push(s, isEnabled).pushDisabledCount > s.pushDisabledCount <==> !Push(s, isEnabled).enabled
    ensures Push(s, isEnabled).enabled <==> s.enabled && isEnabled
    ensures s.pushDisabledCount == 0 ==> Pop(s) == s
    ensures s.pushDisabledCount == 1 ==> Pop(s) == GuiState(true, 0)
    ensures s.pushDisabledCount > 1 ==> Pop(s) == s.(pushDisabledCount := s.pushDisabledCount - 1)
  {
  }

  /** The GUI is disabled exactly while some push is outstanding. */
  predicate Consistent(s: GuiState)
  {
    s.enabled <==> s.pushDisabledCount == 0
  }

  /** Pushes, one flag each, the last flag pushed last. */
  function Pushes(s: GuiState, flags: seq<bool>): GuiState
  {
    if |flags| == 0 then s else Push(Pushes(s, flags[..|flags| - 1]), flags[|flags| - 1])
  }

  /** `n` pops in a row. */
  function Pops(s: GuiState, n: nat): GuiState
    decreases n
  {
    if n == 0 then s else Pops(Pop(s), n - 1)
  }

  lemma PushKeepsConsistent(s: GuiState, isEnabled: bool)
    requires Consistent(s)
    ensures Consistent(Push(s, isEnabled)) && Pop(Push(s, isEnabled)) == s
  {
  }

  lemma {:induction false} PushesKeepConsistent(s: GuiState, flags: seq<bool>)
    requires Consistent(s)
    ensures Consistent(Pushes(s, flags))
  {
    if |flags| > 0 {
      PushesKeepConsistent(s, flags[..|flags| - 1]);
      PushKeepsConsistent(Pushes(s, flags[..|flags| - 1]), flags[|flags| - 1]);
    }
  }

  /**
   * Balanced nesting: from a consistent state, any run of pushes followed by
   * as many pops leaves the GUI state exactly as it was.
   */
  lemma {:induction false} BalancedPushPop(s: GuiState, flags: seq<bool>)
    requires Consistent(s)
    ensures Pops(Pushes(s, flags), |flags|) == s
  {
    if |flags| > 0 {
      var init := flags[..|flags| - 1];
      PushesKeepConsistent(s, init);
      PushKeepsConsistent(Pushes(s, init), flags[|flags| - 1]);
      BalancedPushPop(s, init);
    }
  }

  /** The static counter and `GUI.enabled`, updated in place. */
  class GuiEnabledStack {
    var enabled: bool
    var pushDisabledCount: nat

    function State(): GuiState
      reads this
    {
      GuiState(enabled, pushDisabledCount)
    }

    /** The editor starts with the GUI enabled and no push outstanding. */
    constructor ()
      ensures State() == GuiState(true, 0) && Consistent(State())
    {
      enabled := true;
      pushDisabledCount := 0;
    }

    method PushEnabled(isEnabled: bool)
      modifies this
      ensures State() == Push(old(State()), isEnabled)
      ensures old(Consistent(State())) ==> Consistent(State())
    {
      enabled := enabled && isEnabled;
      if !enabled {
        pushDisabledCount := pushDisabledCount + 1;
      }
    }

    method PopEnabled()
      modifies this
      ensures State() == Pop(old(State()))
      ensures old(Consistent(State())) ==> Consistent(State())
    {
      if pushDisabledCount > 0 {
        pushDisabledCount := pushDisabledCount - 1;
        if pushDisabledCount == 0 {
          enabled := true;
        }
      }
    }
  }

  // ----------------------------------------------------------------------
  // GetDisplayName(string): a space before every capital that starts a
  // lower-case word, as the inspector does.

  function Upper(c: char): char
  {
    if 'a' <= c <= 'z' then (c as int - 32) as char else c
  }

  /** `ToUpper` of a whole string, character by character. */
  function UpperAll(s: string): (r: string)
    ensures |r| == |s| && forall i :: 0 <= i < |s| ==> r[i] == Upper(s[i])
  {
    seq(|s|, i requires 0 <= i < |s| => Upper(s[i]))
  }

  /** A character that upper-casing changes. */
  predicate IsLower(c: char)
  {
    c != Upper(c)
  }

  /** A space goes before `name[j]` when it is not lower case, starts a lower-case run and is not the first character. */
  predicate SpaceBefore(name: string, j: int)
  {
    1 <= j && j + 1 < |name| && IsLower(name[j + 1]) && !IsLower(name[j])
  }

  /** The first `n` characters of `name`, each with its space (if any) in front. */
  function Spaced(name: string, n: nat): string
    requires n <= |name|
  {
    if n == 0 then []
    else Spaced(name, n - 1) + (if SpaceBefore(name, n - 1) then " " else "") + [name[n - 1]]
  }

  /** `r` is `s` with zero or more spaces inserted. */
  predicate Inserted(r: string, s: string)
    decreases |r|
  {
    if |r| == 0 then |s| == 0
    else (|s| > 0 && r[0] == s[0] && Inserted(r[1..], s[1..])) || (r[0] == ' ' && Inserted(r[1..], s))
  }

  lemma {:induction false} InsertedSelf(s: string)
    ensures Inserted(s, s)
    decreases |s|
  {
    if |s| > 0 {
      InsertedSelf(s[1..]);
    }
  }

  lemma {:induction false} InsertedConcat(r: string, s: string, r2: string, s2: string)
    requires Inserted(r, s) && Inserted(r2, s2)
    ensures Inserted(r + r2, s + s2)
    decreases |r|
  {
    if |r| == 0 {
      assert r + r2 == r2 && s + s2 == s2;
    } else {
      assert (r + r2)[1..] == r[1..] + r2;
      if |s| > 0 && r[0] == s[0] && Inserted(r[1..], s[1..]) {
        InsertedConcat(r[1..], s[1..], r2, s2);
        assert (s + s2)[1..] == s[1..] + s2;
      } else {
        InsertedConcat(r[1..], s, r2, s2);
      }
    }
  }

  /** One character, with or without its space. */
  lemma PieceInserted(space: bool, c: char)
    ensures Inserted((if space then " " else "") + [c], [c])
  {
    InsertedSelf([c]);
    if space {
      assert (" " + [c])[1..] == [c];
    } else {
      assert "" + [c] == [c];
    }
  }

  /** The spaced prefix keeps the first character and only inserts spaces after it. */
  lemma {:induction false} SpacedShape(name: string, n: nat)
    requires 1 <= n <= |name|
    ensures |Spaced(name, n)| >= 1 && Spaced(name, n)[0] == name[0]
    ensures Inserted(Spaced(name, n)[1..], name[1..n])
  {
    if n == 1 {
      assert Spaced(name, 0) == [];
      assert Spaced(name, 1) == [name[0]];
      InsertedSelf([]);
    } else {
      SpacedShape(name, n - 1);
      var prev := Spaced(name, n - 1);
      var piece := (if SpaceBefore(name, n - 1) then " " else "") + [name[n - 1]];
      assert Spaced(name, n) == prev + piece;
      assert Spaced(name, n)[1..] == prev[1..] + piece;
      assert name[1..n] == name[1..n - 1] + [name[n - 1]];
      PieceInserted(SpaceBefore(name, n - 1), name[n - 1]);
      InsertedConcat(prev[1..], name[1..n - 1], piece, [name[n - 1]]);
    }
  }

  /**
   * The display name is the name with spaces inserted, and the first
   * character is never preceded by an inserted space.
   */
  lemma {:induction false} DisplayNameInsertsSpaces(name: string)
    ensures Inserted(Spaced(name, |name|), name)
    ensures |name| > 0 ==> Spaced(name, |name|)[0] == name[0] && Inserted(Spaced(name, |name|)[1..], name[1..])
  {
    if |name| > 0 {
      SpacedShape(name, |name|);
      var r := Spaced(name, |name|);
      assert r == [r[0]] + r[1..];
      assert name == [name[0]] + name[1..];
      InsertedSelf([name[0]]);
      assert name[1..|name|] == name[1..];
      InsertedConcat([r[0]], [name[0]], r[1..], name[1..]);
    } else {
      assert Spaced(name, 0) == [];
    }
  }

  /** `GetDisplayName(string)`; `None` is the null name. */
  method GetDisplayName(name: Option<string>) returns (r: string)
    ensures name.None? ==> r == ""
    ensures name.Some? ==> r == Spaced(name.value, |name.value|)
  {
    if name.None? {
      return "";
    }
    var s := name.value;
    var upper := UpperAll(s);
    var newName: string := [];
    var i := 0;
    while i < |s|
      invariant 0 <= i <= |s|
      invariant i == 0 ==> newName == []
      invariant i > 0 ==> newName == Spaced(s, i - 1) + [s[i - 1]]
    {
      if s[i] != upper[i] {
        if i > 1 && s[i - 1] == upper[i - 1] {
          assert SpaceBefore(s, i - 1);
          newName := newName[..|newName| - 1] + " " + newName[|newName| - 1..];
        }
      }
      if i > 0 {
        assert newName == Spaced(s, i);
      }
      newName := newName + [s[i]];
      i := i + 1;
    }
    if i > 0 {
      assert !SpaceBefore(s, i - 1);
      assert newName == Spaced(s, i);
    }
    return newName;
  }

  /** `GetDisplayName(Type)`: the display name of the type's name, "" for no type. */
  method GetTypeDisplayName(typeName: Option<string>) returns (r: string)
    ensures typeName.None? ==> r == ""
    ensures typeName.Some? ==> Inserted(r, typeName.value)
  {
    r := GetDisplayName(typeName);
    if typeName.Some? {
      DisplayNameInsertsSpaces(typeName.value);
    }
  }

  // ----------------------------------------------------------------------
  // Platform provider display name

  /** Strip `postfix` once when `name` ends with it. */
  function RemovePostfix(name: string, postfix: string): (r: string)
    ensures EndsWith(name, postfix) ==> r + postfix == name
    ensures !EndsWith(name, postfix) ==> r == name
  {
    if EndsWith(name, postfix) then name[..|name| - |postfix|] else name
  }

  /** The two type names a platform provider may offer; `None` is a null type. */
  datatype PlatformProvider = PlatformProvider(layerProviderTypeName: Option<string>, xrLoaderTypeName: Option<string>)

  const LayerProviderSuffix: string := "LayerProvider"
  const ProviderSuffix: string := "Provider"
  const DefaultName: string := "Default"

  function ProviderDisplayName(provider: Option<PlatformProvider>): string
  {
    match provider
    case None => DefaultName
    case Some(p) =>
      match p.layerProviderTypeName
      case Some(n) => RemovePostfix(RemovePostfix(n, LayerProviderSuffix), ProviderSuffix)
      case None =>
        match p.xrLoaderTypeName
        case Some(x) => x
        case None => DefaultName
  }

  lemma EndsWithChain(a: string, b: string, c: string)
    requires EndsWith(a, b) && EndsWith(b, c)
    ensures EndsWith(a, c)
  {
    assert a[|a| - |c|..] == a[|a| - |b|..][|b| - |c|..];
  }

  lemma EndsWithAppend(x: string, suffix: string)
    ensures EndsWith(x + suffix, suffix) && (x + suffix)[..|x|] == x
  {
    assert (x + suffix)[|x|..] == suffix;
  }

  /** What the provider's display name is, case by case. */
  lemma ProviderDisplayNameLaw(provider: Option<PlatformProvider>)
    ensures provider.None? ==> ProviderDisplayName(provider) == DefaultName
    ensures provider.Some? && provider.value.layerProviderTypeName.None? ==>
      ProviderDisplayName(provider) == (if provider.value.xrLoaderTypeName.Some? then provider.value.xrLoaderTypeName.value else DefaultName)
    ensures provider.Some? && provider.value.layerProviderTypeName.Some? ==>
      var n := provider.value.layerProviderTypeName.value;
      var r := ProviderDisplayName(provider);
      StartsWith(n, r)
      && (!EndsWith(n, ProviderSuffix) ==> r == n)
      && (forall x :: n == x + LayerProviderSuffix && !EndsWith(x, ProviderSuffix) ==> r == x)
  {
    if provider.Some? && provider.value.layerProviderTypeName.Some? {
      var n := provider.value.layerProviderTypeName.value;
      var once := RemovePostfix(n, LayerProviderSuffix);
      var r := RemovePostfix(once, ProviderSuffix);
      assert StartsWith(n, once) by {
        if EndsWith(n, LayerProviderSuffix) { assert n[..|once|] == once; }
      }
      assert StartsWith(once, r) by {
        if EndsWith(once, ProviderSuffix) { assert once[..|r|] == r; }
      }
      assert n[..|r|] == once[..|r|];
      assert EndsWith(LayerProviderSuffix, ProviderSuffix) by {
        assert LayerProviderSuffix[5..] == ProviderSuffix;
      }
      if !EndsWith(n, ProviderSuffix) {
        if EndsWith(n, LayerProviderSuffix) {
          EndsWithChain(n, LayerProviderSuffix, ProviderSuffix);
        }
      }
      forall x | n == x + LayerProviderSuffix && !EndsWith(x, ProviderSuffix)
        ensures r == x
      {
        EndsWithAppend(x, LayerProviderSuffix);
      }
    }
  }

  // ----------------------------------------------------------------------
  // ConcatEnumeratedNames: "a", "a and b", "a, b and c"

  /** The text after the first `n` of the names, as the loop builds it. */
  function Enumerated(names: seq<string>, n: nat): string
    requires n <= |names|
  {
    if n == 0 then ""
    else
      var i := n - 1;
      Enumerated(names, i) + (if i != 0 then (if i == |names| - 1 then " and " else ", ") else "") + names[i]
  }

  /** Names separated by ", " (an independent definition, from the front). */
  function CommaList(names: seq<string>): string
    requires |names| >= 1
  {
    if |names| == 1 then names[0] else names[0] + ", " + CommaList(names[1..])
  }

  lemma {:induction false} CommaListSnoc(names: seq<string>, x: string)
    requires |names| >= 1
    ensures CommaList(names + [x]) == CommaList(names) + ", " + x
    decreases |names|
  {
    if |names| > 1 {
      assert (names + [x])[1..] == names[1..] + [x];
      CommaListSnoc(names[1..], x);
    } else {
      assert (names + [x])[1..] == [x];
    }
  }

  /** Before the last name, the loop's text is the comma list of what it has seen. */
  lemma {:induction false} EnumeratedPrefix(names: seq<string>, n: nat)
    requires 1 <= n < |names|
    ensures Enumerated(names, n) == CommaList(names[..n])
  {
    if n == 1 {
      assert Enumerated(names, 0) == "";
      assert names[..1] == [names[0]];
    } else {
      EnumeratedPrefix(names, n - 1);
      assert names[..n] == names[..n - 1] + [names[n - 1]];
      CommaListSnoc(names[..n - 1], names[n - 1]);
    }
  }

  /** The whole text: the names joined by ", ", the last one by " and ". */
  lemma EnumeratedLaw(names: seq<string>)
    ensures |names| == 0 ==> Enumerated(names, 0) == ""
    ensures |names| == 1 ==> Enumerated(names, 1) == names[0]
    ensures |names| >= 2 ==> Enumerated(names, |names|) == CommaList(names[..|names| - 1]) + " and " + names[|names| - 1]
  {
    if |names| == 1 {
      assert Enumerated(names, 0) == "";
    } else if |names| >= 2 {
      EnumeratedPrefix(names, |names| - 1);
    }
  }

  /** Three names read "a, b and c". */
  lemma EnumeratedThree(a: string, b: string, c: string)
    ensures Enumerated([a, b, c], 3) == a + ", " + b + " and " + c
  {
    EnumeratedLaw([a, b, c]);
    assert [a, b, c][..2] == [a, b];
    assert [a, b][1..] == [b];
  }

  /** `ConcatEnumeratedNames`; `None` is the null enumeration. */
  method ConcatEnumeratedNames(names: Option<seq<string>>) returns (r: string)
    ensures names.None? ==> r == ""
    ensures names.Some? ==> r == Enumerated(names.value, |names.value|)
  {
    if names.None? {
      return "";
    }
    var all := names.value;
    var count := |all|;
    var str := "";
    var i := 0;
    while i < count
      invariant 0 <= i <= count
      invariant str == Enumerated(all, i)
    {
      if i != 0 {
        str := str + (if i == count - 1 then " and " else ", ");
      }
      str := str + all[i];
      i := i + 1;
    }
    return str;
  }

  // ----------------------------------------------------------------------
  // ConcatMultiLineTexts: one text per line, no line break after the last

  /** The text after the first `n` texts, as the loop builds it. */
  function MultiLine(texts: seq<string>, n: nat): string
    requires n <= |texts|
  {
    if n == 0 then ""
    else
      var i := n - 1;
      MultiLine(texts, i) + texts[i] + (if i < |texts| - 1 then "\n" else "")
  }

  lemma {:induction false} MultiLinePrefix(texts: seq<string>, n: nat)
    requires 1 <= n <= |texts|
    ensures MultiLine(texts, n) == Join(texts[..n], '\n') + (if n < |texts| then "\n" else "")
  {
    if n == 1 {
      assert MultiLine(texts, 0) == "";
      assert texts[..1] == [texts[0]];
    } else {
      MultiLinePrefix(texts, n - 1);
      assert texts[..n] == texts[..n - 1] + [texts[n - 1]];
      JoinSnoc(texts[..n - 1], texts[n - 1], '\n');
    }
  }

  /**
   * The texts are the lines of the result: joined by line breaks, with no
   * break after the last, and split back into the same texts when none of
   * them holds a line break itself.
   */
  lemma {:induction false} MultiLineLaw(texts: seq<string>)
    ensures |texts| == 0 ==> MultiLine(texts, 0) == ""
    ensures |texts| >= 1 ==> MultiLine(texts, |texts|) == Join(texts, '\n')
    ensures |texts| >= 1 ==> EndsWith(MultiLine(texts, |texts|), texts[|texts| - 1])
    ensures |texts| >= 1 && NoSep(texts, '\n') ==> Split(MultiLine(texts, |texts|), '\n') == texts
  {
    if |texts| >= 1 {
      MultiLinePrefix(texts, |texts|);
      assert texts[..|texts|] == texts;
      if |texts| > 1 {
        assert texts == texts[..|texts| - 1] + [texts[|texts| - 1]];
        JoinSnoc(texts[..|texts| - 1], texts[|texts| - 1], '\n');
        EndsWithAppend(Join(texts[..|texts| - 1], '\n') + "\n", texts[|texts| - 1]);
      } else {
        assert Join(texts, '\n') == texts[0];
        EndsWithAppend("", texts[0]);
      }
      if NoSep(texts, '\n') {
        SplitJoin(texts, '\n');
      }
    }
  }

  /** `ConcatMultiLineTexts`; `None` is the null enumeration. */
  method ConcatMultiLineTexts(texts: Option<seq<string>>) returns (r: string)
    ensures texts.None? ==> r == ""
    ensures texts.Some? ==> r == MultiLine(texts.value, |texts.value|)
  {
    if texts.None? {
      return "";
    }
    var all := texts.value;
    var count := |all|;
    var str := "";
    var i := 0;
    while i < count
      invariant 0 <= i <= count
      invariant str == MultiLine(all, i)
    {
      if i < count - 1 {
        str := str + all[i] + "\n";
      } else {
        str := str + all[i];
      }
      i := i + 1;
    }
    return str;
  }
}
