/**
 * JSON values and their compact text form in the sense of RFC 8259: objects
 * (section 4), arrays (section 5), numbers (section 6) and strings (section 7)
 * written without insignificant whitespace. Numbers are kept as their text.
 * The decoders of the model (`json.loads`, `JsonUtility.FromJson`) are not
 * written here: they are parameters of the operations that use them.
 */
module Json {
  import opened Wrappers
  import opened Text

  datatype Value =
    | Null
    | Bool(b: bool)
    | Number(text: string)
    | Str(s: string)
    | Array(items: seq<Value>)
    | Object(members: seq<(string, Value)>)

  /** What a decoder makes of a text: a decode error, or a value. */
  datatype Decoded = Malformed | Parsed(value: Value)

  /** The value bound to `key`; with duplicate names the last binding wins, as in Python's `dict`. */
  function Lookup(members: seq<(string, Value)>, key: string): (r: Option<Value>)
    ensures r.None? <==> forall i :: 0 <= i < |members| ==> members[i].0 != key
    ensures r.Some? ==> exists i :: 0 <= i < |members| && members[i] == (key, r.value)
                                    && forall j :: i < j < |members| ==> members[j].0 != key
  {
    if |members| == 0 then None
    else if members[|members| - 1].0 == key then Some(members[|members| - 1].1)
    else
      var r := Lookup(members[..|members| - 1], key);
      assert forall i :: 0 <= i < |members| - 1 ==> members[..|members| - 1][i] == members[i];
      r
  }

  // ----------------------------------------------------------------------
  // Section 6: number = [ minus ] int [ frac ] [ exp ]

  /** exp = e [ minus / plus ] 1*DIGIT, or nothing. */
  predicate IsExpPart(e: string)
  {
    |e| == 0 ||
    ((e[0] == 'e' || e[0] == 'E') &&
     var r := if |e| >= 2 && (e[1] == '+' || e[1] == '-') then e[2..] else e[1..];
     |r| >= 1 && AllDigits(r))
  }

  /** [ frac ] [ exp ], where frac = decimal-point 1*DIGIT. */
  predicate IsFracExpPart(u: string)
  {
    if |u| >= 1 && u[0] == '.' then
      var f := DigitRun(u[1..]);
      f >= 1 && IsExpPart(u[1 + f..])
    else IsExpPart(u)
  }

  /** The number grammar of RFC 8259 section 6; int = zero / ( digit1-9 *DIGIT ). */
  predicate IsNumberText(s: string)
  {
    var t := if |s| > 0 && s[0] == '-' then s[1..] else s;
    var n := DigitRun(t);
    n >= 1 && (n == 1 || t[0] != '0') && IsFracExpPart(t[n..])
  }

  /** Every decimal integer numeral is a JSON number. */
  lemma {:induction false} IntIsNumber(i: int)
    ensures IsNumberText(IntToString(i))
  {
    var d := NatToString(if i < 0 then -i else i);
    DigitRunAll(d);
    if i < 0 {
      assert IntToString(i)[1..] == d;
    }
    assert d[|d|..] == "";
  }

  /** An integer part, a point and some digits make a JSON number. */
  lemma {:induction false} FixedIsNumber(whole: nat, frac: string)
    requires |frac| >= 1 && AllDigits(frac)
    ensures IsNumberText(NatToString(whole) + "." + frac)
  {
    var d := NatToString(whole);
    var s := d + "." + frac;
    assert s == d + ("." + frac);
    DigitRunStops(d, "." + frac);
    assert s[|d|..] == "." + frac;
    assert (s[|d|..])[1..] == frac;
    DigitRunAll(frac);
    assert frac[|frac|..] == "";
  }

  // ----------------------------------------------------------------------
  // Strings and the compact serialisation.

  /** A string that section 7 lets appear between quotes without any escape. */
  predicate NeedsNoEscape(s: string)
  {
    forall i :: 0 <= i < |s| ==> s[i] != '"' && s[i] != '\\' && s[i] >= ' '
  }

  /** Every number is a section 6 number and every string and name needs no escape. */
  predicate WellFormed(v: Value)
  {
    match v
    case Number(t) => IsNumberText(t)
    case Str(s) => NeedsNoEscape(s)
    case Array(items) => forall i :: 0 <= i < |items| ==> WellFormed(items[i])
    case Object(ms) => forall i :: 0 <= i < |ms| ==> NeedsNoEscape(ms[i].0) && WellFormed(ms[i].1)
    case _ => true
  }

  /** Pieces separated by commas (the value-separator of section 2). */
  function Commas(pieces: seq<string>): string
  {
    if |pieces| == 0 then "" else Join(pieces, ',')
  }

  /** One more piece is written after a comma, unless it is the first. */
  lemma CommasSnoc(pieces: seq<string>, p: string)
    ensures Commas(pieces + [p]) == if |pieces| == 0 then p else Commas(pieces) + "," + p
  {
    if |pieces| > 0 {
      JoinSnoc(pieces, p, ',');
    } else {
      assert pieces + [p] == [p];
    }
  }

  /** The compact JSON text of a value. */
  function Serialize(v: Value): string
  {
    match v
    case Null => "null"
    case Bool(b) => if b then "true" else "false"
    case Number(t) => t
    case Str(s) => "\"" + s + "\""
    case Array(items) =>
      "[" + Commas(seq(|items|, i requires 0 <= i < |items| => Serialize(items[i]))) + "]"
    case Object(ms) =>
      "{" + Commas(seq(|ms|, i requires 0 <= i < |ms| => "\"" + ms[i].0 + "\":" + Serialize(ms[i].1))) + "}"
  }

  /** The text of a member: its quoted name, a colon and its value. */
  function MemberText(name: string, v: Value): string
  {
    "\"" + name + "\":" + Serialize(v)
  }

  /** An object of three members whose names need no escape and whose values are well formed is well formed. */
  lemma Object3WellFormed(n1: string, v1: Value, n2: string, v2: Value, n3: string, v3: Value)
    requires NeedsNoEscape(n1) && NeedsNoEscape(n2) && NeedsNoEscape(n3)
    requires WellFormed(v1) && WellFormed(v2) && WellFormed(v3)
    ensures WellFormed(Object([(n1, v1), (n2, v2), (n3, v3)]))
  {
    var ms := [(n1, v1), (n2, v2), (n3, v3)];
    assert ms[0] == (n1, v1) && ms[1] == (n2, v2) && ms[2] == (n3, v3);
  }

  /** An array is written as its items' texts, separated by commas, between brackets. */
  lemma SerializeArray(items: seq<Value>, texts: seq<string>)
    requires |texts| == |items| && forall i :: 0 <= i < |items| ==> texts[i] == Serialize(items[i])
    ensures Serialize(Array(items)) == "[" + Commas(texts) + "]"
  {
    assert seq(|items|, i requires 0 <= i < |items| => Serialize(items[i])) == texts;
  }

  /** An object of three members is written as its member texts between braces. */
  lemma SerializeObject3(n1: string, v1: Value, n2: string, v2: Value, n3: string, v3: Value)
    ensures Serialize(Object([(n1, v1), (n2, v2), (n3, v3)]))
      == "{" + (MemberText(n1, v1) + ("," + (MemberText(n2, v2) + ("," + (MemberText(n3, v3) + "}")))))
  {
    var ms := [(n1, v1), (n2, v2), (n3, v3)];
    var a, b, c := MemberText(n1, v1), MemberText(n2, v2), MemberText(n3, v3);
    assert Serialize(Object(ms)) == "{" + Commas([a, b, c]) + "}" by {
      var pieces := seq(|ms|, i requires 0 <= i < |ms| => "\"" + ms[i].0 + "\":" + Serialize(ms[i].1));
      assert pieces == [a, b, c];
    }
    Commas3(a, b, c);
  }

  /** Three pieces are written with a comma between each two. */
  lemma Commas3(a: string, b: string, c: string)
    ensures "{" + Commas([a, b, c]) + "}" == "{" + (a + ("," + (b + ("," + (c + "}")))))
  {
    assert [a, b, c][1..] == [b, c];
    assert [b, c][1..] == [c];
    assert Join([b, c], ',') == b + [','] + c;
    assert Join([a, b, c], ',') == a + [','] + Join([b, c], ',');
  }
}
