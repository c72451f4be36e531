// The console-line parser shared by myo/samples/run_emg_logger.py and
// myo/samples/emg_visualizer.py (`parse_emg_line`): every match of the
// regular expression `\[([^\]]+)\]` is collected as `re.findall` does, and
// a line with exactly 8 matches that all read as Python integers gives the
// 8 readings.

module EmgLine {
  import opened Wrappers
  import opened Text

  const Readings: nat := 8

  /** Length of the leading run of characters other than ']' (what `[^\]]+` can consume). */
  function RunLength(s: string): (n: nat)
    ensures n <= |s| && ']' !in s[..n]
    ensures n < |s| ==> s[n] == ']'
  {
    if |s| == 0 || s[0] == ']' then 0
    else
      var n := RunLength(s[1..]);
      assert s[..n + 1] == [s[0]] + s[1..][..n];
      n + 1
  }

  /**
   * `re.findall(r'\[([^\]]+)\]', s)`: scanning from the left, a match starts
   * at a '[' followed by at least one character other than ']' and then a ']';
   * the group is the text in between, and scanning resumes after the ']'.
   * Where no match starts, scanning moves on by one character.
   */
  function FindAll(s: string): (groups: seq<string>)
    ensures forall k :: 0 <= k < |groups| ==> |groups[k]| > 0 && ']' !in groups[k]
    decreases |s|
  {
    if |s| == 0 then []
    else if s[0] == '[' && 0 < RunLength(s[1..]) < |s| - 1 then
      var n := RunLength(s[1..]);
      [s[1..n + 1]] + FindAll(s[n + 2..])
    else FindAll(s[1..])
  }

  /** An opening bracket is needed for a match: text without one contributes nothing. */
  lemma {:induction false} FindAllSkips(pre: string, s: string)
    requires '[' !in pre
    ensures FindAll(pre + s) == FindAll(s)
    decreases |pre|
  {
    if |pre| > 0 {
      assert (pre + s)[0] == pre[0];
      assert (pre + s)[1..] == pre[1..] + s;
      FindAllSkips(pre[1..], s);
    } else {
      assert pre + s == s;
    }
  }

  /** A bracketed group of characters other than ']' is matched as one group. */
  lemma FindAllGroup(g: string, s: string)
    requires |g| > 0 && ']' !in g
    ensures FindAll("[" + g + "]" + s) == [g] + FindAll(s)
  {
    var t := "[" + g + "]" + s;
    assert t[1..] == g + "]" + s;
    RunLengthOf(g, s);
    assert t[1..|g| + 1] == g;
    assert t[|g| + 2..] == s;
  }

  lemma {:induction false} RunLengthOf(g: string, s: string)
    requires ']' !in g
    ensures RunLength(g + "]" + s) == |g|
    decreases |g|
  {
    if |g| > 0 {
      assert (g + "]" + s)[1..] == g[1..] + "]" + s;
      assert ']' !in g[1..] by {
        forall k | 0 <= k < |g[1..]| ensures g[1..][k] != ']' { assert g[1..][k] == g[k + 1]; }
      }
      RunLengthOf(g[1..], s);
    } else {
      assert g + "]" + s == "]" + s;
    }
  }

  /** Digits with single underscores between them, as Python's `int` accepts. */
  predicate IsDigitGroups(s: string)
  {
    |s| > 0 && IsDigit(s[0]) && IsDigit(s[|s| - 1])
    && (forall i :: 0 <= i < |s| ==> IsDigit(s[i]) || s[i] == '_')
    && (forall i :: 0 <= i < |s| - 1 ==> !(s[i] == '_' && s[i + 1] == '_'))
  }

  /** The digits of `s` with the underscores left out. */
  function WithoutUnderscores(s: string): (r: string)
    requires forall i :: 0 <= i < |s| ==> IsDigit(s[i]) || s[i] == '_'
    ensures AllDigits(r) && |r| <= |s|
    ensures AllDigits(s) ==> r == s
  {
    if |s| == 0 then ""
    else
      var rest := WithoutUnderscores(s[1..]);
      if s[0] == '_' then rest else [s[0]] + rest
  }

  /**
   * Python's `int(t)` on a text already stripped of whitespace: an optional
   * sign, then decimal digits in groups separated by single underscores.
   * Anything else raises `ValueError` (here `None`).
   */
  function ParseInt(t: string): Option<int>
  {
    if IsDigitGroups(t) then Some(DigitsValue(WithoutUnderscores(t)))
    else if |t| > 0 && t[0] == '+' && IsDigitGroups(t[1..]) then Some(DigitsValue(WithoutUnderscores(t[1..])))
    else if |t| > 0 && t[0] == '-' && IsDigitGroups(t[1..]) then
      var magnitude: int := DigitsValue(WithoutUnderscores(t[1..]));
      Some(-magnitude)
    else None
  }

  /** `int` accepts exactly an optional sign followed by underscore-separated digit groups; plain digits keep their value. */
  lemma ParseIntAccepts(t: string)
    ensures ParseInt(t).Some? <==> (IsDigitGroups(t) || (|t| > 0 && (t[0] == '+' || t[0] == '-') && IsDigitGroups(t[1..])))
    ensures AllDigits(t) && |t| > 0 ==> ParseInt(t) == Some(DigitsValue(t))
  {
  }

  /** A numeral written by `IntToString` reads back as its integer. */
  lemma ParseIntOfNumeral(v: int)
    ensures ParseInt(IntToString(v)) == Some(v)
  {
    var m: nat := if v < 0 then -v else v;
    var digits := NatToString(m);
    NatToStringValue(m);
    PlainDigits(digits);
    if v < 0 {
      var t := IntToString(v);
      assert t == "-" + digits && t[1..] == digits;
      ParseIntMinus(t);
    } else {
      ParseIntDigits(digits);
    }
  }

  /** Plain digits form one digit group and have no underscore to leave out. */
  lemma PlainDigits(d: string)
    requires |d| > 0 && AllDigits(d)
    ensures IsDigitGroups(d) && WithoutUnderscores(d) == d
  {
  }

  /** Digit groups read as their digits' value. */
  lemma ParseIntDigits(t: string)
    requires IsDigitGroups(t)
    ensures ParseInt(t) == Some(DigitsValue(WithoutUnderscores(t)))
  {
  }

  /** A minus sign before digit groups negates their value. */
  lemma ParseIntMinus(t: string)
    requires |t| > 0 && t[0] == '-' && IsDigitGroups(t[1..])
    ensures ParseInt(t) == Some(0 - DigitsValue(WithoutUnderscores(t[1..])))
  {
    assert !IsDigit(t[0]);
  }

  /** What `int(match.strip())` makes of one group. */
  function GroupValue(group: string): Option<int>
  {
    ParseInt(Strip(group))
  }

  /** The values of a list whose entries are all present, or `None` when one is missing. */
  function AllPresent(opts: seq<Option<int>>): (r: Option<seq<int>>)
    ensures r.Some? <==> forall k :: 0 <= k < |opts| ==> opts[k].Some?
    ensures r.Some? ==> |r.value| == |opts| && forall k :: 0 <= k < |opts| ==> opts[k] == Some(r.value[k])
    decreases |opts|
  {
    if |opts| == 0 then Some([])
    else
      var tail := AllPresent(opts[1..]);
      assert forall k :: 1 <= k < |opts| ==> opts[k] == opts[1..][k - 1];
      if opts[0].None? || tail.None? then None
      else Some([opts[0].value] + tail.value)
  }

  /** Every group read as an integer after stripping, or `None` when one does not read. */
  function ParseGroups(groups: seq<string>): (r: Option<seq<int>>)
    ensures r.Some? <==> forall k :: 0 <= k < |groups| ==> GroupValue(groups[k]).Some?
    ensures r.Some? ==> |r.value| == |groups| && forall k :: 0 <= k < |groups| ==> GroupValue(groups[k]) == Some(r.value[k])
  {
    var opts := seq(|groups|, k requires 0 <= k < |groups| => GroupValue(groups[k]));
    assert forall k :: 0 <= k < |groups| ==> opts[k] == GroupValue(groups[k]);
    AllPresent(opts)
  }

  /**
   * `parse_emg_line`: the 8 readings when the line has exactly 8 bracket
   * groups that all read as integers once stripped; `None` otherwise.
   */
  function ParseEmgLine(line: string): (r: Option<seq<int>>)
    ensures r.Some? <==> |FindAll(line)| == Readings && forall k :: 0 <= k < Readings ==> GroupValue(FindAll(line)[k]).Some?
    ensures r.Some? ==> |r.value| == Readings && forall k :: 0 <= k < Readings ==> GroupValue(FindAll(line)[k]) == Some(r.value[k])
  {
    var groups := FindAll(line);
    if |groups| == Readings then ParseGroups(groups) else None
  }

  /** `n` spaces. */
  function Spaces(n: nat): (r: string)
    ensures |r| == n && forall i :: 0 <= i < n ==> r[i] == ' '
  {
    seq(n, _ => ' ')
  }

  /** One reading in brackets, padded with spaces on either side: `[  12]`, `[-5  ]`. */
  function Bracket(v: int, left: nat, right: nat): string
  {
    "[" + Padded(v, left, right) + "]"
  }

  /** A numeral with `left` spaces before it and `right` spaces after it. */
  function Padded(v: int, left: nat, right: nat): string
  {
    Spaces(left) + IntToString(v) + Spaces(right)
  }

  /** Readings written one after another in brackets, with the given paddings. */
  function Bracketed(vals: seq<int>, left: seq<nat>, right: seq<nat>): string
    requires |left| == |vals| && |right| == |vals|
    decreases |vals|
  {
    if |vals| == 0 then ""
    else Bracket(vals[0], left[0], right[0]) + Bracketed(vals[1..], left[1..], right[1..])
  }

  /** The groups of bracketed readings are the padded numerals, in order. */
  function PaddedAll(vals: seq<int>, left: seq<nat>, right: seq<nat>): (r: seq<string>)
    requires |left| == |vals| && |right| == |vals|
    ensures |r| == |vals|
    decreases |vals|
  {
    if |vals| == 0 then [] else [Padded(vals[0], left[0], right[0])] + PaddedAll(vals[1..], left[1..], right[1..])
  }

  /** The k-th group is the k-th padded numeral. */
  lemma {:induction false} PaddedAllIndex(vals: seq<int>, left: seq<nat>, right: seq<nat>)
    requires |left| == |vals| && |right| == |vals|
    ensures forall k :: 0 <= k < |vals| ==> PaddedAll(vals, left, right)[k] == Padded(vals[k], left[k], right[k])
    decreases |vals|
  {
    if |vals| > 0 {
      PaddedAllIndex(vals[1..], left[1..], right[1..]);
      var tail := PaddedAll(vals[1..], left[1..], right[1..]);
      forall k | 1 <= k < |vals| ensures PaddedAll(vals, left, right)[k] == Padded(vals[k], left[k], right[k]) {
        assert PaddedAll(vals, left, right)[k] == tail[k - 1];
        assert vals[1..][k - 1] == vals[k] && left[1..][k - 1] == left[k] && right[1..][k - 1] == right[k];
      }
    }
  }

  lemma {:induction false} BracketedGroups(vals: seq<int>, left: seq<nat>, right: seq<nat>, post: string)
    requires |left| == |vals| && |right| == |vals| && '[' !in post
    ensures FindAll(Bracketed(vals, left, right) + post) == PaddedAll(vals, left, right)
    decreases |vals|
  {
    if |vals| == 0 {
      FindAllSkips(post, "");
      assert post + "" == post;
      assert Bracketed(vals, left, right) + post == post;
    } else {
      var g := Padded(vals[0], left[0], right[0]);
      var tail := Bracketed(vals[1..], left[1..], right[1..]) + post;
      PaddedHasNoBracket(vals[0], left[0], right[0]);
      BracketedCons(vals, left, right, post);
      FindAllGroup(g, tail);
      BracketedGroups(vals[1..], left[1..], right[1..], post);
    }
  }

  lemma BracketedCons(vals: seq<int>, left: seq<nat>, right: seq<nat>, post: string)
    requires |left| == |vals| && |right| == |vals| && |vals| > 0
    ensures Bracketed(vals, left, right) + post
      == "[" + Padded(vals[0], left[0], right[0]) + "]" + (Bracketed(vals[1..], left[1..], right[1..]) + post)
  {
  }

  /** A numeral is a minus sign and digits, ending in a digit. */
  lemma NumeralShape(v: int)
    ensures forall i :: 0 <= i < |IntToString(v)| ==> IntToString(v)[i] == '-' || IsDigit(IntToString(v)[i])
    ensures IsDigit(IntToString(v)[|IntToString(v)| - 1])
  {
    var n := IntToString(v);
    if v < 0 {
      var m := NatToString(-v);
      assert n == "-" + m;
      assert forall i :: 1 <= i < |n| ==> n[i] == m[i - 1];
      assert n[|n| - 1] == m[|m| - 1];
    }
  }

  /** A padded numeral is not empty and has no ']'. */
  lemma PaddedHasNoBracket(v: int, left: nat, right: nat)
    ensures |Padded(v, left, right)| > 0 && ']' !in Padded(v, left, right)
  {
    NumeralShape(v);
    assert ']' !in IntToString(v);
    assert ']' !in Spaces(left) && ']' !in Spaces(right);
  }

  /** A padded numeral reads back as the reading. */
  lemma PaddedReads(v: int, left: nat, right: nat)
    ensures GroupValue(Padded(v, left, right)) == Some(v)
  {
    var n := IntToString(v);
    NumeralShape(v);
    StripSurrounded(Spaces(left), n, Spaces(right));
    ParseIntOfNumeral(v);
  }

  /**
   * Round trip: 8 readings written in brackets, padded with spaces on either
   * side, after any text without '[' and before any text without '[', parse
   * back to the same readings.
   */
  lemma ParseBracketed(pre: string, vals: seq<int>, left: seq<nat>, right: seq<nat>, post: string)
    requires |vals| == Readings && |left| == Readings && |right| == Readings
    requires '[' !in pre && '[' !in post
    ensures ParseEmgLine(pre + Bracketed(vals, left, right) + post) == Some(vals)
  {
    GroupsOfBracketed(pre, vals, left, right, post);
    ParsePadded(vals, left, right);
  }

  /** The groups found in bracketed readings between bracket-free texts are the padded numerals. */
  lemma GroupsOfBracketed(pre: string, vals: seq<int>, left: seq<nat>, right: seq<nat>, post: string)
    requires |left| == |vals| && |right| == |vals|
    requires '[' !in pre && '[' !in post
    ensures FindAll(pre + Bracketed(vals, left, right) + post) == PaddedAll(vals, left, right)
  {
    var text := Bracketed(vals, left, right);
    AppendAssoc(pre, text, post);
    FindAllSkips(pre, text + post);
    BracketedGroups(vals, left, right, post);
  }

  /** Padded numerals read back as their readings. */
  lemma ParsePadded(vals: seq<int>, left: seq<nat>, right: seq<nat>)
    requires |left| == |vals| && |right| == |vals|
    ensures ParseGroups(PaddedAll(vals, left, right)) == Some(vals)
  {
    var groups := PaddedAll(vals, left, right);
    PaddedAllIndex(vals, left, right);
    forall k | 0 <= k < |vals| ensures GroupValue(groups[k]) == Some(vals[k]) {
      PaddedReads(vals[k], left[k], right[k]);
    }
    var r := ParseGroups(groups);
    assert r.value == vals;
  }
}
