// The terminal receiver of data_transmission/simple_receiver.py: text read
// from the connection is appended to a buffer, every complete line is cut
// off the front of the buffer, and every line that is not blank is decoded
// as JSON, counted and reported. The socket, the console and the
// keyboard interrupt are not modelled; the reads are given as a sequence of
// byte strings and UTF-8 decoding as a function that may fail, an empty read
// being the end of the connection.

module SimpleReceiver {
  import opened Wrappers
  import opened Text
  import opened Framing
  import Json

  /** The three values printed for one sample. */
  datatype Report = Report(sample: Json.Value, timestamp: Json.Value, emg: Json.Value)

  /** The receiver's state between lines: the sample counter, the printed reports, and whether an exception ended the loop. */
  datatype Session = Session(count: nat, reports: seq<Report>, halted: bool)

  const Start: Session := Session(0, [], false)

  /** `dict.get(key, default)`: the bound value (a JSON `null` included), or the default when the key is missing. */
  function Get(members: seq<(string, Json.Value)>, key: string, default: Json.Value): (v: Json.Value)
    ensures (forall i :: 0 <= i < |members| ==> members[i].0 != key) ==> v == default
    ensures (exists i :: 0 <= i < |members| && members[i].0 == key) ==> exists i :: 0 <= i < |members| && members[i] == (key, v)
  {
    match Json.Lookup(members, key)
    case Some(x) => x
    case None => default
  }

  /**
   * The report for a decoded object, once the counter already counts it: a
   * missing `sample` is the zero-based index `count - 1` of the line among the
   * counted ones, a missing `timestamp` is 0 and missing readings are empty.
   */
  function ReportOf(members: seq<(string, Json.Value)>, count: nat): (r: Report)
    requires count >= 1
    ensures Json.Lookup(members, "sample").None? ==> r.sample == Json.Number(NatToString(count - 1))
    ensures Json.Lookup(members, "timestamp").None? ==> r.timestamp == Json.Number("0")
    ensures Json.Lookup(members, "emg").None? ==> r.emg == Json.Array([])
    ensures Json.Lookup(members, "sample").Some? ==> r.sample == Json.Lookup(members, "sample").value
    ensures Json.Lookup(members, "timestamp").Some? ==> r.timestamp == Json.Lookup(members, "timestamp").value
    ensures Json.Lookup(members, "emg").Some? ==> r.emg == Json.Lookup(members, "emg").value
  {
    Report(Get(members, "sample", Json.Number(NatToString(count - 1))),
           Get(members, "timestamp", Json.Number("0")),
           Get(members, "emg", Json.Array([])))
  }

  /**
   * One complete line. A blank line is skipped; a decode error is reported
   * and skipped; a decoded line is counted first, then a value that is not an
   * object (it has no `get`) or a report that cannot be formatted raises an
   * exception that ends the receive loop. Nothing happens after the loop has
   * ended.
   */
  function Step(st: Session, line: string, decode: string -> Json.Decoded, formats: Report -> bool): (next: Session)
    ensures st.halted ==> next == st
    ensures !st.halted && Strip(line) == "" ==> next == st
    ensures !st.halted && Strip(line) != "" && decode(line).Malformed? ==> next == st
    ensures !st.halted && Strip(line) != "" && decode(line).Parsed? ==> next.count == st.count + 1
    ensures |st.reports| <= |next.reports| <= |st.reports| + 1 && next.reports[..|st.reports|] == st.reports
    ensures |next.reports| == |st.reports| + 1 <==>
              !st.halted && Strip(line) != "" && decode(line).Parsed? && decode(line).value.Object?
              && formats(ReportOf(decode(line).value.members, st.count + 1))
    ensures |next.reports| == |st.reports| + 1 ==>
              !next.halted && next.reports[|st.reports|] == ReportOf(decode(line).value.members, next.count)
    ensures next.halted != st.halted <==>
              !st.halted && Strip(line) != "" && decode(line).Parsed?
              && (!decode(line).value.Object? || !formats(ReportOf(decode(line).value.members, st.count + 1)))
  {
    if st.halted || Strip(line) == "" then st
    else match decode(line)
      case Malformed => st
      case Parsed(v) =>
        var count := st.count + 1;
        if !v.Object? then Session(count, st.reports, true)
        else
          var report := ReportOf(v.members, count);
          if formats(report) then Session(count, st.reports + [report], false)
          else Session(count, st.reports, true)
  }

  /** The state after the given complete lines, in order. */
  function Handle(lines: seq<string>, st: Session, decode: string -> Json.Decoded, formats: Report -> bool): Session
    decreases |lines|
  {
    if |lines| == 0 then st else Handle(lines[1..], Step(st, lines[0], decode, formats), decode, formats)
  }

  lemma {:induction false} HandleAppend(a: seq<string>, b: seq<string>, st: Session, decode: string -> Json.Decoded, formats: Report -> bool)
    ensures Handle(a + b, st, decode, formats) == Handle(b, Handle(a, st, decode, formats), decode, formats)
    decreases |a|
  {
    if |a| == 0 {
      assert a + b == b;
    } else {
      assert (a + b)[1..] == a[1..] + b;
      HandleAppend(a[1..], b, Step(st, a[0], decode, formats), decode, formats);
    }
  }

  /** Once an exception has ended the loop, no further line changes anything. */
  lemma {:induction false} HaltedStays(lines: seq<string>, st: Session, decode: string -> Json.Decoded, formats: Report -> bool)
    requires st.halted
    ensures Handle(lines, st, decode, formats) == st
    decreases |lines|
  {
    if |lines| > 0 {
      HaltedStays(lines[1..], st, decode, formats);
    }
  }

  /** A line is counted when it is not blank and it decodes. */
  predicate Counted(line: string, decode: string -> Json.Decoded)
  {
    Strip(line) != "" && decode(line).Parsed?
  }

  /** How many of `lines` are counted. */
  function CountedLines(lines: seq<string>, decode: string -> Json.Decoded): (n: nat)
    ensures n <= |lines|
    decreases |lines|
  {
    if |lines| == 0 then 0
    else (if Counted(lines[0], decode) then 1 else 0) + CountedLines(lines[1..], decode)
  }

  /**
   * While no exception has ended the loop, the counter grows by exactly the
   * number of non-blank lines that decode, and never falls behind the reports.
   */
  lemma {:induction false} CountIsDecodedLines(lines: seq<string>, st: Session, decode: string -> Json.Decoded, formats: Report -> bool)
    requires !st.halted && |st.reports| <= st.count
    ensures var end := Handle(lines, st, decode, formats);
            !end.halted ==> end.count == st.count + CountedLines(lines, decode)
    ensures var end := Handle(lines, st, decode, formats);
            |end.reports| <= end.count
    decreases |lines|
  {
    if |lines| > 0 {
      var next := Step(st, lines[0], decode, formats);
      if next.halted {
        HaltedStays(lines[1..], next, decode, formats);
      } else {
        CountIsDecodedLines(lines[1..], next, decode, formats);
      }
    }
  }

  /** Text that follows a halt is never looked at: the session only depends on the text up to the halt. */
  lemma HaltIgnoresLaterText(s: string, t: string, st: Session, decode: string -> Json.Decoded, formats: Report -> bool)
    requires Handle(Complete(s), st, decode, formats).halted
    ensures Handle(Complete(s + t), st, decode, formats) == Handle(Complete(s), st, decode, formats)
  {
    FramingSplits(s, t);
    HandleAppend(Complete(s), Complete(Rest(s) + t), st, decode, formats);
    HaltedStays(Complete(Rest(s) + t), Handle(Complete(s), st, decode, formats), decode, formats);
  }

  /**
   * The inner loop of `main`: while the buffer holds a '\n', its first line
   * is cut off and handled. Unless an exception ends the loop, the buffer
   * keeps only the text after its last '\n'.
   */
  method CutLines(buffer: string, before: Session, decode: string -> Json.Decoded, formats: Report -> bool)
    returns (rest: string, after: Session)
    requires !before.halted
    ensures after == Handle(Complete(buffer), before, decode, formats)
    ensures !after.halted ==> rest == Rest(buffer)
  {
    rest, after := buffer, before;
    ghost var done: seq<string> := [];
    var cut := IndexOf(rest, Newline);
    while cut.Some?
      invariant cut == IndexOf(rest, Newline)
      invariant NoSep(done, Newline) && buffer == Terminated(done) + rest
      invariant after == Handle(done, before, decode, formats) && !after.halted
      decreases |rest|
    {
      var line := rest[..cut.value];
      SplitAround(rest, cut.value);
      rest := rest[cut.value + 1..];
      CutLine(buffer, done, line, rest);
      HandleAppend(done, [line], before, decode, formats);
      done := done + [line];
      after := Step(after, line, decode, formats);
      if after.halted {
        HaltInsideBuffer(buffer, done, rest, before, decode, formats);
        return;
      }
      cut := IndexOf(rest, Newline);
    }
    FramingUnique(done, rest);
  }

  /** A halt on one of the lines cut off so far is the outcome of the whole buffer. */
  lemma HaltInsideBuffer(buffer: string, done: seq<string>, rest: string, before: Session, decode: string -> Json.Decoded, formats: Report -> bool)
    requires NoSep(done, Newline) && buffer == Terminated(done) + rest
    requires Handle(done, before, decode, formats).halted
    ensures Handle(Complete(buffer), before, decode, formats) == Handle(done, before, decode, formats)
  {
    var more, last := Complete(rest), Rest(rest);
    FramingConserves(rest);
    TerminatedAppend(done, more);
    AppendAssoc(Terminated(done), Terminated(more), last);
    NoSepAppend(done, more);
    FramingUnique(done + more, last);
    HandleAppend(done, more, before, decode, formats);
    HaltedStays(more, Handle(done, before, decode, formats), decode, formats);
  }

  /**
   * The reads decoded one by one, up to the first read that is not valid
   * UTF-8: `decode('utf-8')` raises there, which ends the receive loop.
   */
  function Texts(incoming: seq<seq<Byte>>, utf8: seq<Byte> -> Option<string>): (texts: seq<string>)
    ensures |texts| <= |incoming|
    ensures forall i :: 0 <= i < |texts| ==> utf8(incoming[i]) == Some(texts[i])
    ensures |texts| < |incoming| ==> utf8(incoming[|texts|]).None?
    decreases |incoming|
  {
    if |incoming| == 0 then []
    else match utf8(incoming[0])
      case None => []
      case Some(t) => [t] + Texts(incoming[1..], utf8)
  }

  /**
   * The receive loop of `main`. Each read is decoded and appended to the
   * buffer, and the complete lines are cut off it. An empty read ends the
   * loop (`closed`); so does an exception (`halted`), raised either by a read
   * that does not decode or by a line. `consumed` is the number of reads
   * whose text reached the buffer.
   */
  method Receive(incoming: seq<seq<Byte>>, utf8: seq<Byte> -> Option<string>, decode: string -> Json.Decoded, formats: Report -> bool)
    returns (buffer: string, count: nat, reports: seq<Report>, halted: bool, closed: bool, consumed: nat)
    ensures consumed <= FirstEmpty(Texts(incoming, utf8))
    ensures var h := Handle(Complete(Concat(Texts(incoming, utf8)[..consumed])), Start, decode, formats);
            count == h.count && reports == h.reports
    ensures var h := Handle(Complete(Concat(Texts(incoming, utf8)[..consumed])), Start, decode, formats);
            halted <==> h.halted || consumed == |Texts(incoming, utf8)| < |incoming|
    ensures var h := Handle(Complete(Concat(Texts(incoming, utf8)[..consumed])), Start, decode, formats);
            !h.halted ==> consumed == FirstEmpty(Texts(incoming, utf8)) && buffer == Rest(Concat(Texts(incoming, utf8)[..consumed]))
    ensures closed <==> !halted && consumed < |incoming|
  {
    buffer, halted, closed, consumed := "", false, false, 0;
    ghost var texts := Texts(incoming, utf8);
    var st := Start;
    FramingUnique([], "");
    while consumed < |incoming|
      invariant consumed <= FirstEmpty(texts) && !st.halted && !halted && !closed
      invariant st == Handle(Complete(Concat(texts[..consumed])), Start, decode, formats)
      invariant buffer == Rest(Concat(texts[..consumed]))
      decreases |incoming| - consumed
    {
      var text := utf8(incoming[consumed]);
      assert consumed < |texts| ==> text == Some(texts[consumed]);
      if text.None? {
        halted := true;
        break;
      }
      var data := text.value;
      assert consumed < |texts| && data == texts[consumed];
      if data == "" {
        closed := true;
        break;
      }
      assert consumed < FirstEmpty(texts);
      SplitLines(Concat(texts[..consumed]), data, Start, decode, formats);
      buffer, st := CutLines(buffer + data, st, decode, formats);
      ConcatSnoc(texts[..consumed], data);
      TakeSnoc(texts, consumed);
      consumed := consumed + 1;
      if st.halted {
        break;
      }
    }
    count, reports, halted := st.count, st.reports, halted || st.halted;
  }

  /** The lines of the text so far followed by a new read: the old complete lines, then the lines of old rest plus the read. */
  lemma SplitLines(text: string, data: string, st: Session, decode: string -> Json.Decoded, formats: Report -> bool)
    ensures Complete(text + data) == Complete(text) + Complete(Rest(text) + data)
    ensures Rest(text + data) == Rest(Rest(text) + data)
    ensures Handle(Complete(text + data), st, decode, formats)
         == Handle(Complete(Rest(text) + data), Handle(Complete(text), st, decode, formats), decode, formats)
  {
    FramingSplits(text, data);
    HandleAppend(Complete(text), Complete(Rest(text) + data), st, decode, formats);
  }

  /** Cutting the first line off the buffer keeps the stream: the line gets its terminator back. */
  lemma CutLine(stream: string, done: seq<string>, line: string, rest: string)
    requires NoSep(done, Newline)
    requires stream == Terminated(done) + (line + [Newline] + rest)
    requires Newline !in line
    ensures NoSep(done + [line], Newline)
    ensures stream == Terminated(done + [line]) + rest
  {
    NoSepAppend(done, [line]);
    TerminatedAppend(done, [line]);
    assert Terminated([line]) == line + [Newline] + Terminated([]);
  }

  lemma NoSepAppend(a: seq<string>, b: seq<string>)
    requires NoSep(a, Newline) && NoSep(b, Newline)
    ensures NoSep(a + b, Newline)
  {
    forall k | 0 <= k < |a + b| ensures Newline !in (a + b)[k] {
      if k < |a| { assert (a + b)[k] == a[k]; } else { assert (a + b)[k] == b[k - |a|]; }
    }
  }
}
