// Newline framing of a character stream: every complete line ends in '\n',
// and whatever follows the last '\n' is carried over until more text arrives.
// Both receivers of the pipeline (the Unity TCP reader and the Python
// terminal receiver) frame their input this way; the laws are proved here
// once and used by both.

module Framing {
  import opened Text

  const Newline: char := '\n'

  /** The complete lines of `s`: every piece that a '\n' terminates. */
  function Complete(s: string): (lines: seq<string>)
    ensures NoSep(lines, Newline)
  {
    SplitPiecesHaveNoSep(s, Newline);
    var pieces := Split(s, Newline);
    pieces[..|pieces| - 1]
  }

  /** The text after the last '\n' of `s` (all of `s` when it has none). */
  function Rest(s: string): (rest: string)
    ensures Newline !in rest
  {
    SplitPiecesHaveNoSep(s, Newline);
    var pieces := Split(s, Newline);
    pieces[|pieces| - 1]
  }

  /** Each line followed by its '\n', one after another. */
  function Terminated(lines: seq<string>): string
  {
    if |lines| == 0 then "" else lines[0] + [Newline] + Terminated(lines[1..])
  }

  lemma {:induction false} TerminatedAppend(a: seq<string>, b: seq<string>)
    ensures Terminated(a + b) == Terminated(a) + Terminated(b)
    decreases |a|
  {
    if |a| > 0 {
      assert (a + b)[1..] == a[1..] + b;
      TerminatedAppend(a[1..], b);
    } else {
      assert a + b == b;
    }
  }

  /** A piece without a separator is split into itself alone. */
  lemma {:induction false} SplitWithoutSep(s: string, sep: char)
    requires sep !in s
    ensures Split(s, sep) == [s]
    decreases |s|
  {
    if |s| > 0 {
      assert sep !in s[1..] by {
        forall k | 0 <= k < |s[1..]| ensures s[1..][k] != sep { assert s[1..][k] == s[k + 1]; }
      }
      SplitWithoutSep(s[1..], sep);
      assert [s[0]] + s[1..] == s;
    }
  }

  /** Splitting a separator-free piece followed by the separator peels off that piece. */
  lemma {:induction false} SplitPeel(x: string, sep: char, y: string)
    requires sep !in x
    ensures Split(x + [sep] + y, sep) == [x] + Split(y, sep)
    decreases |x|
  {
    if |x| == 0 {
      assert x + [sep] + y == [sep] + y;
      assert ([sep] + y)[1..] == y;
    } else {
      var s := x + [sep] + y;
      assert s[0] == x[0] && x[0] != sep;
      assert s[1..] == x[1..] + [sep] + y;
      assert sep !in x[1..] by {
        forall k | 0 <= k < |x[1..]| ensures x[1..][k] != sep { assert x[1..][k] == x[k + 1]; }
      }
      SplitPeel(x[1..], sep, y);
      assert [x[0]] + x[1..] == x;
    }
  }

  /**
   * Framing is the unique decomposition into '\n'-free terminated lines and a
   * '\n'-free rest: whatever stream is built that way frames back to the same
   * lines and rest.
   */
  lemma {:induction false} FramingUnique(lines: seq<string>, rest: string)
    requires NoSep(lines, Newline) && Newline !in rest
    ensures Complete(Terminated(lines) + rest) == lines
    ensures Rest(Terminated(lines) + rest) == rest
    decreases |lines|
  {
    var s := Terminated(lines) + rest;
    if |lines| == 0 {
      assert s == rest;
      SplitWithoutSep(rest, Newline);
    } else {
      var tail := Terminated(lines[1..]) + rest;
      assert s == lines[0] + [Newline] + tail;
      assert NoSep(lines[1..], Newline) by {
        forall k | 0 <= k < |lines[1..]| ensures Newline !in lines[1..][k] { assert lines[1..][k] == lines[k + 1]; }
      }
      assert Newline !in lines[0];
      SplitPeel(lines[0], Newline, tail);
      FramingUnique(lines[1..], rest);
      var pieces := Split(tail, Newline);
      assert Split(s, Newline) == [lines[0]] + pieces;
      assert ([lines[0]] + pieces)[..|pieces|] == [lines[0]] + pieces[..|pieces| - 1];
      assert [lines[0]] + lines[1..] == lines;
    }
  }

  /** Conservation: the terminated complete lines followed by the rest are the stream itself. */
  lemma {:induction false} FramingConserves(s: string)
    ensures Terminated(Complete(s)) + Rest(s) == s
    decreases |s|
  {
    var pieces := Split(s, Newline);
    JoinSplit(s, Newline);
    JoinIsTerminated(pieces);
    assert pieces == pieces[..|pieces| - 1] + [pieces[|pieces| - 1]];
  }

  lemma {:induction false} JoinIsTerminated(parts: seq<string>)
    requires |parts| >= 1
    ensures Join(parts, Newline) == Terminated(parts[..|parts| - 1]) + parts[|parts| - 1]
    decreases |parts|
  {
    if |parts| > 1 {
      JoinIsTerminated(parts[1..]);
      assert parts[..|parts| - 1][1..] == parts[1..][..|parts[1..]| - 1];
    } else {
      assert parts[..0] == [];
    }
  }

  /**
   * Chunk-boundary independence: framing `a + b` gives the complete lines of
   * `a` and then the complete lines of `a`'s rest followed by `b`, and the
   * same final rest.
   */
  lemma FramingSplits(a: string, b: string)
    ensures Complete(a + b) == Complete(a) + Complete(Rest(a) + b)
    ensures Rest(a + b) == Rest(Rest(a) + b)
  {
    var la, ra := Complete(a), Rest(a);
    var lb, rb := Complete(ra + b), Rest(ra + b);
    FramingConserves(a);
    FramingConserves(ra + b);
    TerminatedAppend(la, lb);
    AppendAssoc(Terminated(la), ra, b);
    AppendAssoc(Terminated(la), Terminated(lb), rb);
    NoSepAppend(la, lb);
    FramingUnique(la + lb, rb);
  }

  /** Lines free of the separator stay free of it when joined into one list. */
  lemma NoSepAppend(x: seq<string>, y: seq<string>)
    requires NoSep(x, Newline) && NoSep(y, Newline)
    ensures NoSep(x + y, Newline)
  {
    forall k | 0 <= k < |x + y| ensures Newline !in (x + y)[k] {
      if k < |x| { assert (x + y)[k] == x[k]; } else { assert (x + y)[k] == y[k - |x|]; }
    }
  }

  /** Concatenation of chunks. */
  function Concat(chunks: seq<string>): string
  {
    if |chunks| == 0 then "" else chunks[0] + Concat(chunks[1..])
  }

  lemma {:induction false} ConcatSnoc(chunks: seq<string>, c: string)
    ensures Concat(chunks + [c]) == Concat(chunks) + c
    decreases |chunks|
  {
    if |chunks| > 0 {
      assert (chunks + [c])[1..] == chunks[1..] + [c];
      ConcatSnoc(chunks[1..], c);
    } else {
      assert chunks + [c] == [c];
    }
  }

  /** A byte received from a socket. */
  newtype Byte = b: int | 0 <= b < 256

  /** Each read decoded to text on its own, by a decoder that never fails. */
  function DecodeEach(incoming: seq<seq<Byte>>, utf8: seq<Byte> -> string): (r: seq<string>)
    ensures |r| == |incoming| && forall i :: 0 <= i < |incoming| ==> r[i] == utf8(incoming[i])
  {
    seq(|incoming|, i requires 0 <= i < |incoming| => utf8(incoming[i]))
  }

  /** Index of the first empty read (the peer closed the stream), or the number of reads. */
  function FirstEmpty<T>(chunks: seq<seq<T>>): (k: nat)
    ensures k <= |chunks|
    ensures forall i :: 0 <= i < k ==> |chunks[i]| > 0
    ensures k < |chunks| ==> |chunks[k]| == 0
    decreases |chunks|
  {
    if |chunks| == 0 then 0
    else if |chunks[0]| == 0 then 0
    else 1 + FirstEmpty(chunks[1..])
  }

  /** The lines and carried-over rest produced by feeding `chunks` one at a time after `rest`. */
  function Feed(rest: string, chunks: seq<string>): (seq<string>, string)
    decreases |chunks|
  {
    if |chunks| == 0 then ([], rest)
    else
      var next := Feed(Rest(rest + chunks[0]), chunks[1..]);
      (Complete(rest + chunks[0]) + next.0, next.1)
  }

  /** Feeding chunk by chunk frames exactly as framing the whole concatenated stream. */
  lemma {:induction false} FeedFramesConcat(rest: string, chunks: seq<string>)
    requires Newline !in rest
    ensures Feed(rest, chunks) == (Complete(rest + Concat(chunks)), Rest(rest + Concat(chunks)))
    decreases |chunks|
  {
    if |chunks| == 0 {
      FramingUnique([], rest);
      assert Terminated([]) + rest == rest;
      assert Concat(chunks) == "";
      assert rest + Concat(chunks) == rest;
    } else {
      var c := chunks[0];
      var r := Rest(rest + c);
      FeedFramesConcat(r, chunks[1..]);
      FramingSplits(rest + c, Concat(chunks[1..]));
      assert Rest(rest + c) + Concat(chunks[1..]) == r + Concat(chunks[1..]);
      assert rest + Concat(chunks) == (rest + c) + Concat(chunks[1..]);
    }
  }
}
