/**
 * The Python inference server of `ML/emg-to-pytorch.py`: a listener that turns
 * JSON lines into samples of a bounded history, a worker that copies the newest
 * window once enough samples are present, and the placeholder classifier.
 * The two threads run here one after the other over given inputs; the socket,
 * the lock, the stop event and the clock are not modelled.
 */
module InferenceServer {
  import opened Wrappers
  import Json
  import Text
  import opened BoundedDeque

  const BufferSize: nat := 1024
  const InferenceWindow: nat := 256
  const Channels: nat := 8

  /** One buffered sample `(timestamp, emg)`, both exactly as `json.loads` produced them. */
  datatype Sample = Sample(timestamp: Json.Value, emg: Json.Value)

  /** The listener's reaction to one decoded line. */
  datatype LineOutcome = Keep(sample: Sample) | Ignore | Halt

  /** `data.get(key)` followed by `is not None`: a missing key and a JSON `null` are both absent. */
  function Field(members: seq<(string, Json.Value)>, key: string): Json.Value
  {
    match Json.Lookup(members, key)
    case Some(v) => v
    case None => Json.Null
  }

  /**
   * One pass of the listener's `try` block. A decode error is reported and
   * ignored; a value that is not an object has no `get` method, and the
   * resulting exception ends the listener.
   */
  function Classify(d: Json.Decoded): (o: LineOutcome)
    ensures o.Halt? <==> d.Parsed? && !d.value.Object?
    ensures o.Keep? ==>
              (d.Parsed? && d.value.Object?
               && o.sample.timestamp != Json.Null && o.sample.emg != Json.Null
               && Json.Lookup(d.value.members, "timestamp") == Some(o.sample.timestamp)
               && Json.Lookup(d.value.members, "emg") == Some(o.sample.emg))
    ensures o.Ignore? ==>
              (d.Malformed? || (d.value.Object? &&
                (Field(d.value.members, "timestamp") == Json.Null || Field(d.value.members, "emg") == Json.Null)))
  {
    match d
    case Malformed => Ignore
    case Parsed(v) =>
      if !v.Object? then Halt
      else
        var t := Field(v.members, "timestamp");
        var e := Field(v.members, "emg");
        if t != Json.Null && e != Json.Null then Keep(Sample(t, e)) else Ignore
  }

  /** What the listener did with a sequence of `readline` results. */
  datatype Listening = Listening(accepted: seq<Sample>, consumed: nat, stopped: bool)

  /**
   * The listener loop as a fold: `""` is end of stream, after which the loop
   * breaks; running out of lines means the listener is still waiting.
   */
  function Listened(lines: seq<string>, decode: string -> Json.Decoded): Listening
    decreases |lines|
  {
    if |lines| == 0 then Listening([], 0, false)
    else if lines[0] == "" then Listening([], 1, true)
    else
      match Classify(decode(lines[0]))
      case Halt => Listening([], 1, true)
      case Ignore =>
        var r := Listened(lines[1..], decode);
        r.(consumed := r.consumed + 1)
      case Keep(s) =>
        var r := Listened(lines[1..], decode);
        r.(accepted := [s] + r.accepted, consumed := r.consumed + 1)
  }

  /** The samples of the non-empty lines the listener keeps, in order (a filter over all the lines). */
  function KeptSamples(lines: seq<string>, decode: string -> Json.Decoded): seq<Sample>
    decreases |lines|
  {
    if |lines| == 0 then []
    else
      var rest := KeptSamples(lines[1..], decode);
      if lines[0] == "" then rest
      else match Classify(decode(lines[0]))
        case Keep(s) => [s] + rest
        case _ => rest
  }

  /** A line that ends the listener: end of stream, or a value that is not an object. */
  predicate Ends(line: string, decode: string -> Json.Decoded)
  {
    line == "" || Classify(decode(line)).Halt?
  }

  /**
   * The listener reads up to and including the first line that ends it, keeps
   * exactly the samples of the lines read, and stops only on such a line.
   */
  lemma {:induction false} ListenedReadsUpToFirstEnd(lines: seq<string>, decode: string -> Json.Decoded)
    ensures var r := Listened(lines, decode);
      r.consumed <= |lines|
      && r.accepted == KeptSamples(lines[..r.consumed], decode)
      && (forall i :: 0 <= i < r.consumed - 1 ==> !Ends(lines[i], decode))
      && (r.stopped <==> r.consumed >= 1 && Ends(lines[r.consumed - 1], decode))
      && (!r.stopped ==> r.consumed == |lines|)
    decreases |lines|
  {
    if |lines| > 0 {
      var r := Listened(lines, decode);
      if lines[0] == "" || Classify(decode(lines[0])).Halt? {
        assert lines[..1] == [lines[0]];
        assert lines[..1][1..] == [];
      } else {
        ListenedReadsUpToFirstEnd(lines[1..], decode);
        var q := Listened(lines[1..], decode);
        assert lines[..r.consumed][1..] == lines[1..][..q.consumed];
        forall i | 0 <= i < r.consumed - 1 ensures !Ends(lines[i], decode) {
          if i > 0 { assert lines[i] == lines[1..][i - 1]; }
        }
        if r.stopped { assert lines[r.consumed - 1] == lines[1..][q.consumed - 1]; }
      }
    }
  }

  /** `data_listener_thread`'s read loop run over `lines`; `stopped` is when it sets the stop event. */
  method Listen(buffer: Deque<Sample>, lines: seq<string>, decode: string -> Json.Decoded)
    returns (consumed: nat, stopped: bool)
    requires buffer.Valid()
    modifies buffer
    ensures buffer.Valid()
    ensures buffer.history == old(buffer.history) + Listened(lines, decode).accepted
    ensures consumed == Listened(lines, decode).consumed
    ensures stopped == Listened(lines, decode).stopped
  {
    ghost var total := Listened(lines, decode);
    ghost var start := buffer.history;
    consumed, stopped := 0, false;
    assert lines[0..] == lines;
    while consumed < |lines| && !stopped
      invariant consumed <= |lines|
      invariant buffer.Valid()
      invariant !stopped ==> Resumes(total, start, buffer.history, consumed, Listened(lines[consumed..], decode))
      invariant stopped ==> buffer.history == start + total.accepted && total.consumed == consumed && total.stopped
      decreases |lines| - consumed, !stopped
    {
      var line := lines[consumed];
      ListenedStep(lines, consumed, decode);
      if line == "" {
        consumed, stopped := consumed + 1, true;
      } else {
        var outcome := Classify(decode(line));
        match outcome {
          case Halt =>
            consumed, stopped := consumed + 1, true;
          case Ignore =>
            consumed := consumed + 1;
          case Keep(s) =>
            ghost var before := buffer.history;
            buffer.Append(s);
            ResumesAfterKeep(total, start, before, consumed, s, Listened(lines[consumed + 1..], decode));
            consumed := consumed + 1;
        }
      }
    }
    if !stopped {
      assert lines[consumed..] == [];
    }
  }

  /** One line of the listener: an ending line stops it, an ignored one is skipped, a kept one is prepended to the rest. */
  lemma ListenedStep(lines: seq<string>, k: nat, decode: string -> Json.Decoded)
    requires k < |lines|
    ensures var here := Listened(lines[k..], decode);
            var next := Listened(lines[k + 1..], decode);
            && (Ends(lines[k], decode) ==> here == Listening([], 1, true))
            && (!Ends(lines[k], decode) && Classify(decode(lines[k])).Ignore? ==>
                  here == next.(consumed := next.consumed + 1))
            && (!Ends(lines[k], decode) && Classify(decode(lines[k])).Keep? ==>
                  here == Listening([Classify(decode(lines[k])).sample] + next.accepted, next.consumed + 1, next.stopped))
  {
    assert lines[k..][0] == lines[k];
    assert lines[k..][1..] == lines[k + 1..];
  }

  /** Keeping a sample moves it from the rest of the run to the history. */
  lemma ResumesAfterKeep(total: Listening, start: seq<Sample>, history: seq<Sample>, consumed: nat, s: Sample, next: Listening)
    requires Resumes(total, start, history, consumed, Listening([s] + next.accepted, next.consumed + 1, next.stopped))
    ensures Resumes(total, start, history + [s], consumed + 1, next)
  {
    Text.AppendAssoc(history, [s], next.accepted);
  }

  /** The whole run `total` is the history so far followed by the run `rest` from line `consumed` on. */
  ghost predicate Resumes(total: Listening, start: seq<Sample>, history: seq<Sample>, consumed: nat, rest: Listening)
  {
    start + total.accepted == history + rest.accepted
    && total.consumed == consumed + rest.consumed
    && total.stopped == rest.stopped
  }

  /**
   * The worker's check and copy: once the buffer holds `InferenceWindow`
   * samples, `list(emg_buffer)[-INFERENCE_WINDOW:]`.
   */
  method Snapshot(buffer: Deque<Sample>) returns (window: Option<seq<Sample>>)
    requires buffer.Valid() && buffer.maxlen == BufferSize
    ensures window.Some? <==> |buffer.history| >= InferenceWindow
    ensures window.Some? ==> window.value == LastN(buffer.history, InferenceWindow)
  {
    var n := |buffer.items|;
    if n >= InferenceWindow {
      window := Some(buffer.items[n - InferenceWindow..]);
    } else {
      window := None;
    }
    LastNLastN(buffer.history, BufferSize, InferenceWindow);
  }

  /** The window the worker copies ends with the newest sample, whose timestamp it reports. */
  lemma SnapshotEndsWithNewest(history: seq<Sample>)
    requires |history| >= InferenceWindow
    ensures |LastN(history, InferenceWindow)| == InferenceWindow
    ensures LastN(history, InferenceWindow)[InferenceWindow - 1] == history[|history| - 1]
  {
  }

  // ----------------------------------------------------------------------
  // placeholder_inference

  datatype Gesture = Flex | Rest

  function PredictionText(g: Gesture): string
  {
    match g
    case Flex => "GESTURE_A (Flex)"
    case Rest => "GESTURE_B (Rest)"
  }

  function Abs(x: int): nat { if x < 0 then -x else x }

  /** Sum of the absolute values of channel `c` over the rows of the window. */
  function SumAbs(window: seq<seq<int>>, c: nat): nat
    requires forall r :: 0 <= r < |window| ==> c < |window[r]|
  {
    if |window| == 0 then 0
    else SumAbs(window[..|window| - 1], c) + Abs(window[|window| - 1][c])
  }

  /** `np.mean(np.abs(window), axis=0)` for a window of integer samples. */
  function MeanAbs(window: seq<seq<int>>): (m: seq<real>)
    requires |window| > 0
    requires forall r :: 0 <= r < |window| ==> |window[r]| == Channels
  {
    seq(Channels, c requires 0 <= c < Channels => SumAbs(window, c) as real / |window| as real)
  }

  /**
   * `placeholder_inference` on a `(rows, 8)` window: the mean absolute value per
   * channel, and "Flex" when channel 0's mean exceeds 10.
   */
  function Infer(window: seq<seq<int>>): (r: (Gesture, seq<real>))
    requires |window| > 0
    requires forall row :: 0 <= row < |window| ==> |window[row]| == Channels
    ensures |r.1| == Channels
    ensures forall c :: 0 <= c < Channels ==> r.1[c] * |window| as real == SumAbs(window, c) as real
    ensures r.0 == Flex <==> SumAbs(window, 0) > 10 * |window|
  {
    var means := MeanAbs(window);
    MeansScaleBack(window);
    MeanAboveTen(SumAbs(window, 0), |window|);
    (if means[0] > 10.0 then Flex else Rest, means)
  }

  /** Each channel's mean times the number of rows is that channel's sum. */
  lemma MeansScaleBack(window: seq<seq<int>>)
    requires |window| > 0
    requires forall row :: 0 <= row < |window| ==> |window[row]| == Channels
    ensures forall c :: 0 <= c < Channels ==> MeanAbs(window)[c] * |window| as real == SumAbs(window, c) as real
  {
    var means := MeanAbs(window);
    forall c | 0 <= c < Channels ensures means[c] * |window| as real == SumAbs(window, c) as real {
      assert means[c] == SumAbs(window, c) as real / |window| as real;
      DivTimes(SumAbs(window, c), |window|);
    }
  }

  lemma DivTimes(sum: nat, n: nat)
    requires n > 0
    ensures (sum as real / n as real) * n as real == sum as real
  {
  }

  lemma MeanAboveTen(sum: nat, n: nat)
    requires n > 0
    ensures sum as real / n as real > 10.0 <==> sum > 10 * n
  {
    var m, k, t := sum as real / n as real, n as real, (10 * n) as real;
    DivTimes(sum, n);
    assert m * k == sum as real;
    assert t == 10.0 * k;
    if m > 10.0 {
      MulMonotone(m, 10.0, k);
      assert sum as real > t;
    } else {
      MulMonotone(10.0, m, k);
      assert sum as real <= t;
    }
  }

  lemma MulMonotone(a: real, b: real, k: real)
    requires k > 0.0
    ensures a > b ==> a * k > b * k
    ensures a >= b ==> a * k >= b * k
  {
  }
}
