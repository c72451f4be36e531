// The live plotter of myo/samples/emg_visualizer.py: its reader thread turns
// every console line of the recorder that parses as 8 readings into a CSV row
// and one entry of nine bounded histories (the elapsed times and one per
// channel) that the plot draws from. The child process, the clock, the lock
// and matplotlib are not modelled: the lines read, whether the process had
// exited and the clock reading in milliseconds are given for every read.

module EmgVisualizer {
  import opened Wrappers
  import opened Text
  import opened EmgLine
  import opened BoundedDeque
  import RunEmgLogger

  const Channels: nat := 8
  /** `deque(maxlen=1000)`: the plot keeps the newest 1000 samples. */
  const MaxLen: nat := 1000

  /** `int(x)` on a float: truncation toward zero. */
  function Trunc(x: real): (n: int)
    ensures x >= 0.0 ==> n as real <= x < n as real + 1.0
    ensures x < 0.0 ==> n as real - 1.0 < x <= n as real
  {
    if x >= 0.0 then x.Floor else -((-x).Floor)
  }

  /** What one read of the child's output was: the line (`""` at end of output), whether the process had exited, and the elapsed milliseconds. */
  datatype Read = Read(line: string, exited: bool, elapsedMs: real)

  /** A parsed sample: the elapsed milliseconds (a float) and the 8 readings. */
  datatype Sample = Sample(elapsedMs: real, values: seq<int>)

  /** The loop ends at an empty read once the process has exited. */
  predicate Ends(r: Read)
  {
    r.line == "" && r.exited
  }

  /** What one read contributes: its sample when the line is not empty and parses. */
  function SampleOf(r: Read): (here: seq<Sample>)
    ensures |here| <= 1
    ensures |here| == 1 <==> r.line != "" && ParseEmgLine(r.line).Some?
    ensures |here| == 1 ==> here[0] == Sample(r.elapsedMs, ParseEmgLine(r.line).value) && |here[0].values| == Channels
  {
    if r.line == "" then [] else
      match ParseEmgLine(r.line)
      case Some(values) => [Sample(r.elapsedMs, values)]
      case None => []
  }

  /** Index of the read that ends the loop, or the number of reads. */
  function EndOf(outputs: seq<Read>): (k: nat)
    ensures k <= |outputs| && (k < |outputs| ==> Ends(outputs[k]))
    ensures forall i :: 0 <= i < k ==> !Ends(outputs[i])
    decreases |outputs|
  {
    if |outputs| == 0 || Ends(outputs[0]) then 0 else 1 + EndOf(outputs[1..])
  }

  /** The samples parsed from the first `n` reads, in order. */
  function ParsedUpTo(outputs: seq<Read>, n: nat): (r: seq<Sample>)
    requires n <= |outputs|
    ensures forall k :: 0 <= k < |r| ==> |r[k].values| == Channels
  {
    forall s | s in RunEmgLogger.Gathered(outputs, SampleOf, n) ensures |s.values| == Channels {
      var k := RunEmgLogger.GatheredSource(outputs, SampleOf, n, s);
    }
    RunEmgLogger.Gathered(outputs, SampleOf, n)
  }

  /** The samples parsed before the end of output. */
  function ParsedSamples(outputs: seq<Read>): (r: seq<Sample>)
    ensures forall k :: 0 <= k < |r| ==> |r[k].values| == Channels
  {
    ParsedUpTo(outputs, EndOf(outputs))
  }

  /** The CSV row of a sample: the elapsed milliseconds truncated to an integer, then the readings. */
  function RowOf(s: Sample): seq<int>
  {
    [Trunc(s.elapsedMs)] + s.values
  }

  function RowsOf(samples: seq<Sample>): (rows: seq<seq<int>>)
    ensures |rows| == |samples| && forall k :: 0 <= k < |samples| ==> rows[k] == RowOf(samples[k])
  {
    seq(|samples|, k requires 0 <= k < |samples| => RowOf(samples[k]))
  }

  /** The elapsed times of `samples`, in order. */
  function Times(samples: seq<Sample>): (t: seq<real>)
    ensures |t| == |samples| && forall k :: 0 <= k < |samples| ==> t[k] == samples[k].elapsedMs
  {
    seq(|samples|, k requires 0 <= k < |samples| => samples[k].elapsedMs)
  }

  /** Reading `c` of every sample, in order. */
  function Column(samples: seq<Sample>, c: nat): (col: seq<int>)
    requires forall k :: 0 <= k < |samples| ==> c < |samples[k].values|
    ensures |col| == |samples| && forall k :: 0 <= k < |samples| ==> col[k] == samples[k].values[c]
  {
    seq(|samples|, k requires 0 <= k < |samples| => samples[k].values[c])
  }

  lemma SamplesSnoc(samples: seq<Sample>, s: Sample)
    requires forall k :: 0 <= k < |samples| ==> |samples[k].values| == Channels
    requires |s.values| == Channels
    ensures RowsOf(samples + [s]) == RowsOf(samples) + [RowOf(s)]
    ensures Times(samples + [s]) == Times(samples) + [s.elapsedMs]
    ensures forall c :: 0 <= c < Channels ==> Column(samples + [s], c) == Column(samples, c) + [s.values[c]]
  {
  }

  /** Each history holds its component of the newest `MaxLen` samples, and the counter counts them all. */
  ghost predicate Tracks(timestamps: seq<real>, channelData: seq<seq<int>>, sampleCount: nat, recorded: seq<Sample>)
  {
    |channelData| == Channels
    && (forall k :: 0 <= k < |recorded| ==> |recorded[k].values| == Channels)
    && sampleCount == |recorded|
    && timestamps == LastN(Times(recorded), MaxLen)
    && (forall c :: 0 <= c < Channels ==> channelData[c] == LastN(Column(recorded, c), MaxLen))
  }

  /** Appending one sample to every history, and counting it, keeps the histories tracking the samples. */
  lemma RecordKeepsTracking(timestamps: seq<real>, channelData: seq<seq<int>>, sampleCount: nat, recorded: seq<Sample>,
                            s: Sample, timestamps': seq<real>, channelData': seq<seq<int>>)
    requires Tracks(timestamps, channelData, sampleCount, recorded) && |s.values| == Channels
    requires timestamps' == LastN(timestamps + [s.elapsedMs], MaxLen)
    requires |channelData'| == Channels
    requires forall c :: 0 <= c < Channels ==> channelData'[c] == LastN(channelData[c] + [s.values[c]], MaxLen)
    ensures Tracks(timestamps', channelData', sampleCount + 1, recorded + [s])
  {
    SamplesSnoc(recorded, s);
    LastNAppend(Times(recorded), MaxLen, s.elapsedMs);
    forall c | 0 <= c < Channels
      ensures channelData'[c] == LastN(Column(recorded + [s], c), MaxLen)
    {
      LastNAppend(Column(recorded, c), MaxLen, s.values[c]);
    }
  }

  /**
   * The plotted data: the `timestamps` deque, the 8 `channel_data` deques and
   * `sample_count`, with every sample ever recorded as ghost history.
   */
  class Plot {
    var timestamps: seq<real>
    var channelData: seq<seq<int>>
    var sampleCount: nat
    ghost var recorded: seq<Sample>

    ghost predicate Valid()
      reads this
    {
      Tracks(timestamps, channelData, sampleCount, recorded)
    }

    constructor ()
      ensures Valid()
      ensures timestamps == [] && channelData == seq(Channels, _ => []) && sampleCount == 0 && recorded == []
    {
      timestamps := [];
      channelData := seq(Channels, _ => []);
      sampleCount := 0;
      recorded := [];
    }

    /** The locked block of the reader: append the time, then each reading to its channel's deque, then count. */
    method Record(s: Sample)
      requires Valid() && |s.values| == Channels
      modifies this
      ensures Valid()
      ensures recorded == old(recorded) + [s]
      ensures timestamps == LastN(old(timestamps) + [s.elapsedMs], MaxLen)
      ensures |channelData| == Channels
      ensures forall c :: 0 <= c < Channels ==> channelData[c] == LastN(old(channelData[c]) + [s.values[c]], MaxLen)
      ensures sampleCount == old(sampleCount) + 1
    {
      ghost var before := channelData;
      var times := LastN(timestamps + [s.elapsedMs], MaxLen);
      var data := channelData;
      for channel := 0 to Channels
        invariant |data| == Channels
        invariant forall c :: 0 <= c < channel ==> data[c] == LastN(before[c] + [s.values[c]], MaxLen)
        invariant forall c :: channel <= c < Channels ==> data[c] == before[c]
      {
        data := data[channel := LastN(data[channel] + [s.values[channel]], MaxLen)];
      }
      RecordKeepsTracking(timestamps, channelData, sampleCount, recorded, s, times, data);
      timestamps, channelData := times, data;
      sampleCount := sampleCount + 1;
      recorded := recorded + [s];
    }

    /**
     * One pass of `read_emg_data`'s loop over a read that does not end it: a
     * non-empty line that parses is written as a CSV row (returned as
     * `record`) and recorded for the plot; any other line changes nothing.
     */
    method ReadOne(r: Read) returns (record: string)
      requires Valid()
      modifies this
      ensures Valid()
      ensures recorded == old(recorded) + SampleOf(r)
      ensures record == RunEmgLogger.CsvRows(RowsOf(SampleOf(r)))
    {
      record := "";
      if r.line != "" {
        var values := ParseEmgLine(r.line);
        if values.Some? {
          var s := Sample(r.elapsedMs, values.value);
          var row := [Trunc(r.elapsedMs)] + values.value;
          RunEmgLogger.CsvRowsSnoc([], row);
          assert RowsOf([s]) == [] + [row];
          record := RunEmgLogger.CsvRecord(RunEmgLogger.RowFields(row));
          Record(s);
        }
      }
    }

    /**
     * `read_emg_data`'s loop: each non-empty line that parses is written as a
     * CSV row and recorded for the plot; other lines change nothing. The loop
     * ends at the first empty read after the process has exited. `records`
     * is what the CSV file receives.
     */
    method ReadLoop(outputs: seq<Read>) returns (records: string)
      requires Valid()
      modifies this
      ensures Valid()
      ensures recorded == old(recorded) + ParsedSamples(outputs)
      ensures records == RunEmgLogger.CsvRows(RowsOf(ParsedSamples(outputs)))
    {
      records := "";
      ghost var start := recorded;
      ghost var parsed: seq<Sample> := [];
      var i := 0;
      while i < |outputs|
        invariant i <= EndOf(outputs)
        invariant Valid()
        invariant parsed == ParsedUpTo(outputs, i)
        invariant recorded == start + parsed
        invariant records == RunEmgLogger.CsvRows(RowsOf(parsed))
        decreases |outputs| - i
      {
        var r := outputs[i];
        if r.line == "" && r.exited {
          break;
        }
        ghost var here := SampleOf(r);
        var record := ReadOne(r);
        ParsedStep(outputs, i, start, parsed);
        records := records + record;
        parsed := parsed + here;
        i := i + 1;
      }
      assert i == EndOf(outputs);
    }
  }

  /** One more read: its sample, if any, joins the parsed samples, the recorded ones and the CSV text. */
  lemma ParsedStep(outputs: seq<Read>, i: nat, start: seq<Sample>, parsed: seq<Sample>)
    requires i < |outputs| && parsed == ParsedUpTo(outputs, i)
    ensures ParsedUpTo(outputs, i + 1) == parsed + SampleOf(outputs[i])
    ensures start + (parsed + SampleOf(outputs[i])) == start + parsed + SampleOf(outputs[i])
    ensures RunEmgLogger.CsvRows(RowsOf(parsed + SampleOf(outputs[i])))
         == RunEmgLogger.CsvRows(RowsOf(parsed)) + RunEmgLogger.CsvRows(RowsOf(SampleOf(outputs[i])))
  {
    RowsAppend(parsed, SampleOf(outputs[i]));
    AppendAssoc(start, parsed, SampleOf(outputs[i]));
  }

  /** Appending at most one sample appends its record to the CSV text. */
  lemma RowsAppend(parsed: seq<Sample>, here: seq<Sample>)
    requires |here| <= 1
    ensures RunEmgLogger.CsvRows(RowsOf(parsed + here)) == RunEmgLogger.CsvRows(RowsOf(parsed)) + RunEmgLogger.CsvRows(RowsOf(here))
  {
    if |here| == 0 {
      assert parsed + here == parsed;
    } else {
      assert RowsOf(parsed + here) == RowsOf(parsed) + [RowOf(here[0])];
      assert RowsOf(here) == [] + [RowOf(here[0])];
      RunEmgLogger.CsvRowsSnoc(RowsOf(parsed), RowOf(here[0]));
      RunEmgLogger.CsvRowsSnoc([], RowOf(here[0]));
    }
  }

  /**
   * The histories stay in lockstep: the time deque and all 8 channel deques
   * have the same length, min(sample count, 1000), and entry `k` of each
   * belongs to the same sample, the counter being never capped.
   */
  lemma Lockstep(p: Plot)
    requires p.Valid()
    ensures var n := if p.sampleCount <= MaxLen then p.sampleCount else MaxLen;
      |p.timestamps| == n && forall c :: 0 <= c < Channels ==> |p.channelData[c]| == n
    ensures var newest := LastN(p.recorded, MaxLen);
      forall k :: 0 <= k < |newest| ==>
        p.timestamps[k] == newest[k].elapsedMs
        && forall c :: 0 <= c < Channels ==> p.channelData[c][k] == newest[k].values[c]
  {
    var newest := LastN(p.recorded, MaxLen);
    var off := |p.recorded| - |newest|;
    forall k | 0 <= k < |newest|
      ensures p.timestamps[k] == newest[k].elapsedMs
      ensures forall c :: 0 <= c < Channels ==> p.channelData[c][k] == newest[k].values[c]
    {
      assert newest[k] == p.recorded[off + k];
      forall c | 0 <= c < Channels ensures p.channelData[c][k] == newest[k].values[c] {
        assert p.channelData[c][k] == Column(p.recorded, c)[off + k];
      }
    }
  }
}
