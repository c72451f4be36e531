// The console logger of myo/samples/run_emg_logger.py: every console line of
// the recorder that parses as 8 readings becomes one CSV row (the elapsed
// milliseconds, then the readings) and one refresh of the bar display.
// The child process, the clock and the terminal are not modelled: the lines
// read, whether the process had exited and the clock reading in
// milliseconds are given for every read.

module RunEmgLogger {
  import opened Wrappers
  import opened Text
  import opened EmgLine

  const Channels: nat := 8
  /** The display range is -Limit..Limit. */
  const Limit: int := 100
  /** Cells of a bar: one per value in -100..100. */
  const BarWidth: nat := 201
  /** The cell of value 0. */
  const Center: nat := 100

  /** `max(-100, min(100, value))`. */
  function Clamp(v: int): (d: int)
    ensures -Limit <= d <= Limit
    ensures -Limit <= v <= Limit ==> d == v
    ensures v > Limit ==> d == Limit
    ensures v < -Limit ==> d == -Limit
  {
    if v > Limit then Limit else if v < -Limit then -Limit else v
  }

  /**
   * Cell `i` of the bar for `v`: the centre marker, '=' between the clamped
   * value and the centre (the centre excluded, the value's cell included),
   * a space elsewhere.
   */
  function BarCell(v: int, i: nat): char
  {
    var position := Clamp(v) + Center;
    if i == Center then '|'
    else if v < 0 && position <= i < Center then '='
    else if v > 0 && Center < i <= position then '='
    else ' '
  }

  /**
   * The inner `for i in range(201)` loop of `display_emg_data`. The source's
   * fourth branch (`value == 0 and i == center`) can never be taken, since
   * the first branch already covers `i == center`, and is left out.
   */
  method Bar(v: int) returns (bar: string)
    ensures |bar| == BarWidth
    ensures forall i :: 0 <= i < BarWidth ==> bar[i] == BarCell(v, i)
  {
    var position := Clamp(v) + Center;
    bar := "";
    for i := 0 to BarWidth
      invariant |bar| == i
      invariant forall j :: 0 <= j < i ==> bar[j] == BarCell(v, j)
    {
      if i == Center {
        bar := bar + "|";
      } else if v < 0 && i >= position && i < Center {
        bar := bar + "=";
      } else if v > 0 && i > Center && i <= position {
        bar := bar + "=";
      } else {
        bar := bar + " ";
      }
    }
  }

  /** How many of the first `n` cells of the bar for `v` are '='. */
  function FilledCells(v: int, n: nat): nat
  {
    if n == 0 then 0 else FilledCells(v, n - 1) + (if BarCell(v, n - 1) == '=' then 1 else 0)
  }

  /** The number of '=' cells among the first `n` for a negative value: the cells from the value's position up to the centre. */
  lemma {:induction false} FilledNegative(v: int, n: nat)
    requires v < 0 && n <= BarWidth
    ensures FilledCells(v, n) == if n <= Clamp(v) + Center then 0 else if n <= Center then n - (Clamp(v) + Center) else -Clamp(v)
  {
    if n > 0 { FilledNegative(v, n - 1); }
  }

  /** The number of '=' cells among the first `n` for a positive value: the cells after the centre up to the value's position. */
  lemma {:induction false} FilledPositive(v: int, n: nat)
    requires v > 0 && n <= BarWidth
    ensures FilledCells(v, n) == if n <= Center + 1 then 0 else if n <= Clamp(v) + Center + 1 then n - Center - 1 else Clamp(v)
  {
    if n > 0 { FilledPositive(v, n - 1); }
  }

  lemma {:induction false} FilledZero(n: nat)
    requires n <= BarWidth
    ensures FilledCells(0, n) == 0
  {
    if n > 0 { FilledZero(n - 1); }
  }

  /**
   * The bar shows the clamped magnitude: exactly |clamp(v)| cells are '=',
   * on the side of the centre that matches the sign, and the centre cell is
   * always the marker.
   */
  lemma BarShowsMagnitude(v: int)
    ensures FilledCells(v, BarWidth) == if Clamp(v) < 0 then -Clamp(v) else Clamp(v)
    ensures BarCell(v, Center) == '|'
    ensures forall i :: 0 <= i < Center && BarCell(v, i) == '=' ==> v < 0
    ensures forall i :: Center < i < BarWidth && BarCell(v, i) == '=' ==> v > 0
  {
    if v < 0 { FilledNegative(v, BarWidth); }
    else if v > 0 { FilledPositive(v, BarWidth); }
    else { FilledZero(BarWidth); }
  }

  /** The line of channel `c`: its number, the reading right-aligned in 4 columns, and the bar between two rails. */
  function ChannelLine(c: nat, v: int, bar: string): string
  {
    "Ch" + NatToString(c) + ": " + PadLeft(IntToString(v), 4, ' ') + "  " + "|" + bar + "|"
  }

  const ClearScreen: string := "\U{001B}[2J\U{001B}[H"
  const Title: string := "=== EMG Data Live Display (Range: -100 to +100) ==="
  const Scale: string := "        -100        0        +100"

  /** The lines printed above the channels. */
  function ScreenHeader(sampleCount: nat): seq<string>
  {
    [ClearScreen + Title, "Samples recorded: " + NatToString(sampleCount), seq(70, _ => '='), ""]
  }

  /** The lines printed below the channels. */
  const ScreenFooter: seq<string> := ["", Scale]

  /** The bar of `v` as a string. */
  function BarText(v: int): (bar: string)
    ensures |bar| == BarWidth && forall i :: 0 <= i < BarWidth ==> bar[i] == BarCell(v, i)
  {
    seq(BarWidth, i requires 0 <= i < BarWidth => BarCell(v, i))
  }

  /** The 8 channel lines of a screen. */
  function ChannelLines(values: seq<int>): (lines: seq<string>)
    requires |values| == Channels
    ensures |lines| == Channels && forall c :: 0 <= c < Channels ==> lines[c] == ChannelLine(c, values[c], BarText(values[c]))
  {
    seq(Channels, c requires 0 <= c < Channels => ChannelLine(c, values[c], BarText(values[c])))
  }

  /** The screen printed for one sample: the header, the 8 channel lines and the footer. */
  function Screen(values: seq<int>, sampleCount: nat): seq<string>
    requires |values| == Channels
  {
    ScreenHeader(sampleCount) + ChannelLines(values) + ScreenFooter
  }

  /**
   * The screen has 14 lines: the title after the clear sequence, the sample
   * counter, the rule, a blank, one line per channel in channel order, a
   * blank and the scale.
   */
  lemma ScreenLayout(values: seq<int>, sampleCount: nat)
    requires |values| == Channels
    ensures var screen := Screen(values, sampleCount);
      |screen| == 14
      && screen[0] == ClearScreen + Title
      && screen[1] == "Samples recorded: " + NatToString(sampleCount)
      && (forall c :: 0 <= c < Channels ==> screen[4 + c] == ChannelLine(c, values[c], BarText(values[c])))
      && screen[13] == Scale
  {
    var screen := Screen(values, sampleCount);
    forall c | 0 <= c < Channels ensures screen[4 + c] == ChannelLine(c, values[c], BarText(values[c])) {
      assert screen[4 + c] == ChannelLines(values)[c];
    }
  }

  /** `display_emg_data`: the screen printed for one sample, line by line. */
  method Display(values: seq<int>, sampleCount: nat) returns (screen: seq<string>)
    requires |values| == Channels
    ensures screen == Screen(values, sampleCount)
  {
    var lines: seq<string> := [];
    for c := 0 to Channels
      invariant lines == ChannelLines(values)[..c]
    {
      var bar := Bar(values[c]);
      assert bar == BarText(values[c]);
      TakeSnoc(ChannelLines(values), c);
      lines := lines + [ChannelLine(c, values[c], bar)];
    }
    assert lines == ChannelLines(values);
    screen := ScreenHeader(sampleCount) + lines + ScreenFooter;
  }

  // ----------------------------------------------------------------------
  // The CSV file (`csv.writer` with its default dialect).

  /** One CSV record: the fields separated by ',', ended by "\r\n" (an empty row is just "\r\n"). No field here needs quoting. */
  function CsvRecord(fields: seq<string>): string
  {
    (if |fields| == 0 then "" else Join(fields, ',')) + "\r\n"
  }

  const HeaderFields: seq<string> :=
    ["Timestamp_ms", "Channel_0", "Channel_1", "Channel_2", "Channel_3", "Channel_4", "Channel_5", "Channel_6", "Channel_7"]

  /** A row's fields: every integer as `str` writes it. */
  function RowFields(row: seq<int>): (f: seq<string>)
    ensures |f| == |row| && forall k :: 0 <= k < |row| ==> f[k] == IntToString(row[k])
  {
    seq(|row|, k requires 0 <= k < |row| => IntToString(row[k]))
  }

  /** The records of `rows`, one after another. */
  function CsvRows(rows: seq<seq<int>>): string
    decreases |rows|
  {
    if |rows| == 0 then "" else CsvRecord(RowFields(rows[0])) + CsvRows(rows[1..])
  }

  lemma {:induction false} CsvRowsSnoc(rows: seq<seq<int>>, row: seq<int>)
    ensures CsvRows(rows + [row]) == CsvRows(rows) + CsvRecord(RowFields(row))
    decreases |rows|
  {
    if |rows| == 0 {
      assert rows + [row] == [row];
      assert [row][1..] == [];
    } else {
      assert (rows + [row])[1..] == rows[1..] + [row];
      CsvRowsSnoc(rows[1..], row);
    }
  }

  /** What one read of the child's output was: the line (`""` at end of output), whether the process had exited, and the clock in milliseconds. */
  datatype Read = Read(line: string, exited: bool, elapsedMs: int)

  /** The loop ends at an empty read once the process has exited. */
  predicate Ends(r: Read)
  {
    r.line == "" && r.exited
  }

  /** A sample that was logged: the elapsed milliseconds and the 8 readings. */
  datatype Logged = Logged(elapsedMs: int, values: seq<int>)

  /** What one read logs: its sample when the line is not empty and parses. */
  function LoggedBy(r: Read): (here: seq<Logged>)
    ensures |here| <= 1
    ensures |here| == 1 <==> r.line != "" && ParseEmgLine(r.line).Some?
    ensures |here| == 1 ==> here[0] == Logged(r.elapsedMs, ParseEmgLine(r.line).value) && |here[0].values| == Channels
  {
    if r.line == "" then [] else
      match ParseEmgLine(r.line)
      case Some(values) => [Logged(r.elapsedMs, values)]
      case None => []
  }

  /** The samples logged by the first `n` reads, in order. */
  function LoggedUpTo(outputs: seq<Read>, n: nat): (r: seq<Logged>)
    requires n <= |outputs|
    ensures forall k :: 0 <= k < |r| ==> |r[k].values| == Channels
  {
    forall s | s in Gathered(outputs, LoggedBy, n) ensures |s.values| == Channels {
      var k := GatheredSource(outputs, LoggedBy, n, s);
    }
    Gathered(outputs, LoggedBy, n)
  }

  /** What `f` yields for the first `n` elements of `xs`, one element after another. */
  function Gathered<A, B>(xs: seq<A>, f: A -> seq<B>, n: nat): seq<B>
    requires n <= |xs|
    decreases n
  {
    if n == 0 then [] else Gathered(xs, f, n - 1) + f(xs[n - 1])
  }

  lemma {:induction false} GatheredSource<A, B>(xs: seq<A>, f: A -> seq<B>, n: nat, y: B) returns (k: nat)
    requires n <= |xs| && y in Gathered(xs, f, n)
    ensures k < n && y in f(xs[k])
    decreases n
  {
    if y in f(xs[n - 1]) {
      k := n - 1;
    } else {
      k := GatheredSource(xs, f, n - 1, y);
    }
  }

  lemma {:induction false} GatheredHas<A, B>(xs: seq<A>, f: A -> seq<B>, n: nat, k: nat, y: B)
    requires k < n <= |xs| && y in f(xs[k])
    ensures y in Gathered(xs, f, n)
    decreases n
  {
    if k < n - 1 {
      GatheredHas(xs, f, n - 1, k, y);
    }
  }

  /** The samples logged from `outputs`: those of the reads before the end of output. */
  function LoggedSamples(outputs: seq<Read>): (r: seq<Logged>)
    ensures forall k :: 0 <= k < |r| ==> |r[k].values| == Channels
  {
    LoggedUpTo(outputs, EndOf(outputs))
  }

  /** The CSV row of a logged sample: the elapsed milliseconds, then the readings. */
  function RowOf(s: Logged): seq<int>
  {
    [s.elapsedMs] + s.values
  }

  /** The CSV rows of logged samples. */
  function RowsOf(samples: seq<Logged>): (rows: seq<seq<int>>)
    ensures |rows| == |samples| && forall k :: 0 <= k < |samples| ==> rows[k] == RowOf(samples[k])
  {
    seq(|samples|, k requires 0 <= k < |samples| => RowOf(samples[k]))
  }

  /** The readings shown last: zeros before the first sample. */
  function LastValues(samples: seq<Logged>): seq<int>
  {
    if |samples| == 0 then seq(Channels, _ => 0) else samples[|samples| - 1].values
  }

  /** Index of the read that ends the loop, or the number of reads. */
  function EndOf(outputs: seq<Read>): (k: nat)
    ensures k <= |outputs| && (k < |outputs| ==> Ends(outputs[k]))
    ensures forall i :: 0 <= i < k ==> !Ends(outputs[i])
    decreases |outputs|
  {
    if |outputs| == 0 || Ends(outputs[0]) then 0 else 1 + EndOf(outputs[1..])
  }

  /** Read `r` has a non-empty line that parses to the readings of `s`, and `s` carries the read's clock. */
  predicate LoggedFrom(r: Read, s: Logged)
  {
    r.line != "" && ParseEmgLine(r.line) == Some(s.values) && s.elapsedMs == r.elapsedMs
  }

  lemma LoggedByIsLoggedFrom(r: Read, s: Logged)
    ensures s in LoggedBy(r) <==> LoggedFrom(r, s)
  {
    if LoggedFrom(r, s) {
      assert LoggedBy(r) == [s];
    }
  }

  /**
   * A sample is logged by the first `n` reads exactly when one of those reads
   * has a non-empty line that parses to its readings, stamped with that
   * read's clock.
   */
  lemma LoggedAreParsedReads(outputs: seq<Read>, n: nat)
    requires n <= |outputs|
    ensures forall s :: s in LoggedUpTo(outputs, n) <==> exists k :: 0 <= k < n && LoggedFrom(outputs[k], s)
  {
    forall s ensures s in LoggedUpTo(outputs, n) <==> exists k :: 0 <= k < n && LoggedFrom(outputs[k], s) {
      if s in LoggedUpTo(outputs, n) {
        var k := GatheredSource(outputs, LoggedBy, n, s);
        LoggedByIsLoggedFrom(outputs[k], s);
      }
      if exists k :: 0 <= k < n && LoggedFrom(outputs[k], s) {
        var k :| 0 <= k < n && LoggedFrom(outputs[k], s);
        LoggedByIsLoggedFrom(outputs[k], s);
        GatheredHas(outputs, LoggedBy, n, k, s);
      }
    }
  }

  /** What is written for one parsed sample: its CSV record and the refreshed screen. */
  method LogSample(sample: Logged, sampleCount: nat) returns (record: string, screen: seq<string>)
    requires |sample.values| == Channels
    ensures record == CsvRecord(RowFields(RowOf(sample)))
    ensures screen == Screen(sample.values, sampleCount)
  {
    record := CsvRecord(RowFields(RowOf(sample)));
    screen := Display(sample.values, sampleCount);
  }

  /**
   * The read loop of `run_emg_logger`. Each non-empty line that parses
   * becomes a CSV record and a display refresh, and the sample counter grows
   * by one; other lines change nothing. The loop ends at the first empty
   * read after the process has exited.
   */
  method Run(outputs: seq<Read>)
    returns (csv: string, rows: seq<seq<int>>, sampleCount: nat, lastValues: seq<int>, lastScreen: Option<seq<string>>)
    ensures rows == RowsOf(LoggedSamples(outputs))
    ensures csv == CsvRecord(HeaderFields) + CsvRows(rows)
    ensures sampleCount == |LoggedSamples(outputs)|
    ensures lastValues == LastValues(LoggedSamples(outputs))
    ensures lastScreen == LastScreen(LoggedSamples(outputs))
  {
    // The file receives the header first and then one record per sample; the
    // records are collected in `body`.
    var body := "";
    rows, sampleCount, lastValues, lastScreen := [], 0, seq(Channels, _ => 0), None;
    ghost var logged: seq<Logged> := [];
    var i := 0;
    while i < |outputs|
      invariant i <= EndOf(outputs)
      invariant logged == LoggedUpTo(outputs, i)
      invariant rows == RowsOf(logged) && sampleCount == |logged| && body == CsvRows(rows)
      invariant lastValues == LastValues(logged) && lastScreen == LastScreen(logged)
      decreases |outputs| - i
    {
      var r := outputs[i];
      if r.line == "" && r.exited {
        break;
      }
      ghost var here := LoggedBy(r);
      if r.line != "" {
        var values := ParseEmgLine(r.line);
        if values.Some? {
          var sample := Logged(r.elapsedMs, values.value);
          assert here == [sample];
          sampleCount := sampleCount + 1;
          var record, screen := LogSample(sample, sampleCount);
          LoggedSnoc(logged, sample);
          CsvRowsSnoc(rows, RowOf(sample));
          body := body + record;
          rows := rows + [RowOf(sample)];
          lastValues := values.value;
          lastScreen := Some(screen);
        } else {
          assert here == [];
        }
      } else {
        assert here == [];
      }
      logged := logged + here;
      i := i + 1;
    }
    assert i == EndOf(outputs);
    csv := CsvRecord(HeaderFields) + body;
  }

  /** The screen left by the last sample, if there was one. */
  function LastScreen(samples: seq<Logged>): (screen: Option<seq<string>>)
    requires forall k :: 0 <= k < |samples| ==> |samples[k].values| == Channels
    ensures screen.Some? <==> |samples| > 0
  {
    if |samples| == 0 then None else Some(Screen(LastValues(samples), |samples|))
  }

  /** Logging one more sample adds its row and makes its readings and screen the last ones. */
  lemma LoggedSnoc(samples: seq<Logged>, s: Logged)
    requires forall k :: 0 <= k < |samples| ==> |samples[k].values| == Channels
    requires |s.values| == Channels
    ensures RowsOf(samples + [s]) == RowsOf(samples) + [RowOf(s)]
    ensures LastValues(samples + [s]) == s.values
    ensures LastScreen(samples + [s]) == Some(Screen(s.values, |samples| + 1))
  {
  }

  /** Every logged row has the elapsed time followed by the 8 readings: 9 fields, like the header. */
  lemma RowsMatchHeader(outputs: seq<Read>)
    ensures forall k :: 0 <= k < |LoggedSamples(outputs)| ==> |RowOf(LoggedSamples(outputs)[k])| == |HeaderFields|
    ensures forall k :: 0 <= k < |LoggedSamples(outputs)| ==> RowOf(LoggedSamples(outputs)[k])[1..] == LoggedSamples(outputs)[k].values
  {
    forall k | 0 <= k < |LoggedSamples(outputs)|
      ensures RowOf(LoggedSamples(outputs)[k])[1..] == LoggedSamples(outputs)[k].values
    {
      var s := LoggedSamples(outputs)[k];
      assert ([s.elapsedMs] + s.values)[1..] == s.values;
    }
  }
}
