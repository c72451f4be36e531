/**
 * `DataCollector` of `myo/samples/emg-to-csv.cpp`: each EMG callback writes one
 * CSV row, flushing the file after every hundredth sample, and `print` shows
 * the latest readings as console cells. The file stream is the sequence of
 * rows written; a flush records how many of them have reached the file.
 */
module CsvLogger {
  import opened Wrappers
  import opened Text
  import opened SampleText

  /** The file is flushed after the rows whose sample number is a multiple of this. */
  const FlushEvery: nat := 100

  /** The row loop of `onEmgData`: time and sample number, then `"," << emg[i]` for each channel. */
  method FormatCsvRow(micros: nat, sampleNumber: nat, emg: seq<Int8>) returns (row: string)
    ensures row == CsvRow(micros, sampleNumber, emg)
  {
    var fields := CsvFields(micros, sampleNumber, emg);
    row := Fixed6(micros) + "," + NatToString(sampleNumber);
    assert row == Join(fields[..2], ',') by {
      assert fields[..2][1..] == [NatToString(sampleNumber)];
    }
    var i := 0;
    while i < |emg|
      invariant 0 <= i <= |emg|
      invariant row == Join(fields[..i + 2], ',')
    {
      var value := IntToString(emg[i] as int);
      assert value == fields[i + 2];
      JoinPrefixStep(fields, i + 2, ',');
      row := row + "," + value;
      i := i + 1;
    }
    assert fields[..|emg| + 2] == fields;
    row := row + "\n";
  }

  /** The loop of `print`: one `[v   ]` cell per reading. */
  method FormatCells(emg: seq<Int8>) returns (text: string)
    ensures text == Cells(emg)
  {
    text := "";
    var i := 0;
    while i < |emg|
      invariant 0 <= i <= |emg|
      invariant text == Cells(emg[..i])
    {
      assert emg[..i + 1][..i] == emg[..i];
      var cell := "[" + PadRight(IntToString(emg[i] as int), 4, ' ') + "]";
      text := text + cell;
      i := i + 1;
    }
    assert emg[..|emg|] == emg;
  }

  /**
   * The state a collector keeps consistent: the latest readings, one row per
   * sample received, numbered from 0, and at most the rows since the last
   * hundredth sample still waiting for a flush.
   */
  predicate Consistent(emgSamples: seq<Int8>, sampleCount: nat, rows: seq<string>, flushedRows: nat,
                       received: seq<(nat, seq<Int8>)>)
  {
    |emgSamples| == Channels
    && sampleCount == |received| && rows == WrittenRows(received)
    && flushedRows <= |rows|
    && (sampleCount == 0 ==> flushedRows == 0)
    && (sampleCount > 0 ==> |rows| - flushedRows == (sampleCount - 1) % FlushEvery)
  }

  /** One more sample, its row written and the file flushed on a multiple of 100, keeps the state consistent. */
  lemma ReceiveKeepsConsistent(emgSamples: seq<Int8>, sampleCount: nat, rows: seq<string>, flushedRows: nat,
                               received: seq<(nat, seq<Int8>)>, emg: seq<Int8>, micros: nat)
    requires Consistent(emgSamples, sampleCount, rows, flushedRows, received) && |emg| == Channels
    ensures Consistent(emg, sampleCount + 1, rows + [CsvRow(micros, sampleCount, emg)],
      if sampleCount % FlushEvery == 0 then |rows| + 1 else flushedRows, received + [(micros, emg)])
  {
    WrittenRowsSnoc(received, (micros, emg));
    UnflushedStep(sampleCount, |rows| - flushedRows);
  }

  /** Between flushes the unflushed rows count up by one per sample. */
  lemma UnflushedStep(count: nat, unflushed: int)
    requires count == 0 ==> unflushed == 0
    requires count > 0 ==> unflushed == (count - 1) % FlushEvery
    ensures count % FlushEvery != 0 ==> unflushed + 1 == count % FlushEvery
  {
  }

  class DataCollector {
    /** The readings of the latest callback (`emgSamples`). */
    var emgSamples: seq<Int8>
    /** Callbacks handled so far (`sampleCount`). */
    var sampleCount: nat
    /** The rows written after the header, oldest first. */
    var rows: seq<string>
    /** How many of `rows` have been flushed to the file. */
    var flushedRows: nat
    /** The elapsed time and readings of every callback so far. */
    ghost var received: seq<(nat, seq<Int8>)>

    ghost predicate Valid()
      reads this
    {
      Consistent(emgSamples, sampleCount, rows, flushedRows, received)
    }

    /** The constructor once the file has opened and the header has been written and flushed. */
    constructor ()
      ensures Valid()
      ensures emgSamples == seq(Channels, _ => 0 as Int8)
      ensures sampleCount == 0 && rows == [] && flushedRows == 0 && received == []
    {
      emgSamples := seq(Channels, _ => 0 as Int8);
      sampleCount := 0;
      rows := [];
      flushedRows := 0;
      received := [];
    }

    /** `onUnpair`: the readings shown are all reset to zero. */
    method OnUnpair()
      requires Valid()
      modifies this
      ensures Valid()
      ensures emgSamples == seq(Channels, _ => 0 as Int8)
      ensures sampleCount == old(sampleCount) && rows == old(rows) && flushedRows == old(flushedRows)
      ensures received == old(received)
    {
      emgSamples := seq(Channels, _ => 0 as Int8);
    }

    /** `onEmgData`: keep the readings, write one row, flush on every hundredth sample, count it. */
    method OnEmgData(emg: seq<Int8>, micros: nat)
      requires Valid() && |emg| == Channels
      modifies this
      ensures Valid()
      ensures emgSamples == emg
      ensures rows == old(rows) + [CsvRow(micros, old(sampleCount), emg)]
      ensures flushedRows == if old(sampleCount) % FlushEvery == 0 then |rows| else old(flushedRows)
      ensures sampleCount == old(sampleCount) + 1
      ensures received == old(received) + [(micros, emg)]
    {
      ReceiveKeepsConsistent(emgSamples, sampleCount, rows, flushedRows, received, emg, micros);
      emgSamples := emg;
      var row := FormatCsvRow(micros, sampleCount, emg);
      rows := rows + [row];
      if sampleCount % FlushEvery == 0 {
        flushedRows := |rows|;
      }
      sampleCount := sampleCount + 1;
      received := received + [(micros, emg)];
    }

    /** `print`: a carriage return, then one cell per reading. */
    method Print() returns (text: string)
      requires Valid()
      ensures text == "\r" + Cells(emgSamples)
    {
      var cells := FormatCells(emgSamples);
      text := "\r" + cells;
    }
  }

  /** The second comma-separated field of a newline-terminated row. */
  function SampleNumberField(row: string): Option<string>
  {
    if |row| == 0 then None
    else
      var fields := Split(row[..|row| - 1], ',');
      if |fields| >= 2 then Some(fields[1]) else None
  }

  /** At most 99 rows are ever waiting for a flush, and the rows are numbered 0, 1, 2, ... */
  lemma UnflushedBound(c: DataCollector)
    requires c.Valid()
    ensures |c.rows| - c.flushedRows < FlushEvery
    ensures forall k :: 0 <= k < |c.rows| ==> SampleNumberField(c.rows[k]) == Some(NatToString(k))
  {
    forall k | 0 <= k < |c.rows| ensures SampleNumberField(c.rows[k]) == Some(NatToString(k)) {
      WrittenRowsIndex(c.received, k);
      CsvRowColumns(c.received[k].0, k, c.received[k].1);
    }
  }

  /**
   * `main` either gets a collector with the header written, or, when the file
   * cannot be opened, the constructor throws and no collector exists.
   */
  method Open(fileOpens: bool) returns (c: DataCollector?, header: string)
    ensures (c != null) == fileOpens
    ensures c != null ==> fresh(c) && c.Valid() && c.rows == [] && c.sampleCount == 0
    ensures header == if fileOpens then CsvHeader() else ""
  {
    if fileOpens {
      c := new DataCollector();
      header := CsvHeader();
    } else {
      c := null;
      header := "";
    }
  }
}
