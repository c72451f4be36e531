/**
 * The text forms the two Myo collectors (`myo/samples/emg-to-csv.cpp` and
 * `myo/samples/emg-to-pytorch.cpp`) write for one EMG sample: the CSV header
 * and row, and the console cells `[v   ]`. The elapsed time, a `double` printed
 * with `std::fixed << std::setprecision(6)`, is modelled as a whole number of
 * microseconds.
 */
module SampleText {
  import opened Text

  /** `int8_t`, the type of one EMG reading. */
  newtype Int8 = x: int | -128 <= x < 128

  const Channels: nat := 8
  const Micro: nat := 1000000

  /** An elapsed time of `micros` microseconds printed in seconds with six decimals. */
  function Fixed6(micros: nat): string
  {
    NatToString(micros / Micro) + "." + PadLeft(NatToString(micros % Micro), 6, '0')
  }

  /** The six-decimal text is digits, a point and exactly six digits that together denote `micros`. */
  lemma Fixed6Denotes(micros: nat)
    ensures var s := Fixed6(micros);
      |s| >= 8 && s[|s| - 7] == '.'
      && AllDigits(s[..|s| - 7]) && AllDigits(s[|s| - 6..])
      && DigitsValue(s[..|s| - 7]) * Micro + DigitsValue(s[|s| - 6..]) == micros
  {
    var w, p := NatToString(micros / Micro), PadLeft(NatToString(micros % Micro), 6, '0');
    FractionDigits(micros % Micro);
    NatToStringValue(micros / Micro);
    var s := Fixed6(micros);
    PointSplit(w, p);
  }

  /** The fraction part: the remainder's numeral padded with zeros to six digits, keeping its value. */
  lemma FractionDigits(r: nat)
    requires r < Micro
    ensures var p := PadLeft(NatToString(r), 6, '0'); |p| == 6 && AllDigits(p) && DigitsValue(p) == r
  {
    var f := NatToString(r);
    assert Pow10(6) == Micro;
    NatToStringLength(r, 6);
    var p := PadLeft(f, 6, '0');
    assert p == seq(6 - |f|, _ => '0') + f;
    LeadingZeros(6 - |f|, f);
    NatToStringValue(r);
  }

  /** The two sides of the point are recovered by slicing. */
  lemma PointSplit(w: string, p: string)
    requires |p| == 6
    ensures var s := w + "." + p; |s| == |w| + 7 && s[|s| - 7] == '.' && s[..|s| - 7] == w && s[|s| - 6..] == p
  {
  }

  /** The numeral of every reading, in channel order. */
  function Numerals(emg: seq<Int8>): (r: seq<string>)
    ensures |r| == |emg|
    ensures forall i :: 0 <= i < |emg| ==> r[i] == IntToString(emg[i] as int)
  {
    seq(|emg|, i requires 0 <= i < |emg| => IntToString(emg[i] as int))
  }

  const CsvHeaderFields: seq<string> :=
    ["timestamp", "sample_number", "emg1", "emg2", "emg3", "emg4", "emg5", "emg6", "emg7", "emg8"]

  /** The header line both collectors write when the file opens. */
  function CsvHeader(): string
  {
    Join(CsvHeaderFields, ',') + "\n"
  }

  /** The fields of one CSV row: time, sample number and the eight readings. */
  function CsvFields(micros: nat, sampleNumber: nat, emg: seq<Int8>): seq<string>
  {
    [Fixed6(micros), NatToString(sampleNumber)] + Numerals(emg)
  }

  /** One CSV row: the fields separated by commas, ended by a newline. */
  function CsvRow(micros: nat, sampleNumber: nat, emg: seq<Int8>): string
  {
    Join(CsvFields(micros, sampleNumber, emg), ',') + "\n"
  }

  /** The rows written for the samples received so far (elapsed time and readings), numbered from 0. */
  function WrittenRows(received: seq<(nat, seq<Int8>)>): (rows: seq<string>)
    ensures |rows| == |received|
    decreases |received|
  {
    if |received| == 0 then []
    else
      var n := |received| - 1;
      WrittenRows(received[..n]) + [CsvRow(received[n].0, n, received[n].1)]
  }

  /** Receiving one more sample writes one more row, numbered by the samples before it. */
  lemma WrittenRowsSnoc(received: seq<(nat, seq<Int8>)>, x: (nat, seq<Int8>))
    ensures WrittenRows(received + [x]) == WrittenRows(received) + [CsvRow(x.0, |received|, x.1)]
  {
    assert (received + [x])[..|received|] == received;
  }

  /** Row `k` is the row of sample `k`. */
  lemma {:induction false} WrittenRowsIndex(received: seq<(nat, seq<Int8>)>, k: nat)
    requires k < |received|
    ensures WrittenRows(received)[k] == CsvRow(received[k].0, k, received[k].1)
    decreases |received|
  {
    var n := |received| - 1;
    if k < n {
      WrittenRowsIndex(received[..n], k);
    }
  }

  /** The header splits on commas into its ten column names. */
  lemma CsvHeaderColumns()
    ensures var h := CsvHeader(); h[|h| - 1] == '\n' && Split(h[..|h| - 1], ',') == CsvHeaderFields
  {
    HeaderNamesHaveNoComma();
    SplitJoinLine(CsvHeaderFields, ',', '\n');
  }

  lemma HeaderNamesHaveNoComma()
    ensures NoSep(CsvHeaderFields, ',')
  {
  }

  lemma NumeralHasNoComma(i: int)
    ensures ',' !in IntToString(i)
  {
    var s := IntToString(i);
    assert forall k :: 0 <= k < |s| ==> s[k] == '-' || IsDigit(s[k]) by {
      if i < 0 { assert s == "-" + NatToString(-i); }
    }
  }

  lemma Fixed6HasNoComma(micros: nat)
    ensures ',' !in Fixed6(micros)
  {
    var w, f := NatToString(micros / Micro), NatToString(micros % Micro);
    var p := PadLeft(f, 6, '0');
    DigitsExclude(w, ',');
    DigitsExclude(f, ',');
    assert p == seq(|p| - |f|, _ => '0') + f;
    NotInAppend(',', seq(|p| - |f|, _ => '0'), f);
    NotInAppend(',', w, ".");
    NotInAppend(',', w + ".", p);
  }

  lemma FieldsHaveNoComma(micros: nat, sampleNumber: nat, emg: seq<Int8>)
    ensures NoSep(CsvFields(micros, sampleNumber, emg), ',')
  {
    var fields := CsvFields(micros, sampleNumber, emg);
    forall k | 0 <= k < |fields| ensures ',' !in fields[k] {
      if k == 0 {
        Fixed6HasNoComma(micros);
      } else if k == 1 {
        NumeralHasNoComma(sampleNumber);
      } else {
        NumeralHasNoComma(emg[k - 2] as int);
      }
    }
  }

  /**
   * A row splits on commas back into its fields: one per header column for
   * eight readings, the readings in the last eight.
   */
  lemma CsvRowColumns(micros: nat, sampleNumber: nat, emg: seq<Int8>)
    ensures var row := CsvRow(micros, sampleNumber, emg);
      row[|row| - 1] == '\n'
      && Split(row[..|row| - 1], ',') == CsvFields(micros, sampleNumber, emg)
      && (|emg| == Channels ==> |CsvFields(micros, sampleNumber, emg)| == |CsvHeaderFields|)
  {
    var fields := CsvFields(micros, sampleNumber, emg);
    var row := CsvRow(micros, sampleNumber, emg);
    assert row[..|row| - 1] == Join(fields, ',');
    FieldsHaveNoComma(micros, sampleNumber, emg);
    SplitJoin(fields, ',');
  }

  /** One console cell, `'[' + s + std::string(4 - s.size(), ' ') + ']'`. */
  function Cell(e: Int8): string
  {
    "[" + PadRight(IntToString(e as int), 4, ' ') + "]"
  }

  /** An `int8_t` numeral has at most four characters, so `4 - s.size()` never wraps and every cell is six wide. */
  lemma CellWidth(e: Int8)
    ensures |IntToString(e as int)| <= 4
    ensures |Cell(e)| == 6
  {
    assert Pow10(3) == 1000;
    var n := if e < 0 then -(e as int) else e as int;
    NatToStringLength(n, 3);
    if e < 0 { assert IntToString(e as int) == "-" + NatToString(n); }
  }

  /** The cells of all readings, side by side. */
  function Cells(emg: seq<Int8>): string
  {
    if |emg| == 0 then "" else Cells(emg[..|emg| - 1]) + Cell(emg[|emg| - 1])
  }
}
