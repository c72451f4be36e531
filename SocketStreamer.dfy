/**
 * `myo/samples/emg-to-pytorch.cpp`: the Myo collector that also streams every
 * sample as one JSON line over TCP. `SocketSender` keeps the connection flag
 * and the socket handle in step; what the operating system answers to
 * `socket`, `connect` and `send` is given to each operation as a parameter.
 */
module SocketStreamer {
  import opened Wrappers
  import opened Text
  import opened SampleText
  import Json
  import CsvLogger

  const DefaultHost: string := "127.0.0.1"
  const DefaultPort: int := 9002

  /** The answers of `::socket` and `::connect` to one connection attempt. */
  datatype ConnectAttempt = ConnectAttempt(socketCreated: bool, connects: bool, handle: nat)

  /** A connection attempt that is never made: used where `connected_` is already true. */
  const NoAttempt := ConnectAttempt(false, false, 0)

  class SocketSender {
    const host: string
    const port: int
    /** `socket_`: a handle, or -1 when closed. */
    var socket: int
    /** `connected_`. */
    var connected: bool
    /** The bytes `::send` has accepted so far, in order. */
    var sent: string

    ghost predicate Valid()
      reads this
    {
      socket >= -1 && (connected <==> socket >= 0)
    }

    constructor (host: string, port: int)
      ensures Valid()
      ensures this.host == host && this.port == port
      ensures socket == -1 && !connected && sent == ""
    {
      this.host, this.port := host, port;
      socket, connected, sent := -1, false, "";
    }

    /** `connect`: nothing to do when connected; otherwise open a socket and connect it, closing it on failure. */
    method Connect(os: ConnectAttempt) returns (ok: bool)
      requires Valid()
      modifies this
      ensures Valid()
      ensures ok == (old(connected) || (os.socketCreated && os.connects))
      ensures connected == ok
      ensures old(connected) ==> socket == old(socket)
      ensures !old(connected) && ok ==> socket == os.handle
      ensures sent == old(sent)
    {
      if connected {
        return true;
      }
      if !os.socketCreated {
        socket := -1;
        return false;
      }
      socket := os.handle;
      if !os.connects {
        socket := -1;
        return false;
      }
      connected := true;
      ok := true;
    }

    /** `disconnect`: close an open socket and clear the flag (whatever the flag said). */
    method Disconnect()
      requires socket >= -1 && (connected ==> socket >= 0)
      modifies this
      ensures Valid()
      ensures socket == -1 && !connected && sent == old(sent)
    {
      if socket >= 0 {
        socket := -1;
        connected := false;
      }
    }

    /**
     * `sendData`: connect first if needed, then send `data + "\n"`. `bytesSent`
     * is what `::send` returns: negative on failure, which drops the
     * connection, and otherwise the number of leading bytes it accepted.
     */
    method SendData(data: string, os: ConnectAttempt, bytesSent: int) returns (ok: bool)
      requires Valid()
      modifies this
      ensures Valid()
      ensures ok == ((old(connected) || (os.socketCreated && os.connects)) && bytesSent >= 0)
      ensures connected == ok
      ensures sent == if ok then old(sent) + Accepted(data + "\n", bytesSent) else old(sent)
    {
      if !connected {
        var up := Connect(os);
        if !up {
          return false;
        }
      }
      var message := data + "\n";
      if bytesSent < 0 {
        connected := false;
        Disconnect();
        return false;
      }
      sent := sent + Accepted(message, bytesSent);
      ok := true;
    }
  }

  /** The part of `message` that a `send` returning `n` has taken. */
  function Accepted(message: string, n: int): (r: string)
    ensures n >= |message| ==> r == message
    ensures 0 <= n <= |message| ==> r == message[..n]
  {
    if n < 0 then "" else if n >= |message| then message else message[..n]
  }

  // ----------------------------------------------------------------------
  // The JSON line of `onEmgData`.

  /** The readings as JSON numbers. */
  function ReadingItems(emg: seq<Int8>): (items: seq<Json.Value>)
    ensures |items| == |emg| && forall i :: 0 <= i < |emg| ==> items[i] == Json.Number(IntToString(emg[i] as int))
  {
    seq(|emg|, i requires 0 <= i < |emg| => Json.Number(IntToString(emg[i] as int)))
  }

  /** The JSON value the line stands for: `{"timestamp":T,"sample":N,"emg":[e0,...,e7]}`. */
  function SampleRecord(micros: nat, sampleNumber: nat, emg: seq<Int8>): Json.Value
  {
    Json.Object([
      ("timestamp", Json.Number(Fixed6(micros))),
      ("sample", Json.Number(NatToString(sampleNumber))),
      ("emg", Json.Array(ReadingItems(emg)))])
  }

  /** Every number in the record is an RFC 8259 section 6 number and every name needs no escape. */
  lemma SampleRecordWellFormed(micros: nat, sampleNumber: nat, emg: seq<Int8>)
    ensures Json.WellFormed(SampleRecord(micros, sampleNumber, emg))
  {
    TimestampIsNumber(micros);
    Json.IntIsNumber(sampleNumber);
    ReadingsAreNumbers(emg);
    NamesNeedNoEscape();
    Json.Object3WellFormed("timestamp", Json.Number(Fixed6(micros)), "sample", Json.Number(NatToString(sampleNumber)),
      "emg", Json.Array(ReadingItems(emg)));
  }

  lemma NamesNeedNoEscape()
    ensures Json.NeedsNoEscape("timestamp") && Json.NeedsNoEscape("sample") && Json.NeedsNoEscape("emg")
  {
  }

  lemma TimestampIsNumber(micros: nat)
    ensures Json.IsNumberText(Fixed6(micros))
  {
    Fixed6Denotes(micros);
    var s := Fixed6(micros);
    assert s == NatToString(micros / Micro) + "." + s[|s| - 6..];
    Json.FixedIsNumber(micros / Micro, s[|s| - 6..]);
  }

  lemma ReadingsAreNumbers(emg: seq<Int8>)
    ensures Json.WellFormed(Json.Array(ReadingItems(emg)))
  {
    var items := ReadingItems(emg);
    forall i | 0 <= i < |items| ensures Json.WellFormed(items[i]) {
      Json.IntIsNumber(emg[i] as int);
    }
  }

  /** The readings are written as their numerals, separated by commas, between brackets. */
  lemma ReadingsText(emg: seq<Int8>)
    ensures Json.Serialize(Json.Array(ReadingItems(emg))) == "[" + Json.Commas(Numerals(emg)) + "]"
  {
    Json.SerializeArray(ReadingItems(emg), Numerals(emg));
  }

  /** The loop that streams the readings with a comma before all but the first. */
  method FormatReadings(emg: seq<Int8>) returns (list: string)
    ensures list == Json.Commas(Numerals(emg))
  {
    ghost var numerals := Numerals(emg);
    list := "";
    var i := 0;
    while i < |emg|
      invariant 0 <= i <= |emg|
      invariant list == Json.Commas(numerals[..i])
    {
      var numeral := IntToString(emg[i] as int);
      Json.CommasSnoc(numerals[..i], numeral);
      TakeSnoc(numerals, i);
      if i > 0 {
        list := list + "," + numeral;
      } else {
        list := numeral;
      }
      i := i + 1;
    }
    assert numerals[..|emg|] == numerals;
  }

  /** The stream-building of `onEmgData`, without the trailing newline `sendData` adds. */
  method FormatJsonLine(micros: nat, sampleNumber: nat, emg: seq<Int8>) returns (line: string)
    ensures line == Json.Serialize(SampleRecord(micros, sampleNumber, emg))
  {
    var list := FormatReadings(emg);
    var timestamp := "\"" + "timestamp" + "\":" + Fixed6(micros);
    var sample := "\"" + "sample" + "\":" + NatToString(sampleNumber);
    var readings := "\"" + "emg" + "\":" + ("[" + list + "]");
    line := "{" + (timestamp + ("," + (sample + ("," + (readings + "}")))));
    ReadingsText(emg);
    Json.SerializeObject3("timestamp", Json.Number(Fixed6(micros)), "sample", Json.Number(NatToString(sampleNumber)),
      "emg", Json.Array(ReadingItems(emg)));
  }

  class DataCollector {
    var emgSamples: seq<Int8>
    var sampleCount: nat
    var rows: seq<string>
    var flushedRows: nat
    ghost var received: seq<(nat, seq<Int8>)>
    /** `socketSender_`: null when started with `--no-socket`. */
    const sender: SocketSender?

    ghost predicate Valid()
      reads this, sender
    {
      CsvLogger.Consistent(emgSamples, sampleCount, rows, flushedRows, received)
      && (sender != null ==> sender.Valid())
    }

    /** The constructor once the file has opened and the header has been written. */
    constructor (sender: SocketSender?)
      requires sender != null ==> sender.Valid()
      ensures Valid() && this.sender == sender
      ensures emgSamples == seq(Channels, _ => 0 as Int8)
      ensures sampleCount == 0 && rows == [] && flushedRows == 0 && received == []
    {
      emgSamples := seq(Channels, _ => 0 as Int8);
      sampleCount, rows, flushedRows, received := 0, [], 0, [];
      this.sender := sender;
    }

    method OnUnpair()
      requires Valid()
      modifies this
      ensures Valid()
      ensures emgSamples == seq(Channels, _ => 0 as Int8)
      ensures sampleCount == old(sampleCount) && rows == old(rows) && flushedRows == old(flushedRows)
      ensures received == old(received)
    {
      emgSamples := seq(Channels, _ => 0 as Int8);
    }

    /** The CSV half of `onEmgData`, as in the plain collector. */
    method LogRow(emg: seq<Int8>, micros: nat)
      requires Valid() && |emg| == Channels
      modifies this
      ensures Valid()
      ensures emgSamples == emg
      ensures rows == old(rows) + [CsvRow(micros, old(sampleCount), emg)]
      ensures flushedRows == if old(sampleCount) % CsvLogger.FlushEvery == 0 then |rows| else old(flushedRows)
      ensures sampleCount == old(sampleCount) + 1
      ensures received == old(received) + [(micros, emg)]
    {
      CsvLogger.ReceiveKeepsConsistent(emgSamples, sampleCount, rows, flushedRows, received, emg, micros);
      emgSamples := emg;
      var row := CsvLogger.FormatCsvRow(micros, sampleCount, emg);
      rows := rows + [row];
      if sampleCount % CsvLogger.FlushEvery == 0 {
        flushedRows := |rows|;
      }
      sampleCount := sampleCount + 1;
      received := received + [(micros, emg)];
    }

    /**
     * `onEmgData`: the CSV row, then, only while the sender is connected, the
     * JSON line; `bytesSent` is what `::send` returns. The JSON line carries
     * the sample number before the count is incremented.
     */
    method OnEmgData(emg: seq<Int8>, micros: nat, bytesSent: int)
      requires Valid() && |emg| == Channels
      modifies this, sender
      ensures Valid()
      ensures emgSamples == emg
      ensures rows == old(rows) + [CsvRow(micros, old(sampleCount), emg)]
      ensures flushedRows == if old(sampleCount) % CsvLogger.FlushEvery == 0 then |rows| else old(flushedRows)
      ensures sampleCount == old(sampleCount) + 1
      ensures received == old(received) + [(micros, emg)]
      ensures sender != null && old(sender.connected) ==>
        sender.connected == (bytesSent >= 0)
        && sender.sent == if bytesSent >= 0
             then old(sender.sent)
               + Accepted(Json.Serialize(SampleRecord(micros, old(sampleCount), emg)) + "\n", bytesSent)
             else old(sender.sent)
      ensures sender != null && !old(sender.connected) ==> unchanged(sender)
    {
      var n := sampleCount;
      LogRow(emg, micros);
      if sender != null && sender.connected {
        var line := FormatJsonLine(micros, n, emg);
        var _ := sender.SendData(line, NoAttempt, bytesSent);
      }
    }

    /** `print`: the cells, then the connection status when there is a sender. */
    method Print() returns (text: string)
      requires Valid()
      ensures text == "\r" + Cells(emgSamples) + StatusSuffix(sender != null, sender != null && sender.connected)
    {
      var cells := CsvLogger.FormatCells(emgSamples);
      text := "\r" + cells;
      if sender != null {
        text := text + if sender.connected then " [TCP:OK]" else " [TCP:--]";
      }
    }
  }

  function StatusSuffix(hasSender: bool, connected: bool): string
  {
    if !hasSender then "" else if connected then " [TCP:OK]" else " [TCP:--]"
  }

  // ----------------------------------------------------------------------
  // Command line.

  datatype Settings = Settings(enableSocket: bool, host: string, port: int)

  const Defaults := Settings(true, DefaultHost, DefaultPort)

  const IntMin: int := -0x8000_0000
  const IntMax: int := 0x7FFF_FFFF

  /**
   * `std::stoi`: leading whitespace, an optional sign and at least one digit;
   * the rest is ignored. No digits, or a value outside `int`, throws (`None`).
   */
  function Stoi(s: string): Option<int>
  {
    var t := TrimStart(s);
    var negative := |t| > 0 && t[0] == '-';
    var u := if |t| > 0 && (t[0] == '-' || t[0] == '+') then t[1..] else t;
    var n := DigitRun(u);
    if n == 0 then None
    else
      var v: int := if negative then -(DigitsValue(u[..n]) as int) else DigitsValue(u[..n]);
      if IntMin <= v <= IntMax then Some(v) else None
  }

  /** `std::stoi` reads back every `int` numeral. */
  lemma StoiReadsNumeral(p: int)
    requires IntMin <= p <= IntMax
    ensures Stoi(IntToString(p)) == Some(p)
  {
    var s := IntToString(p);
    var m: nat := if p < 0 then -p else p;
    var d := NatToString(m);
    NatToStringValue(m);
    DigitRunAll(d);
    assert d[..|d|] == d;
    assert IsDigit(d[0]);
    if p < 0 {
      assert s == "-" + d && s[1..] == d;
      assert !IsSpace(s[0]);
      assert TrimStart(s) == s;
    } else {
      assert s == d;
      assert !IsSpace(s[0]);
      assert TrimStart(s) == s;
    }
  }

  /** The argument loop of `main` from index `i` on, as a function of the arguments. */
  function ParsedFrom(argv: seq<string>, i: nat, s: Settings): Option<Settings>
    decreases |argv| - i
  {
    if i >= |argv| then Some(s)
    else if argv[i] == "--no-socket" then ParsedFrom(argv, i + 1, s.(enableSocket := false))
    else if argv[i] == "--host" && i + 1 < |argv| then ParsedFrom(argv, i + 2, s.(host := argv[i + 1]))
    else if argv[i] == "--port" && i + 1 < |argv| then
      match Stoi(argv[i + 1])
      case None => None
      case Some(p) => ParsedFrom(argv, i + 2, s.(port := p))
    else ParsedFrom(argv, i + 1, s)
  }

  /** The loop `for (int i = 1; i < argc; i++)` of `main`; `None` when `std::stoi` throws. */
  method ParseArgs(argv: seq<string>) returns (r: Option<Settings>)
    ensures r == ParsedFrom(argv, 1, Defaults)
  {
    var s := Defaults;
    var i := 1;
    while i < |argv|
      invariant i >= 1
      invariant ParsedFrom(argv, i, s) == ParsedFrom(argv, 1, Defaults)
      decreases |argv| - i
    {
      var arg := argv[i];
      if arg == "--no-socket" {
        s := s.(enableSocket := false);
      } else if arg == "--host" && i + 1 < |argv| {
        i := i + 1;
        s := s.(host := argv[i]);
      } else if arg == "--port" && i + 1 < |argv| {
        i := i + 1;
        var p := Stoi(argv[i]);
        if p.None? {
          return None;
        }
        s := s.(port := p.value);
      }
      i := i + 1;
    }
    r := Some(s);
  }

  /** Once `--no-socket` has been seen, no later argument turns the socket back on. */
  lemma {:induction false} NoSocketIsFinal(argv: seq<string>, i: nat, s: Settings)
    requires !s.enableSocket
    ensures ParsedFrom(argv, i, s).Some? ==> !ParsedFrom(argv, i, s).value.enableSocket
    decreases |argv| - i
  {
    if i < |argv| {
      if argv[i] == "--no-socket" {
        NoSocketIsFinal(argv, i + 1, s);
      } else if argv[i] == "--host" && i + 1 < |argv| {
        NoSocketIsFinal(argv, i + 2, s.(host := argv[i + 1]));
      } else if argv[i] == "--port" && i + 1 < |argv| {
        if Stoi(argv[i + 1]).Some? {
          NoSocketIsFinal(argv, i + 2, s.(port := Stoi(argv[i + 1]).value));
        }
      } else {
        NoSocketIsFinal(argv, i + 1, s);
      }
    }
  }

  /** `--port N` sets the port to `N`, and a trailing `--host` without a value is ignored. */
  lemma PortAndDanglingHost(program: string, p: int)
    requires IntMin <= p <= IntMax
    ensures ParsedFrom([program, "--port", IntToString(p)], 1, Defaults) == Some(Defaults.(port := p))
    ensures ParsedFrom([program, "--host"], 1, Defaults) == Some(Defaults)
  {
    StoiReadsNumeral(p);
    assert IntToString(p) != "--no-socket" by {
      assert IntToString(p)[0] == '-' ==> p < 0;
      if p < 0 {
        assert IntToString(p)[1..] == NatToString(-p);
        assert IsDigit(IntToString(p)[1]);
      }
    }
  }
}
