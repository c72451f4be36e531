# EMG pipeline and composition layers: a Dafny model

This project models two parts of one repository.

The first is an electromyography (EMG) pipeline built around the Myo armband:
- **Collectors.** Two C++ collectors write every 8-channel sample as a CSV row (`myo/samples/emg-to-csv.cpp`). One of them also streams it as a JSON line over TCP (`myo/samples/emg-to-pytorch.cpp`).
- **Console scripts.** Two Python scripts read a recorder's console lines, parse the bracketed readings and log them as CSV rows. One draws bars (`run_emg_logger.py`), the other bounded plot histories (`emg_visualizer.py`).
- **Receivers.** A terminal receiver frames the TCP stream into JSON lines (`data_transmission/simple_receiver.py`). The Unity scene's receiver frames TCP reads and UDP datagrams into a packet queue (`Unity/emg/Assets/SocketReceiver.cs`).
- **Inference server.** `ML/emg-to-pytorch.py` fills a bounded history from JSON lines, copies the newest window once enough samples are there, and classifies it with a placeholder rule.
- **Offline tools.** One cuts recordings into overlapping windows (`ML/emg_preprocessing.py`). The trainer labels, splits and scores them (`ML/train_200.py`).

The second part is the vendored Unity XR composition-layers package. The model covers:
- the layer manager's lifecycle lists and its occupied-order dictionary;
- the order-change and swap utilities;
- the layer-descriptor registry;
- the editor's layer naming, sorting and reordering;
- platform-layer-data serialization and compaction;
- the GUI helpers, the image-filter batching and the HDR tonemapping sample generator;
- the emulated and mirror-view layer providers with their emulated layer data;
- the layer-data and extension state-change plumbing and the textures extension;
- user-layer allocation and the TagManager layer-slot editors;
- the runtime-settings inspector's scene-list handling;
- platform-provider selection and support queries;
- the emulated-layer-data registry;
- the usage analytics.

There is one module per source file. Pure code becomes datatypes, functions and lemmas. Code that updates state in place becomes classes with `modifies` frames, and each of their methods is proved against a specification function. Loops keep the invariants that connect them to that function. Unity objects, types and textures are opaque identifiers. Engine and library calls, the clock, sockets and the console appear as parameters or are left out, as listed below.

Four points of the inference pipeline's behaviour, as the code has them:
- **The classifier.** The inference worker classifies with `placeholder_inference`: the mean absolute value per channel, and "Flex" when channel 0's exceeds 10. No conditioning, normalisation or network stage runs (ML/emg-to-pytorch.py:32-58).
- **Listener stop.** A decoded line that is not a JSON object ends the listener rather than being skipped. `data.get` raises and the generic handler breaks the loop (ML/emg-to-pytorch.py:83-115).
- **Window copy.** The worker copies a window only once the history holds the full window length. It never takes a shorter snapshot (ML/emg-to-pytorch.py:136-148).
- **Missing fields.** A JSON `null` field counts as missing, like an absent key.

## Model

| member | source | states |
|---|---|---|
| BoundedDeque.LastN | ML/emg-to-pytorch.py:20 | the newest `n` elements have length `min(|s|, n)` |
| BoundedDeque.LastNAppend | ML/emg-to-pytorch.py:20 | appending to the newest `n` and keeping `n` equals keeping the newest `n` of the whole history: a bounded deque never loses one of its newest elements |
| BoundedDeque.LastNLastN | ML/emg-to-pytorch.py:148 | the newest `m` of the newest `n` are the newest `m` of everything, for `m <= n` (a window cut from the bounded buffer equals one cut from the full history) |
| BoundedDeque.Deque.constructor | ML/emg-to-pytorch.py:20 | a new deque with the given `maxlen` is empty and valid |
| BoundedDeque.Deque.Append | ML/emg-to-pytorch.py:103 | the history grows by `x`; the items gain `x` at the right and lose the leftmost element exactly when the deque was full; the deque stays valid |
| BoundedDeque.DequeBounds | ML/emg-to-pytorch.py:14-20 | a valid deque never holds more than `maxlen` items, holds the whole history while not full, and exactly `maxlen` once at least that many were appended |
| InferenceServer.Classify | ML/emg-to-pytorch.py:83-115 | one pass of the listener: a decode error is reported and ignored; a decoded value that is not an object stops the listener; an object whose `timestamp` and `emg` are both present and not null gives a sample carrying exactly those two values; anything else is ignored |
| InferenceServer.ListenedReadsUpToFirstEnd | ML/emg-to-pytorch.py:82-115 | the listener reads up to and including the first line that ends it (end of stream or an unexpected error), accepts exactly the samples of the lines it read, and stops only on such a line |
| InferenceServer.Listen | ML/emg-to-pytorch.py:81-121 | the read loop appends to the buffer exactly the accepted samples of the lines consumed, in order, and reports how many lines it read and whether it set the stop event |
| InferenceServer.Snapshot | ML/emg-to-pytorch.py:136-148 | a window is copied exactly when at least `INFERENCE_WINDOW` samples were buffered, and it is the newest `INFERENCE_WINDOW` samples |
| InferenceServer.SnapshotEndsWithNewest | ML/emg-to-pytorch.py:148-163 | the copied window has `INFERENCE_WINDOW` samples and its last one is the newest sample, whose timestamp the worker reports |
| InferenceServer.Infer | ML/emg-to-pytorch.py:32-58 | eight channel means, each being the channel's sum of absolute values divided by the row count; the prediction is "Flex" exactly when channel 0's sum exceeds ten times the row count |
| InferenceServer.MeansScaleBack | ML/emg-to-pytorch.py:45 | each channel mean times the number of rows is that channel's sum of absolute values |
| InferenceServer.MeanAboveTen | ML/emg-to-pytorch.py:51 | a mean exceeds 10 exactly when the sum exceeds ten times the count |
| Json.Lookup | ML/emg-to-pytorch.py:95-96 | `dict.get`: None exactly when no member has the name; otherwise the value of the last member with the name, as for a Python dict built from the text |
| Framing.Complete | Unity/emg/Assets/SocketReceiver.cs:119-128 | the complete lines of a stream contain no '\n' |
| Framing.Rest | Unity/emg/Assets/SocketReceiver.cs:130-132 | the carried-over remainder contains no '\n' |
| Framing.FramingUnique | Unity/emg/Assets/SocketReceiver.cs:116-132 | framing is the unique split into '\n'-free terminated lines and a '\n'-free rest: any stream built that way frames back to the same lines and rest |
| Framing.FramingConserves | Unity/emg/Assets/SocketReceiver.cs:116-132 | no text is lost or invented: the terminated complete lines followed by the rest are the stream itself |
| Framing.FramingSplits | Unity/emg/Assets/SocketReceiver.cs:115-132 | framing `a + b` gives the lines of `a`, then the lines of `a`'s rest followed by `b`, and the same final rest, so where a read boundary falls does not matter |
| Framing.FirstEmpty | Unity/emg/Assets/SocketReceiver.cs:109-139 | the index of the first empty read (the peer closed the connection) or the number of reads: every earlier read is non-empty, and the read at that index is empty |
| Framing.FeedFramesConcat | data_transmission/simple_receiver.py:55-59 | feeding reads one by one, each appended to the remainder and framed, gives exactly the lines and rest of framing the concatenated stream in one go |
| SocketReceiver.PacketText | Unity/emg/Assets/SocketReceiver.cs:19-22 | `DataPacket.ToString`: the text starts with the prefix and the label, ends with the confidence numeral and the `%]` suffix, and its length is the sum of the parts |
| SocketReceiver.PacketsAreDecodedLines | Unity/emg/Assets/SocketReceiver.cs:122-128 | a packet is queued exactly when some non-empty complete line decodes to it |
| SocketReceiver.PacketsAppend | Unity/emg/Assets/SocketReceiver.cs:122-128 | the packets of two runs of lines are the packets of the first run followed by those of the second |
| SocketReceiver.ChunkBoundariesDoNotMatter | Unity/emg/Assets/SocketReceiver.cs:109-132 | two sequences of byte reads whose per-read UTF-8 decodings concatenate to the same text queue the same packets and leave the same remainder |
| SocketReceiver.Receiver.constructor | Unity/emg/Assets/SocketReceiver.cs:37-48 | the receiver starts with an empty remainder, an empty queue and nothing applied |
| SocketReceiver.Receiver.ParseAndQueue | Unity/emg/Assets/SocketReceiver.cs:247-266 | a message that decodes adds its packet to the queue; one that fails to decode is dropped; nothing else changes |
| SocketReceiver.Receiver.OnDatagram | Unity/emg/Assets/SocketReceiver.cs:220-227 | one UDP datagram is decoded and queued as one whole message |
| SocketReceiver.Receiver.OnChunk | Unity/emg/Assets/SocketReceiver.cs:111-133 | one TCP read of bytes, decoded as UTF-8 on its own: the remainder becomes the text after the last '\n' of remainder plus decoded chunk; the queue gains the packets of the complete non-empty lines, in order |
| SocketReceiver.Receiver.ReadLoop | Unity/emg/Assets/SocketReceiver.cs:104-153 | byte reads are handled in order up to the first empty one; the remainder and the queue are those of feeding the per-read decodings of exactly the reads handled; nothing is applied |
| SocketReceiver.Receiver.Update | Unity/emg/Assets/SocketReceiver.cs:269-282 | the frame update applies every queued packet oldest first and empties the queue |
| SocketReceiver.FeedSnoc | Unity/emg/Assets/SocketReceiver.cs:113-132 | feeding one more read appends the complete lines of the old remainder plus the read and moves the remainder on |
| SocketReceiver.FedUpToIsFeed | Unity/emg/Assets/SocketReceiver.cs:104-153 | reading one chunk at a time frames as feeding the same reads in one go |
| SocketReceiver.TcpQueueIsFramedStream | Unity/emg/Assets/SocketReceiver.cs:104-153 | over a whole connection the queue receives exactly the decoded non-empty lines of the concatenated text, and the remainder is that text after its last '\n' |
| SimpleReceiver.Get | data_transmission/simple_receiver.py:67-69 | `dict.get(key, default)`: the default when no member has the name, otherwise a value bound to the name |
| SimpleReceiver.ReportOf | data_transmission/simple_receiver.py:66-74 | a missing `sample` reports the zero-based count `sample_count - 1`, a missing `timestamp` 0, missing readings an empty list; present members are reported as given |
| SimpleReceiver.Step | data_transmission/simple_receiver.py:61-85 | one complete line: a blank line and a decode error change nothing; a decoded line is counted; at most one report is added and earlier reports are kept; a halted session is left unchanged |
| SimpleReceiver.HandleAppend | data_transmission/simple_receiver.py:58-78 | handling two runs of lines is handling the second from the state the first leaves |
| SimpleReceiver.HaltedStays | data_transmission/simple_receiver.py:83-85 | once an exception has ended the loop, no further line changes anything |
| SimpleReceiver.CountIsDecodedLines | data_transmission/simple_receiver.py:61-66 | while the loop runs, the counter grows by exactly the number of non-blank lines that decode, and there are never more reports than counted lines |
| SimpleReceiver.HaltIgnoresLaterText | data_transmission/simple_receiver.py:83-85 | text after a halt is never looked at: the session depends only on the text up to the halt |
| SimpleReceiver.CutLines | data_transmission/simple_receiver.py:58-59 | cutting lines off the front of the buffer handles exactly its complete lines, and unless an exception ends the loop the buffer keeps only the text after its last '\n' |
| SimpleReceiver.Texts | data_transmission/simple_receiver.py:48 | the reads decoded one by one as UTF-8, stopping at the first read that does not decode: every text is its read's decoding and the read after the last text fails to decode |
| SimpleReceiver.Receive | data_transmission/simple_receiver.py:42-87 | the counter and reports are the handling of the complete lines of the decoded text consumed; the loop halts exactly when a line raised or a read failed to decode; without a halt every read up to the first empty one is consumed and the buffer holds the unterminated tail; the loop ends on an empty read exactly when it did not halt before the reads ran out |
| SimpleReceiver.SplitLines | data_transmission/simple_receiver.py:55-59 | appending a read to the buffer: the old complete lines, then the lines of the old rest plus the read, handled in that order |
| SimpleReceiver.CutLine | data_transmission/simple_receiver.py:59 | `buffer.split('\n', 1)` keeps the stream: the lines cut so far, each with its '\n', followed by the buffer are the text read |
| EmgLine.RunLength | myo/samples/run_emg_logger.py:21 | the leading run that `[^\]]+` can consume: it holds no ']' and stops at a ']' or at the end |
| EmgLine.FindAll | myo/samples/run_emg_logger.py:21-22 | every group `re.findall` returns is non-empty and holds no ']' |
| EmgLine.FindAllSkips | myo/samples/run_emg_logger.py:21-22 | text without an opening bracket contributes no match |
| EmgLine.FindAllGroup | myo/samples/run_emg_logger.py:21-22 | a bracketed non-empty run without ']' is matched as one group, and scanning resumes after its ']' |
| EmgLine.WithoutUnderscores | myo/samples/run_emg_logger.py:26 | the digits of a numeral with its underscores left out; a plain digit string is unchanged |
| EmgLine.ParseIntAccepts | myo/samples/run_emg_logger.py:26 | Python's `int` on a string accepts exactly an optional sign followed by underscore-separated digit groups, and plain digits keep their decimal value |
| EmgLine.ParseIntOfNumeral | myo/samples/run_emg_logger.py:26 | every integer written as a numeral reads back as itself |
| EmgLine.AllPresent | myo/samples/run_emg_logger.py:25-29 | the list comprehension succeeds exactly when every entry reads, and then holds the entries' values in order |
| EmgLine.ParseGroups | myo/samples/run_emg_logger.py:25-29 | every group is read as an integer after stripping, or the whole parse fails (the `ValueError` branch) when one does not read |
| EmgLine.ParseEmgLine | myo/samples/run_emg_logger.py:15-30 | `parse_emg_line` gives readings exactly when the line has 8 bracket groups that all read as integers once stripped, and then the 8 readings in group order |
| EmgLine.Spaces | myo/samples/emg-to-csv.cpp:82-88 | a run of `n` spaces |
| EmgLine.PaddedAllIndex | myo/samples/emg-to-csv.cpp:82-88 | the k-th console cell holds the k-th reading's padded numeral |
| EmgLine.PaddedReads | myo/samples/run_emg_logger.py:26 | a numeral padded with spaces reads back as the reading after `strip` |
| EmgLine.PaddedHasNoBracket | myo/samples/run_emg_logger.py:21 | a padded numeral is non-empty and has no ']', so the pattern takes it as one group |
| EmgLine.NumeralShape | myo/samples/emg-to-csv.cpp:82-88 | a numeral is a minus sign and digits and ends in a digit |
| EmgLine.GroupsOfBracketed | myo/samples/run_emg_logger.py:21-22 | the groups found in bracketed readings between bracket-free texts are the padded numerals, in order |
| EmgLine.ParsePadded | myo/samples/run_emg_logger.py:25-27 | padded numerals read back as their readings |
| EmgLine.ParseBracketed | myo/samples/run_emg_logger.py:15-30 | round trip with the collector's console output: 8 readings written as `[v   ]` cells, with any text without '[' around them, parse back to the same readings |
| RunEmgLogger.Clamp | myo/samples/run_emg_logger.py:50 | the clamped value lies in [-100, 100], equals the reading inside that range and the nearer bound outside it |
| RunEmgLogger.Bar | myo/samples/run_emg_logger.py:61-71 | the bar has 201 cells and each is the cell the branch chain picks for its position |
| RunEmgLogger.FilledNegative | myo/samples/run_emg_logger.py:64-65 | for a negative reading the filled cells among the first `n` are those from the reading's position up to the centre |
| RunEmgLogger.FilledPositive | myo/samples/run_emg_logger.py:66-67 | for a positive reading the filled cells among the first `n` are those after the centre up to the reading's position |
| RunEmgLogger.FilledZero | myo/samples/run_emg_logger.py:68-71 | a zero reading fills no cell |
| RunEmgLogger.BarShowsMagnitude | myo/samples/run_emg_logger.py:49-72 | the bar shows the clamped magnitude: exactly that many '=' cells, only on the side of the centre that matches the sign, and the centre cell is always the marker |
| RunEmgLogger.BarText | myo/samples/run_emg_logger.py:60-72 | the printed bar has 201 cells, each the one the branch chain picks |
| RunEmgLogger.ChannelLines | myo/samples/run_emg_logger.py:46-72 | one line per channel, in channel order, each with that channel's reading and bar |
| RunEmgLogger.ScreenLayout | myo/samples/run_emg_logger.py:36-75 | the screen has 14 lines: the title after the clear sequence, the sample counter, a rule, a blank, the 8 channel lines in order, a blank and the scale |
| RunEmgLogger.Display | myo/samples/run_emg_logger.py:32-76 | `display_emg_data` prints exactly the screen of the readings and the sample count |
| RunEmgLogger.RowFields | myo/samples/run_emg_logger.py:148-149 | `csv.writer` writes each integer of a row as its decimal numeral, one field per value |
| RunEmgLogger.LoggedBy | myo/samples/run_emg_logger.py:139-155 | a read logs at most one sample, and one exactly when its line is non-empty and parses; the sample holds the clock reading and the 8 readings |
| RunEmgLogger.LoggedUpTo | myo/samples/run_emg_logger.py:134-155 | every sample logged by the first `n` reads has 8 readings |
| RunEmgLogger.LoggedSamples | myo/samples/run_emg_logger.py:134-155 | every sample logged before the end of output has 8 readings |
| RunEmgLogger.RowsOf | myo/samples/run_emg_logger.py:148 | one row per logged sample, in order |
| RunEmgLogger.EndOf | myo/samples/run_emg_logger.py:135-137 | the loop ends at the first read that is empty after the process has exited; no earlier read ends it |
| RunEmgLogger.LoggedAreParsedReads | myo/samples/run_emg_logger.py:134-155 | a sample is logged by the first `n` reads exactly when one of them has a non-empty line that parses to its readings, stamped with that read's clock |
| RunEmgLogger.LogSample | myo/samples/run_emg_logger.py:145-155 | one parsed sample writes its CSV record and refreshes the screen with its readings and the new count |
| RunEmgLogger.Run | myo/samples/run_emg_logger.py:104-183 | the CSV file holds the header and one row per logged sample; the sample count, the last readings and the last screen are those of the samples logged before the end of output |
| RunEmgLogger.LastScreen | myo/samples/run_emg_logger.py:153-155 | a screen is left exactly when at least one sample was logged |
| RunEmgLogger.LoggedSnoc | myo/samples/run_emg_logger.py:148-155 | logging one more sample appends its row and makes its readings and screen the last ones |
| RunEmgLogger.RowsMatchHeader | myo/samples/run_emg_logger.py:108-109 | every logged row has 9 fields like the header: the elapsed time followed by the 8 readings |
| EmgVisualizer.Trunc | myo/samples/emg_visualizer.py:79 | `int(x)` truncates toward zero |
| EmgVisualizer.SampleOf | myo/samples/emg_visualizer.py:71-88 | a read contributes at most one sample, and one exactly when its line is non-empty and parses |
| EmgVisualizer.EndOf | myo/samples/emg_visualizer.py:66-69 | the loop ends at the first read that is empty after the process has exited; no earlier read ends it |
| EmgVisualizer.ParsedUpTo | myo/samples/emg_visualizer.py:66-88 | every sample parsed from the first `n` reads has 8 readings |
| EmgVisualizer.ParsedSamples | myo/samples/emg_visualizer.py:66-88 | every sample parsed before the end of output has 8 readings |
| EmgVisualizer.RowsOf | myo/samples/emg_visualizer.py:79 | one CSV row per sample, in order |
| EmgVisualizer.Times | myo/samples/emg_visualizer.py:85 | the elapsed times of the samples, in order |
| EmgVisualizer.Column | myo/samples/emg_visualizer.py:86-87 | reading `c` of every sample, in order |
| EmgVisualizer.SamplesSnoc | myo/samples/emg_visualizer.py:79-87 | one more sample appends its row, its time and each of its readings to its channel's column |
| EmgVisualizer.RecordKeepsTracking | myo/samples/emg_visualizer.py:84-88 | appending one sample to every history and counting it keeps the histories tracking the recorded samples |
| EmgVisualizer.Plot.constructor | myo/samples/emg_visualizer.py:20-25 | empty histories for the times and the 8 channels, and a zero count |
| EmgVisualizer.Plot.Record | myo/samples/emg_visualizer.py:84-88 | the time deque and each channel deque gain the sample's entry, keeping their newest 1000; the count grows by one |
| EmgVisualizer.Plot.ReadOne | myo/samples/emg_visualizer.py:71-88 | a read whose line parses writes one CSV row and records the sample; any other read changes nothing |
| EmgVisualizer.Plot.ReadLoop | myo/samples/emg_visualizer.py:66-89 | the reader records exactly the samples parsed before the end of output and writes their CSV rows in order |
| EmgVisualizer.RowsAppend | myo/samples/emg_visualizer.py:79-81 | appending at most one sample appends its record to the CSV text |
| EmgVisualizer.Lockstep | myo/samples/emg_visualizer.py:20-25 | the time deque and all 8 channel deques have the same length, min(count, 1000), and entry `k` of each belongs to the same sample among the newest 1000 |
| SampleText.Fixed6Denotes | myo/samples/emg-to-csv.cpp:59 | `std::fixed << std::setprecision(6)`: digits, a point and exactly six digits that together denote the elapsed time in microseconds |
| SampleText.FractionDigits | myo/samples/emg-to-csv.cpp:59 | the fraction is the remainder's numeral padded with zeros to six digits, keeping its value |
| SampleText.Numerals | myo/samples/emg-to-csv.cpp:61-63 | `static_cast<int>(emg[i])` written for every reading, in channel order |
| SampleText.WrittenRows | myo/samples/emg-to-csv.cpp:46-73 | one row per sample received |
| SampleText.WrittenRowsSnoc | myo/samples/emg-to-csv.cpp:58-72 | one more sample writes one more row, numbered by the count of samples before it |
| SampleText.WrittenRowsIndex | myo/samples/emg-to-csv.cpp:58-72 | row `k` is the row of sample `k`, with sample number `k` |
| SampleText.CsvHeaderColumns | myo/samples/emg-to-csv.cpp:27 | the header ends in a newline and splits on commas into its ten column names |
| SampleText.CsvRowColumns | myo/samples/emg-to-csv.cpp:59-64 | a row ends in a newline and splits on commas back into its fields; eight readings give one field per header column |
| SampleText.CellWidth | myo/samples/emg-to-csv.cpp:82-88 | an `int8_t` numeral has at most four characters, so `4 - s.size()` never wraps and every console cell is six wide |
| SocketStreamer.SocketSender.constructor | myo/samples/emg-to-pytorch.cpp:33-40 | a new sender keeps host and port, has no socket (-1), is not connected and has sent nothing |
| SocketStreamer.SocketSender.Connect | myo/samples/emg-to-pytorch.cpp:49-93 | true when already connected (socket kept); otherwise true exactly when the socket is created and connects, and then the new handle is kept; the flag equals the answer; nothing is sent |
| SocketStreamer.SocketSender.Disconnect | myo/samples/emg-to-pytorch.cpp:95-105 | afterwards there is no socket and the sender is not connected |
| SocketStreamer.SocketSender.SendData | myo/samples/emg-to-pytorch.cpp:107-132 | succeeds exactly when a connection exists or can be made and `send` does not fail; on success the bytes `send` accepted of `data + "\n"` are sent, on failure the connection is dropped |
| SocketStreamer.Accepted | myo/samples/emg-to-pytorch.cpp:123 | the part of the message a `send` returning `n` took: its first `n` bytes, or all of it |
| SocketStreamer.ReadingItems | myo/samples/emg-to-pytorch.cpp:210-213 | each reading becomes a JSON number written as its decimal numeral |
| SocketStreamer.SampleRecordWellFormed | myo/samples/emg-to-pytorch.cpp:205-214 | the JSON line is a well-formed RFC 8259 object: every number is a section 6 number and no name needs escaping |
| SocketStreamer.TimestampIsNumber | myo/samples/emg-to-pytorch.cpp:207 | the six-decimal elapsed time is a JSON number |
| SocketStreamer.ReadingsAreNumbers | myo/samples/emg-to-pytorch.cpp:209-214 | the readings array is well formed |
| SocketStreamer.ReadingsText | myo/samples/emg-to-pytorch.cpp:209-214 | the readings are written as their numerals, separated by commas, between brackets |
| SocketStreamer.FormatReadings | myo/samples/emg-to-pytorch.cpp:210-213 | the loop writes the numerals with a comma before all but the first |
| SocketStreamer.FormatJsonLine | myo/samples/emg-to-pytorch.cpp:205-214 | the text built is the compact serialisation of the object with `timestamp`, `sample` and `emg` |
| SocketStreamer.DataCollector.constructor | myo/samples/emg-to-pytorch.cpp:149-163 | the collector keeps the sender, shows zero readings, and has written and flushed only the header |
| SocketStreamer.DataCollector.OnUnpair | myo/samples/emg-to-pytorch.cpp:172-175 | the readings shown are reset to zero and nothing else changes |
| SocketStreamer.DataCollector.LogRow | myo/samples/emg-to-pytorch.cpp:179-201 | the CSV half of `onEmgData`: the readings kept, one row numbered by the old count, a flush on multiples of 100, the count incremented |
| SocketStreamer.DataCollector.OnEmgData | myo/samples/emg-to-pytorch.cpp:177-220 | the CSV row as in the plain collector; only while a sender is connected, the JSON line carrying the sample number before the increment is sent, and the connection afterwards is what the send left |
| SocketStreamer.DataCollector.Print | myo/samples/emg-to-pytorch.cpp:223-243 | a carriage return, one cell per reading, and `[TCP:OK]`/`[TCP:--]` exactly when there is a sender |
| SocketStreamer.StoiReadsNumeral | myo/samples/emg-to-pytorch.cpp:270 | `std::stoi` reads back every integer numeral |
| SocketStreamer.ParseArgs | myo/samples/emg-to-pytorch.cpp:257-272 | the settings after scanning the arguments from index 1, or None when `std::stoi` throws |
| SocketStreamer.NoSocketIsFinal | myo/samples/emg-to-pytorch.cpp:265-266 | once `--no-socket` has been seen no later argument turns the socket back on |
| SocketStreamer.PortAndDanglingHost | myo/samples/emg-to-pytorch.cpp:267-271 | `--port N` sets the port to `N`, and a trailing `--host` with no value is ignored |
| CsvLogger.FormatCsvRow | myo/samples/emg-to-csv.cpp:59-64 | the row loop writes the elapsed time, the sample number and the eight readings, comma-separated, ending in a newline |
| CsvLogger.FormatCells | myo/samples/emg-to-csv.cpp:82-88 | the print loop writes one `[v   ]` cell per reading |
| CsvLogger.ReceiveKeepsConsistent | myo/samples/emg-to-csv.cpp:46-73 | one more sample, its row written and the file flushed on a multiple of 100, keeps the collector consistent |
| CsvLogger.UnflushedStep | myo/samples/emg-to-csv.cpp:67-69 | between flushes the unflushed rows count up by one per sample |
| CsvLogger.DataCollector.constructor | myo/samples/emg-to-csv.cpp:19-32 | zero readings shown, no rows, nothing counted |
| CsvLogger.DataCollector.OnUnpair | myo/samples/emg-to-csv.cpp:41-44 | the readings shown are reset to zero and nothing else changes |
| CsvLogger.DataCollector.OnEmgData | myo/samples/emg-to-csv.cpp:46-73 | the readings are kept, one row numbered by the old count is written, the file is flushed when the old count is a multiple of 100, and the count grows by one |
| CsvLogger.DataCollector.Print | myo/samples/emg-to-csv.cpp:76-91 | a carriage return then one cell per reading shown |
| CsvLogger.UnflushedBound | myo/samples/emg-to-csv.cpp:66-72 | at most 99 rows ever wait for a flush, and the rows are numbered 0, 1, 2, ... |
| CsvLogger.Open | myo/samples/emg-to-csv.cpp:19-32 | a collector exists exactly when the file opens, and then it has written the header; otherwise the constructor throws and nothing is written |
| Json.IntIsNumber | myo/samples/emg-to-pytorch.cpp:208-212 | every decimal integer numeral is a JSON number (RFC 8259 section 6) |
| Json.FixedIsNumber | myo/samples/emg-to-pytorch.cpp:207 | an integer part, a point and digits make a JSON number |
| Json.Object3WellFormed | myo/samples/emg-to-pytorch.cpp:206-214 | an object of three members whose names need no escape and whose values are well formed is well formed |
| Json.SerializeArray | myo/samples/emg-to-pytorch.cpp:209-214 | an array is written as its items' texts, comma-separated, between brackets |
| Json.SerializeObject3 | myo/samples/emg-to-pytorch.cpp:206-214 | an object of three members is written as its member texts, comma-separated, between braces |
| EmgPreprocessing.RangeShape | ML/emg_preprocessing.py:64 | `range(start, stop, 50)`: the elements `start + 50k` below `stop`, and how many there are |
| EmgPreprocessing.WindowStartsLaw | ML/emg_preprocessing.py:61-65 | the window starts are 0, 50, 100, ...: exactly the multiples of 50 whose 256-row window fits in the recording |
| EmgPreprocessing.SlidingWindows | ML/emg_preprocessing.py:64-65 | the loop cuts one window of 256 consecutive rows at every such start, in order, each a slice of the data |
| EmgPreprocessing.Column | ML/emg_preprocessing.py:70 | `window[:, ch]`: entry `r` of the column is entry `ch` of row `r` |
| EmgPreprocessing.DropFirstColumn | ML/emg_preprocessing.py:41 | `df.iloc[:, 1:]`: the same rows with every column but the first, shifted left by one |
| EmgPreprocessing.Conditioned | ML/emg_preprocessing.py:41-58 | detrending and filtering keep the table's shape: one row per CSV row, one column fewer than the file |
| EmgPreprocessing.WindowSpectra | ML/emg_preprocessing.py:67-77 | one spectrum per channel, 8 of them |
| EmgPreprocessing.Preprocess | ML/emg_preprocessing.py:27-86 | a missing or unreadable file gives no windows; `filtfilt`'s `ValueError` is the outcome exactly when the table has at most 27 rows (three times the 9 bandpass coefficients); otherwise one entry per window that fits, each the spectra of that window's first 8 columns, and indexing a column beyond the table is the error outcome, reached exactly when a window exists and there are fewer than 8 data columns |
| EmgPreprocessing.Length | ML/emg_preprocessing.py:98-99 | `__len__` is the number of labels |
| EmgPreprocessing.Item | ML/emg_preprocessing.py:101-102 | `__getitem__(idx)` is the pair of feature and label at `idx`, and raises `IndexError` exactly when either is too short |
| EmgPreprocessing.AlignedItems | ML/emg_preprocessing.py:94-102 | with one label per feature, every index below the length gives its feature and label, and every other index raises |
| TrainSingleSubject.LabelOf | ML/train_200.py:35 | `LABELS`: "rest" is 0, "pinch" is 1, and no other name has a label |
| TrainSingleSubject.ColumnIndex | ML/train_200.py:58 | a column is found exactly when the header names it, at a position holding that name |
| TrainSingleSubject.SelectColumns | ML/train_200.py:57-58 | `df[emg_cols]` succeeds exactly when every named column exists, and then holds, for every row, the named columns in the order named |
| TrainSingleSubject.Preprocess | ML/train_200.py:53-93 | raises `KeyError` exactly when an EMG column is missing and `filtfilt`'s `ValueError` exactly when the columns exist but there are at most 27 rows; otherwise one entry per 256-row window every 50 rows, each the spectra of its 8 channels of the conditioned data |
| TrainSingleSubject.Full | ML/train_200.py:153 | `np.full(n, label)`: `n` copies of the label |
| TrainSingleSubject.LabelParts | ML/train_200.py:150-153 | one label per window of each file, that file's label |
| TrainSingleSubject.FlattenIndex | ML/train_200.py:155-156 | `np.concatenate`: element `t` of part `j` sits at that part's offset plus `t` |
| TrainSingleSubject.FlattenSameLength | ML/train_200.py:155-156 | parts of the same lengths concatenate to the same length |
| TrainSingleSubject.LoadFile | ML/train_200.py:150-153 | a file raises `KeyError` exactly when it lacks an EMG column and `ValueError` exactly when it has them but at most 27 rows; otherwise it gives one window per fit and as many copies of its label |
| TrainSingleSubject.Gather | ML/train_200.py:148-156 | the loop raises exactly when some file lacks an EMG column or is too short to filter, and the exception is that of the first such file; a mix of files with and without windows makes `np.concatenate` fail on the dimensions; otherwise the dataset is the concatenated windows with one label per window |
| TrainSingleSubject.LabelsAligned | ML/train_200.py:148-156 | labels stay aligned with windows: window `t` of file `j` and its label sit at the same index of the gathered data, and that label is file `j`'s |
| TrainSingleSubject.TrainCount | ML/train_200.py:169 | `int(0.8 * N)`: the largest count whose five-fold does not exceed `4N` |
| TrainSingleSubject.Iota | ML/train_200.py:168 | the identity permutation 0, 1, ..., n - 1 |
| TrainSingleSubject.SplitPartition | ML/train_200.py:166-170 | splitting a permutation of 0 … n - 1 partitions the indices: none in both parts, each in one, and `int(0.8 * n)` in the training part |
| TrainSingleSubject.Pick | ML/train_200.py:172-173 | `X[idx]`: the rows picked by `idx`, in its order |
| TrainSingleSubject.Agreeing | ML/train_200.py:222 | the agreeing pairs never outnumber the pairs |
| TrainSingleSubject.Score | ML/train_200.py:212-227 | the epoch loop counts every pair as `total` and the agreeing ones as `correct`, and collects predictions and labels in batch order |
| TrainSingleSubject.Accuracy | ML/train_200.py:208-227 | `correct / total` lies in [0, 1] and scales back to `correct`; an empty loader is the `ZeroDivisionError` |
| TrainSingleSubject.TrackBest | ML/train_200.py:186-234 | the kept accuracy is the highest (or 0), predictions are kept exactly when some epoch beat 0, and they are those of the first epoch that reached the highest accuracy |
| Text.NatToString | myo/samples/emg-to-csv.cpp:60 | the shortest decimal numeral: digits only, no leading zero |
| Text.NatToStringValue | myo/samples/emg-to-csv.cpp:60 | a numeral denotes its number |
| Text.IntToString | myo/samples/emg-to-csv.cpp:62 | a numeral starts with '-' exactly when the integer is negative |
| Text.NatToStringLength | myo/samples/emg-to-csv.cpp:84-87 | numerals of small numbers are short, which bounds the width of a printed `int8_t` |
| Text.PadRight | myo/samples/emg-to-csv.cpp:87 | the text followed by copies of the pad character up to the width; the text itself is kept |
| Text.PadLeft | myo/samples/emg-to-csv.cpp:59 | copies of the pad character then the text, up to the width; the text itself is kept |
| Text.Split | Unity/emg/Assets/SocketReceiver.cs:119 | `string.Split` always gives at least one piece |
| Text.SplitPiecesHaveNoSep | Unity/emg/Assets/SocketReceiver.cs:119 | no piece contains the separator |
| Text.JoinSplit | Unity/emg/Assets/SocketReceiver.cs:119 | joining the pieces with the separator gives the string back |
| Text.SplitJoin | Unity/emg/Assets/SocketReceiver.cs:119 | splitting a join of separator-free pieces gives the pieces back |
| Text.IndexOf | data_transmission/simple_receiver.py:58-59 | the first occurrence of the character: found exactly when present, and no earlier occurrence |
| Text.TrimStart | myo/samples/emg-to-pytorch.cpp:270 | `std::stoi` skips exactly the leading C whitespace |
| Text.PyTrimStart | data_transmission/simple_receiver.py:61 | `str.lstrip()` removes exactly the leading Python whitespace |
| Text.PyTrimEnd | data_transmission/simple_receiver.py:61 | `str.rstrip()` removes exactly the trailing Python whitespace |
| Text.StripSurrounded | myo/samples/run_emg_logger.py:26 | `str.strip()` removes exactly the surrounding whitespace: text that neither starts nor ends with whitespace comes back unchanged |
| LayerManager.Without | Unity/emg/Library/PackageCache/com.unity.xr.compositionlayers@437b07576726/Runtime/Services/CompositionLayerManager.cs:486-487 | `List.Remove(x)`: unchanged when `x` is absent, otherwise one element shorter; no element is invented and every other element is kept |
| LayerManager.WithoutNoDup | Unity/emg/Library/PackageCache/com.unity.xr.compositionlayers@437b07576726/Runtime/Services/CompositionLayerManager.cs:516-521 | in a duplicate-free list, removing `x` removes it entirely and keeps the list duplicate-free |
| LayerManager.Layer.constructor | Unity/emg/Library/PackageCache/com.unity.xr.compositionlayers@437b07576726/Runtime/CompositionLayer.cs:41-71 | a new layer component has its id, order 1 and an uninitialized order flag, and is not yet active |
| LayerManager.LayerSorter | Unity/emg/Library/PackageCache/com.unity.xr.compositionlayers@437b07576726/Runtime/Services/CompositionLayerManager.cs:367-376 | the comparison is negative exactly when the left layer has the lower order, or the same order and the lower instance id; zero exactly when both agree; its sign is -1, 0 or 1 |
| LayerManager.LayerSorterIsOrder | Unity/emg/Library/PackageCache/com.unity.xr.compositionlayers@437b07576726/Runtime/Services/CompositionLayerManager.cs:367-376 | the manager's comparer is antisymmetric and transitive, so sorting by it is well defined |
| LayerManager.CompositionLayerManager.constructor | Unity/emg/Library/PackageCache/com.unity.xr.compositionlayers@437b07576726/Runtime/Services/CompositionLayerManager.cs:167-173 | a started manager knows no layer and has every list and the occupied table empty |
| LayerManager.CompositionLayerManager.ClearSingleShotState | Unity/emg/Library/PackageCache/com.unity.xr.compositionlayers@437b07576726/Runtime/Services/CompositionLayerManager.cs:360-365 | Created, Removed and Modified are emptied; Known, Active and the occupied table are kept |
| LayerManager.CompositionLayerManager.ClearAllState | Unity/emg/Library/PackageCache/com.unity.xr.compositionlayers@437b07576726/Runtime/Services/CompositionLayerManager.cs:350-358 | every list and the occupied table are emptied |
| LayerManager.CompositionLayerManager.CompositionLayerStateChanged | Unity/emg/Library/PackageCache/com.unity.xr.compositionlayers@437b07576726/Runtime/Services/CompositionLayerManager.cs:547-571 | a known layer that is not in Created, Removed or Modified is appended to Modified; otherwise nothing changes |
| LayerManager.CompositionLayerManager.CompositionLayerCreated | Unity/emg/Library/PackageCache/com.unity.xr.compositionlayers@437b07576726/Runtime/Services/CompositionLayerManager.cs:384-422 | a known layer is registered again and nothing else happens; an unknown layer is added to Known and Created once, and the fallback step then leaves order 0 held or the default scene layer known; Known gains at most the layer and the default scene layer, and Removed and Active are kept |
| LayerManager.CompositionLayerManager.RegisterLayer | Unity/emg/Library/PackageCache/com.unity.xr.compositionlayers@437b07576726/Runtime/Services/CompositionLayerManager.cs:384-417 | a free order is recorded as held by the layer; an order held by another layer moves the layer to the next unused order; an order the layer holds already changes nothing; an unknown layer joins Known and Created, and Removed, Active and the default layer are kept |
| LayerManager.CompositionLayerManager.EnsureFallbackSceneCompositionLayer | Unity/emg/Library/PackageCache/com.unity.xr.compositionlayers@437b07576726/Runtime/Services/CompositionLayerManager.cs:328-348 | nothing happens while no order or order 0 is occupied; an existing default scene layer is registered (created once, the order it ends on held by it); otherwise a fresh layer with default layer data is set to order 0, becomes the default, and order 0 is recorded as held by it with nothing else changed |
| LayerManager.CompositionLayerManager.CompositionLayerEnabled | Unity/emg/Library/PackageCache/com.unity.xr.compositionlayers@437b07576726/Runtime/Services/CompositionLayerManager.cs:438-460 | an unknown layer is created first; the layer ends known and Active gains it once; for a known layer Modified gains it only when in neither Created nor Modified, its order is recorded as held when free, and Known, Created and its order are kept |
| LayerManager.CompositionLayerManager.MarkEnabled | Unity/emg/Library/PackageCache/com.unity.xr.compositionlayers@437b07576726/Runtime/Services/CompositionLayerManager.cs:445-457 | Active gains the layer once; Modified gains it only when in neither Created nor Modified; its order is recorded as held by it when free |
| LayerManager.CompositionLayerManager.CompositionLayerDisabled | Unity/emg/Library/PackageCache/com.unity.xr.compositionlayers@437b07576726/Runtime/Services/CompositionLayerManager.cs:475-493 | an unknown layer is ignored; otherwise it leaves Active and is appended to Modified if absent |
| LayerManager.CompositionLayerManager.CompositionLayerDestroyed | Unity/emg/Library/PackageCache/com.unity.xr.compositionlayers@437b07576726/Runtime/Services/CompositionLayerManager.cs:508-540 | a known layer leaves Known, Created, Active and Modified and its id is appended to Removed; its order is freed only if it holds it; when no active layer is left and no layer is in a scene the manager stops with its state cleared |
| LayerManager.AheadStep | Unity/emg/Library/PackageCache/com.unity.xr.compositionlayers@437b07576726/Runtime/Services/CompositionLayerManager.cs:786-792 | one step of the search never adds orders ahead of it and passing an occupied order removes one, so the search terminates |
| LayerManager.SearchFinds | Unity/emg/Library/PackageCache/com.unity.xr.compositionlayers@437b07576726/Runtime/Services/CompositionLayerManager.cs:786-794 | the search ends on the first order in its direction that is neither occupied nor 0; every order it passes is occupied or 0 |
| LayerManager.GetNextUnusedLayer | Unity/emg/Library/PackageCache/com.unity.xr.compositionlayers@437b07576726/Runtime/Services/CompositionLayerManager.cs:778-795 | 0 starts at ±1; with no manager the start is returned unsearched; otherwise the first order from the start, upward for overlays and downward otherwise, that is neither occupied nor 0 |
| LayerManager.NextUnusedLayer | Unity/emg/Library/PackageCache/com.unity.xr.compositionlayers@437b07576726/Runtime/Services/CompositionLayerManager.cs:760-763 | the one-argument form searches upward from orders above -1 and downward otherwise, ending on a free non-zero order |
| LayerManager.GetFirstUnusedLayer | Unity/emg/Library/PackageCache/com.unity.xr.compositionlayers@437b07576726/Runtime/Services/CompositionLayerManager.cs:736-739 | the first free order from 1 upward, or from -1 downward; every order passed is occupied |
| LayerManager.CanChangeOrderToLaw | Unity/emg/Library/PackageCache/com.unity.xr.compositionlayers@437b07576726/Runtime/Services/CompositionLayerUtils.cs:322-334 | with a manager and a valid scene, order 0 is allowed exactly to layers with default layer data, and another order exactly when it is free or held by the layer |
| LayerManager.CleanedUpFacts | Unity/emg/Library/PackageCache/com.unity.xr.compositionlayers@437b07576726/Runtime/Services/CompositionLayerUtils.cs:241-261 | a clean-up only removes entries held by the layer, never the kept order, and at most one of them |
| LayerManager.CleanUpExtraInstancesOfLayer | Unity/emg/Library/PackageCache/com.unity.xr.compositionlayers@437b07576726/Runtime/Services/CompositionLayerUtils.cs:241-261 | the table after the clean-up is the old table with at most one other order held by the layer removed |
| LayerManager.Vacate | Unity/emg/Library/PackageCache/com.unity.xr.compositionlayers@437b07576726/Runtime/Services/CompositionLayerUtils.cs:221-222 | the old order is removed exactly when the layer holds it; every other entry is kept |
| LayerManager.SetLayerOrder | Unity/emg/Library/PackageCache/com.unity.xr.compositionlayers@437b07576726/Runtime/Services/CompositionLayerUtils.cs:308-314 | the order becomes the value; at run time the order is marked initialized; a changed value reports a state change to the manager |
| LayerManager.ReportStateChange | Unity/emg/Library/PackageCache/com.unity.xr.compositionlayers@437b07576726/Runtime/CompositionLayer.cs:249-253 | an active and enabled layer notifies an active manager, which marks it modified by the state-change rule; nothing else changes |
| LayerManager.PlaceAfterCleanUp | Unity/emg/Library/PackageCache/com.unity.xr.compositionlayers@437b07576726/Runtime/Services/CompositionLayerUtils.cs:224-236 | after a clean-up that kept an order, that order is held by another layer exactly when it was before; otherwise placing the layer there makes the layer hold it |
| LayerManager.KeepOrder | Unity/emg/Library/PackageCache/com.unity.xr.compositionlayers@437b07576726/Runtime/Services/CompositionLayerUtils.cs:192-216 | keeping the same order fails exactly when another layer holds it; otherwise the layer ends holding it, with at most one stale entry of the layer removed |
| LayerManager.MoveOrder | Unity/emg/Library/PackageCache/com.unity.xr.compositionlayers@437b07576726/Runtime/Services/CompositionLayerUtils.cs:218-238 | an allowed change releases the old order if the layer holds it, cleans up, then fails only if another layer holds the new order; on success the layer holds the new order |
| LayerManager.TryChangeLayerOrder | Unity/emg/Library/PackageCache/com.unity.xr.compositionlayers@437b07576726/Runtime/Services/CompositionLayerUtils.cs:178-239 | with no manager or outside a valid scene the order is set and the call succeeds; otherwise same-order and changing-order calls succeed exactly as the table allows; on success the layer has the new order and holds it in the table, on failure its order is unchanged |
| LayerManager.MoveIntoFree | Unity/emg/Library/PackageCache/com.unity.xr.compositionlayers@437b07576726/Runtime/Services/CompositionLayerUtils.cs:218-236 | an allowed move into a free order succeeds, the layer then holds it, and the entries of other layers are kept |
| LayerManager.OrderChangeFrame | Unity/emg/Library/PackageCache/com.unity.xr.compositionlayers@437b07576726/Runtime/Services/CompositionLayerUtils.cs:178-239 | whatever `TryChangeLayerOrder` does to the table, it touches only the layer's own entries |
| LayerManager.TakeFreeOrder | Unity/emg/Library/PackageCache/com.unity.xr.compositionlayers@437b07576726/Runtime/Services/CompositionLayerUtils.cs:232-236 | a layer holding no entry that asks for a free order it may take gets exactly that entry added |
| LayerManager.TrySwapLayers | Unity/emg/Library/PackageCache/com.unity.xr.compositionlayers@437b07576726/Runtime/Services/CompositionLayerUtils.cs:276-306 | as written: the guards (same layer, no manager, invalid scene, default scene layer, unoccupied or foreign slots) decide the answer; both orders are released and each layer is given the other's order through the setter; the answer stays true even when a setter refused |
| LayerManager.TrySwapLayersChecked | Unity/emg/Library/PackageCache/com.unity.xr.compositionlayers@437b07576726/Runtime/Services/CompositionLayerUtils.cs:276-306 | corrected: succeeds only when both moves are allowed; then the orders are exchanged and each layer holds its new order in the table; otherwise nothing changes |
| LayerDescriptors.RegisterLaw | Unity/emg/Library/PackageCache/com.unity.xr.compositionlayers@437b07576726/Runtime/Services/CompositionLayerUtils.cs:56-59 | registering descriptors succeeds exactly when their full names are distinct; the registry then maps each full name to its descriptor and holds no other key |
| LayerDescriptors.PendingFrom | Unity/emg/Library/PackageCache/com.unity.xr.compositionlayers@437b07576726/Runtime/Services/CompositionLayerUtils.cs:25-54 | every descriptor built by the static constructor describes one attribute of one scanned layer-data type |
| LayerDescriptors.PendingCovers | Unity/emg/Library/PackageCache/com.unity.xr.compositionlayers@437b07576726/Runtime/Services/CompositionLayerUtils.cs:25-54 | every attribute of every scanned type has its descriptor built |
| LayerDescriptors.RegisterLayerDescriptors | Unity/emg/Library/PackageCache/com.unity.xr.compositionlayers@437b07576726/Runtime/Services/CompositionLayerUtils.cs:20-62 | the static constructor's registry is the registration of every type's descriptors, in scan order, or the thrown state |
| LayerDescriptors.LookupLaw | Unity/emg/Library/PackageCache/com.unity.xr.compositionlayers@437b07576726/Runtime/Services/CompositionLayerUtils.cs:82-91 | `GetLayerDescriptor` gives `Empty` for a null or empty name; otherwise it gives a real descriptor exactly when a scanned type of that full name carries the attribute, and that descriptor is built from one of its attributes |
| LayerDescriptors.ThrownStays | Unity/emg/Library/PackageCache/com.unity.xr.compositionlayers@437b07576726/Runtime/Services/CompositionLayerUtils.cs:56-57 | once registration has thrown, no later descriptor undoes it |
| LayerDescriptors.AddExisting | Unity/emg/Library/PackageCache/com.unity.xr.compositionlayers@437b07576726/Runtime/Services/CompositionLayerUtils.cs:56-57 | adding a descriptor whose full name is already registered throws |
| LayerDescriptors.DuplicateThrows | Unity/emg/Library/PackageCache/com.unity.xr.compositionlayers@437b07576726/Runtime/Services/CompositionLayerUtils.cs:25-59 | two attributed types with the same full name make the static constructor throw |
| LayerEditor.NameListsLaw | Unity/emg/Library/PackageCache/com.unity.xr.compositionlayers@437b07576726/Editor/Layers/CompositionLayerEditorUtils.cs:36-48 | a full name is in `LayerNames` exactly when a descriptor that is not hidden has it, in `UILayerNames` exactly when a Quad or Cylinder descriptor has it, and every UI name is also a layer name |
| LayerEditor.HiddenNotListed | Unity/emg/Library/PackageCache/com.unity.xr.compositionlayers@437b07576726/Editor/Layers/CompositionLayerEditorUtils.cs:40-45 | projection-rig and default layer data are never listed, and the UI list holds only Quad and Cylinder |
| LayerEditor.CompositionLayerEditorUtils.constructor | Unity/emg/Library/PackageCache/com.unity.xr.compositionlayers@437b07576726/Editor/Layers/CompositionLayerEditorUtils.cs:30-48 | the static constructor fills both name lists from the registry and leaves the sorted layers empty |
| LayerEditor.CompositionLayerEditorUtils.GetKnownOccupiedLayersFromManager | Unity/emg/Library/PackageCache/com.unity.xr.compositionlayers@437b07576726/Editor/Layers/CompositionLayerEditorUtils.cs:235-245 | with no manager the list is emptied; otherwise it holds each occupying layer, one per table entry, sorted by ascending order |
| LayerEditor.OccupiedValues | Unity/emg/Library/PackageCache/com.unity.xr.compositionlayers@437b07576726/Runtime/Services/CompositionLayerManager.cs:696-702 | `GetOccupiedLayers` yields one layer per table entry, and exactly the occupying layers |
| LayerEditor.InsertByOrder | Unity/emg/Library/PackageCache/com.unity.xr.compositionlayers@437b07576726/Editor/Layers/CompositionLayerEditorUtils.cs:244 | inserting after every layer of no greater order keeps the list sorted and adds exactly that layer |
| LayerEditor.SortByOrder | Unity/emg/Library/PackageCache/com.unity.xr.compositionlayers@437b07576726/Editor/Layers/CompositionLayerEditorUtils.cs:244 | the sort of the occupied layers is a permutation that is sorted by order |
| LayerEditor.EditorLayerSorterNotAntisymmetric | Unity/emg/Library/PackageCache/com.unity.xr.compositionlayers@437b07576726/Editor/Layers/CompositionLayerEditorUtils.cs:247-252 | as written the comparer answers 1 for equal orders, so a layer compares greater than itself |
| LayerEditor.EditorLayerSorterFixed | Unity/emg/Library/PackageCache/com.unity.xr.compositionlayers@437b07576726/Editor/Layers/CompositionLayerEditorUtils.cs:247-252 | corrected: the result is 0 exactly for equal orders and negative exactly for a lower left order |
| LayerEditor.EditorLayerSorterFixedIsOrder | Unity/emg/Library/PackageCache/com.unity.xr.compositionlayers@437b07576726/Editor/Layers/CompositionLayerEditorUtils.cs:247-252 | corrected comparer agrees with the written one except on equal orders and is antisymmetric and transitive |
| LayerEditor.SortedAgreesWithSorter | Unity/emg/Library/PackageCache/com.unity.xr.compositionlayers@437b07576726/Editor/Layers/CompositionLayerEditorUtils.cs:244-252 | a list sorted by order is ordered by the corrected comparer |
| LayerEditor.FormattedNameLaw | Unity/emg/Library/PackageCache/com.unity.xr.compositionlayers@437b07576726/Editor/Layers/CompositionLayerEditorUtils.cs:209-233 | `GetFormattedLayerName` is "[Empty]" for a null or empty name, "(UnKnown) - " and the name for an unregistered type, and otherwise the descriptor's name, prefixed by its provider and " - " unless the provider is "Unity", and by "! " unless the type is supported on every platform |
| LayerEditor.SetOrderInEditor | Unity/emg/Library/PackageCache/com.unity.xr.compositionlayers@437b07576726/Editor/Layers/CompositionLayerEditorUtils.cs:254-264 | tries the new order, then the old one, then the next unused order after the new one; with no manager or outside a valid scene the first try succeeds; otherwise the layer ends holding its order, other layers' entries are kept, and a free or own requested order is taken |
| LayerEditor.IndexOf | Unity/emg/Library/PackageCache/com.unity.xr.compositionlayers@437b07576726/Editor/Layers/CompositionLayersWindow.cs:76 | `List.IndexOf`: the first index of the element, or -1 exactly when absent |
| LayerEditor.TargetsLaw | Unity/emg/Library/PackageCache/com.unity.xr.compositionlayers@437b07576726/Editor/Layers/CompositionLayersWindow.cs:76-81 | the target orders `i - pivot` are consecutive, 0 for the default scene layer, negative before it and positive after it, and `i + 1` when it is not listed |
| LayerEditor.ReorderOne | Unity/emg/Library/PackageCache/com.unity.xr.compositionlayers@437b07576726/Editor/Layers/CompositionLayersWindow.cs:79-81 | one step of the reorder pass sends layer `i` to order `i - pivot` and keeps the pass's invariant |
| LayerEditor.OnReorderCallback | Unity/emg/Library/PackageCache/com.unity.xr.compositionlayers@437b07576726/Editor/Layers/CompositionLayersWindow.cs:71-85 | the occupied table is cleared and refilled only with listed layers; with no repeats every layer in a valid scene holds its order; when the default layer may take 0 every layer gets exactly its target and the table is exactly the targets |
| CompositionLayerCodec.EncodeAppend | Unity/emg/Library/PackageCache/com.unity.xr.compositionlayers@437b07576726/Runtime/CompositionLayer.cs:489-509 | the binary encoding of a list of arrays distributes over concatenation |
| CompositionLayerCodec.SegmentDecodes | Unity/emg/Library/PackageCache/com.unity.xr.compositionlayers@437b07576726/Runtime/CompositionLayer.cs:463-487 | one length-prefixed segment decodes as its entry's values ahead of whatever follows |
| CompositionLayerCodec.DecodeEncode | Unity/emg/Library/PackageCache/com.unity.xr.compositionlayers@437b07576726/Runtime/CompositionLayer.cs:463-509 | decoding an encoding followed by any tail gives the entries' values and then the tail's decoding |
| CompositionLayerCodec.RoundTrip | Unity/emg/Library/PackageCache/com.unity.xr.compositionlayers@437b07576726/Runtime/CompositionLayer.cs:463-509 | `ToBinaryDataList(FromBinaryDataList(L))` gives back `L` when no entry is null; null entries come back as empty arrays |
| CompositionLayerCodec.MalformedTail | Unity/emg/Library/PackageCache/com.unity.xr.compositionlayers@437b07576726/Runtime/CompositionLayer.cs:470-475 | a negative or overrunning length stops decoding after the well-formed segments |
| CompositionLayerCodec.EncodeLength | Unity/emg/Library/PackageCache/com.unity.xr.compositionlayers@437b07576726/Runtime/CompositionLayer.cs:494-505 | the encoding holds one length word per entry plus every value |
| CompositionLayerCodec.ToBinaryDataList | Unity/emg/Library/PackageCache/com.unity.xr.compositionlayers@437b07576726/Runtime/CompositionLayer.cs:463-487 | the loop yields nothing for null and otherwise the segments up to the end or the first malformed length |
| CompositionLayerCodec.FromBinaryDataList | Unity/emg/Library/PackageCache/com.unity.xr.compositionlayers@437b07576726/Runtime/CompositionLayer.cs:489-509 | the loop writes each entry's length and values, 0 for a null entry, and nothing for a null list |
| CompositionLayerCodec.UsedLength | Unity/emg/Library/PackageCache/com.unity.xr.compositionlayers@437b07576726/Runtime/CompositionLayer.cs:431-439 | the kept length is one past the last non-null element, and every element after it is null |
| CompositionLayerCodec.UsedLengthIs | Unity/emg/Library/PackageCache/com.unity.xr.compositionlayers@437b07576726/Runtime/CompositionLayer.cs:431-439 | the kept length is the only length ending on a present element with only nulls after it |
| CompositionLayerCodec.Shrink | Unity/emg/Library/PackageCache/com.unity.xr.compositionlayers@437b07576726/Runtime/CompositionLayer.cs:452-461 | `ShrinkArray` keeps null and short arrays, makes a longer one null when the length is at most 0, and otherwise keeps its prefix of that length |
| CompositionLayerCodec.Resize | Unity/emg/Library/PackageCache/com.unity.xr.compositionlayers@437b07576726/Runtime/CompositionLayer.cs:449 | `Array.Resize` yields exactly the requested length, the old prefix and nulls after it |
| CompositionLayerCodec.Expand | Unity/emg/Library/PackageCache/com.unity.xr.compositionlayers@437b07576726/Runtime/CompositionLayer.cs:444-450 | `ExpandArray` never shrinks, keeps the prefix and pads with nulls to the requested length |
| CompositionLayerCodec.CompactedLaw | Unity/emg/Library/PackageCache/com.unity.xr.compositionlayers@437b07576726/Runtime/CompositionLayer.cs:425-442 | compaction removes only trailing nulls, keeps the order and interior nulls, and turns a non-empty all-null array into null |
| CompositionLayerCodec.CompactArray | Unity/emg/Library/PackageCache/com.unity.xr.compositionlayers@437b07576726/Runtime/CompositionLayer.cs:425-442 | the backward scan and shrink yield exactly the compacted array |
| CompositionLayerCodec.ArrayRemoveAt | Unity/emg/Library/PackageCache/com.unity.xr.compositionlayers@437b07576726/Runtime/CompositionLayer.cs:406-423 | afterwards the slot is null or gone and every other element stays where it was; an empty array becomes null |
| CompositionLayerCodec.FirstIndex | Unity/emg/Library/PackageCache/com.unity.xr.compositionlayers@437b07576726/Runtime/CompositionLayer.cs:521-523 | the first key equal to the type's full name, or none exactly when no key is |
| CompositionLayerCodec.SerializedKeys | Unity/emg/Library/PackageCache/com.unity.xr.compositionlayers@437b07576726/Runtime/CompositionLayer.cs:511-560 | serializing keeps an existing key in place and appends a new one; the binary field is always written |
| CompositionLayerCodec.SerializeRestore | Unity/emg/Library/PackageCache/com.unity.xr.compositionlayers@437b07576726/Runtime/CompositionLayer.cs:511-639 | reading a type back right after serializing it gives what was written, binary or text according to the type |
| CompositionLayerCodec.PlatformDataFields.constructor | Unity/emg/Library/PackageCache/com.unity.xr.compositionlayers@437b07576726/Runtime/CompositionLayer.cs:56-66 | a new layer has no keys, texts or binary |
| CompositionLayerCodec.PlatformDataFields.SerializePlatformLayerData | Unity/emg/Library/PackageCache/com.unity.xr.compositionlayers@437b07576726/Runtime/CompositionLayer.cs:511-560 | null data changes nothing; otherwise the fields become the serialized state |
| CompositionLayerCodec.PlatformDataFields.DeserializePlatformLayerData | Unity/emg/Library/PackageCache/com.unity.xr.compositionlayers@437b07576726/Runtime/CompositionLayer.cs:578-639 | the value read is the restore of the fields for that type: the binary segment beside its key, then its text, then a read of null |
| CompositionLayerCodec.BinaryLookup | Unity/emg/Library/PackageCache/com.unity.xr.compositionlayers@437b07576726/Runtime/CompositionLayer.cs:589-617 | keys and segments are walked in step; a segment is found exactly when the type's first key indexes a well-formed segment, and an empty segment reads as null |
| CompositionLayerCodec.TextLookup | Unity/emg/Library/PackageCache/com.unity.xr.compositionlayers@437b07576726/Runtime/CompositionLayer.cs:619-633 | a text is found exactly when a key names the type; it is the text beside the first such key, or null when there is none |
| PlatformLayerDataUtil.FirstNamedLaw | Unity/emg/Library/PackageCache/com.unity.xr.compositionlayers@437b07576726/Editor/Layers/PlatformLayerDataUtil.cs:162-168 | the lookup finds nothing exactly when no type has the key as full name, and otherwise the first type that has it |
| PlatformLayerDataUtil.TypeFromKey | Unity/emg/Library/PackageCache/com.unity.xr.compositionlayers@437b07576726/Editor/Layers/PlatformLayerDataUtil.cs:162-168 | `GetPlatformLayerDataTypeFromKey` is null for a null type list and otherwise the first type with that full name |
| PlatformLayerDataUtil.Kept | Unity/emg/Library/PackageCache/com.unity.xr.compositionlayers@437b07576726/Editor/Layers/PlatformLayerDataUtil.cs:135-147 | the kept indices are increasing, below the key count, and each names an active type |
| PlatformLayerDataUtil.KeptLaw | Unity/emg/Library/PackageCache/com.unity.xr.compositionlayers@437b07576726/Editor/Layers/PlatformLayerDataUtil.cs:135-147 | every index naming an active type is kept, and all are kept exactly when every key is active |
| PlatformLayerDataUtil.PickSnoc | Unity/emg/Library/PackageCache/com.unity.xr.compositionlayers@437b07576726/Editor/Layers/PlatformLayerDataUtil.cs:139-141 | keeping one more index appends its key and its element, or null past the end |
| PlatformLayerDataUtil.RewrittenReads | Unity/emg/Library/PackageCache/com.unity.xr.compositionlayers@437b07576726/Editor/Layers/PlatformLayerDataUtil.cs:149-158 | after the write-back, slot `k` reads the text and binary that the kept index held |
| PlatformLayerDataUtil.CompactedReads | Unity/emg/Library/PackageCache/com.unity.xr.compositionlayers@437b07576726/Editor/Layers/PlatformLayerDataUtil.cs:153-154 | trimming trailing nulls leaves every index reading as before |
| PlatformLayerDataUtil.CompactedAligned | Unity/emg/Library/PackageCache/com.unity.xr.compositionlayers@437b07576726/Editor/Layers/PlatformLayerDataUtil.cs:129-159 | when the fields change, they hold exactly the keys naming an active type, in order, with their texts and binaries beside them |
| PlatformLayerDataUtil.CompactedActive | Unity/emg/Library/PackageCache/com.unity.xr.compositionlayers@437b07576726/Editor/Layers/PlatformLayerDataUtil.cs:135-159 | after compaction every key names an active type |
| PlatformLayerDataUtil.CompactedUnchanged | Unity/emg/Library/PackageCache/com.unity.xr.compositionlayers@437b07576726/Editor/Layers/PlatformLayerDataUtil.cs:129-149 | with every key active and no texts or binaries beyond the keys, nothing is written |
| PlatformLayerDataUtil.CompactPlatformLayerDataArray | Unity/emg/Library/PackageCache/com.unity.xr.compositionlayers@437b07576726/Editor/Layers/PlatformLayerDataUtil.cs:120-160 | the layer's fields become the compaction of the old fields against the active types |
| PlatformLayerDataUtil.KeepActive | Unity/emg/Library/PackageCache/com.unity.xr.compositionlayers@437b07576726/Editor/Layers/PlatformLayerDataUtil.cs:131-147 | the loop keeps the keys naming an active type with their texts and binaries, and reports a drop exactly when some key is not active |
| PlatformLayerDataUtil.InstancesLaw | Unity/emg/Library/PackageCache/com.unity.xr.compositionlayers@437b07576726/Editor/Layers/PlatformLayerDataUtil.cs:104-115 | every listed instance is of an active type and is read from the layer's fields |
| PlatformLayerDataUtil.GetPlatformLayerDataList | Unity/emg/Library/PackageCache/com.unity.xr.compositionlayers@437b07576726/Editor/Layers/PlatformLayerDataUtil.cs:92-118 | the fields are compacted first, then one instance is read per active key |
| PlatformLayerDataUtil.ActiveTypes | Unity/emg/Library/PackageCache/com.unity.xr.compositionlayers@437b07576726/Editor/Layers/PlatformLayerDataUtil.cs:170-186 | null exactly without providers; otherwise exactly the platform-data types the providers have |
| PlatformLayerDataUtil.FindOrCreate | Unity/emg/Library/PackageCache/com.unity.xr.compositionlayers@437b07576726/Editor/Layers/PlatformLayerDataUtil.cs:44-46 | the instance found has the type asked for, and is from the list or fresh |
| PlatformLayerDataUtil.GetActivePlatformLayerDataList | Unity/emg/Library/PackageCache/com.unity.xr.compositionlayers@437b07576726/Editor/Layers/PlatformLayerDataUtil.cs:23-52 | null for a null layer, empty without providers, and otherwise one instance per active type in active-type order, the layer's own when it has one |
| PlatformLayerDataUtil.InActiveOrder | Unity/emg/Library/PackageCache/com.unity.xr.compositionlayers@437b07576726/Editor/Layers/PlatformLayerDataUtil.cs:40-51 | one instance per active type, in that order, each the list's instance or a fresh one |
| UIHelper.PushPopLaw | Unity/emg/Library/PackageCache/com.unity.xr.compositionlayers@437b07576726/Editor/Layers/Internal/UIHelper.cs:22-38 | a push counts exactly when it leaves the GUI disabled, and enables it only if it was enabled and asked to be; a pop with no count does nothing, the last pop re-enables the GUI, and others only decrement |
| UIHelper.PushKeepsConsistent | Unity/emg/Library/PackageCache/com.unity.xr.compositionlayers@437b07576726/Editor/Layers/Internal/UIHelper.cs:22-38 | a push from a consistent state (disabled exactly when pushes are outstanding) stays consistent and is undone by one pop |
| UIHelper.BalancedPushPop | Unity/emg/Library/PackageCache/com.unity.xr.compositionlayers@437b07576726/Editor/Layers/Internal/UIHelper.cs:22-38 | any run of pushes followed by as many pops restores the GUI state exactly |
| UIHelper.GuiEnabledStack.constructor | Unity/emg/Library/PackageCache/com.unity.xr.compositionlayers@437b07576726/Editor/Layers/Internal/UIHelper.cs:17 | the editor starts enabled with no push outstanding |
| UIHelper.GuiEnabledStack.PushEnabled | Unity/emg/Library/PackageCache/com.unity.xr.compositionlayers@437b07576726/Editor/Layers/Internal/UIHelper.cs:22-27 | the state becomes the push of the old state and stays consistent |
| UIHelper.GuiEnabledStack.PopEnabled | Unity/emg/Library/PackageCache/com.unity.xr.compositionlayers@437b07576726/Editor/Layers/Internal/UIHelper.cs:32-38 | the state becomes the pop of the old state and stays consistent |
| UIHelper.UpperAll | Unity/emg/Library/PackageCache/com.unity.xr.compositionlayers@437b07576726/Editor/Layers/Internal/UIHelper.cs:155 | the upper-cased name has the same length and is upper-cased character by character |
| UIHelper.SpacedShape | Unity/emg/Library/PackageCache/com.unity.xr.compositionlayers@437b07576726/Editor/Layers/Internal/UIHelper.cs:160-171 | the display name keeps the first character and only inserts spaces after it |
| UIHelper.DisplayNameInsertsSpaces | Unity/emg/Library/PackageCache/com.unity.xr.compositionlayers@437b07576726/Editor/Layers/Internal/UIHelper.cs:150-174 | the display name is the name with only spaces inserted, never before its first character |
| UIHelper.GetDisplayName | Unity/emg/Library/PackageCache/com.unity.xr.compositionlayers@437b07576726/Editor/Layers/Internal/UIHelper.cs:150-174 | "" for a null name; otherwise the loop builds exactly the spaced name |
| UIHelper.GetTypeDisplayName | Unity/emg/Library/PackageCache/com.unity.xr.compositionlayers@437b07576726/Editor/Layers/Internal/UIHelper.cs:139-142 | "" for no type; otherwise the type's name with spaces inserted |
| UIHelper.RemovePostfix | Unity/emg/Library/PackageCache/com.unity.xr.compositionlayers@437b07576726/Editor/Layers/Internal/UIHelper.cs:208-211 | a name ending in the postfix loses exactly it; any other name is unchanged |
| UIHelper.ProviderDisplayNameLaw | Unity/emg/Library/PackageCache/com.unity.xr.compositionlayers@437b07576726/Editor/Layers/Internal/UIHelper.cs:181-203 | "Default" for no provider; the layer-provider type's name without "LayerProvider" or "Provider" when there is one; otherwise the XR loader's name, or "Default" |
| UIHelper.EnumeratedLaw | Unity/emg/Library/PackageCache/com.unity.xr.compositionlayers@437b07576726/Editor/Layers/Internal/UIHelper.cs:218-235 | no names give "", one gives itself, and more are joined by ", " with the last by " and " |
| UIHelper.EnumeratedThree | Unity/emg/Library/PackageCache/com.unity.xr.compositionlayers@437b07576726/Editor/Layers/Internal/UIHelper.cs:218-235 | three names read "a, b and c" |
| UIHelper.ConcatEnumeratedNames | Unity/emg/Library/PackageCache/com.unity.xr.compositionlayers@437b07576726/Editor/Layers/Internal/UIHelper.cs:218-235 | "" for null; otherwise the loop builds exactly the enumerated text |
| UIHelper.MultiLineLaw | Unity/emg/Library/PackageCache/com.unity.xr.compositionlayers@437b07576726/Editor/Layers/Internal/UIHelper.cs:242-260 | the texts are joined by line breaks with none after the last, and split back into the same texts when none holds a break |
| UIHelper.ConcatMultiLineTexts | Unity/emg/Library/PackageCache/com.unity.xr.compositionlayers@437b07576726/Editor/Layers/Internal/UIHelper.cs:242-260 | "" for null; otherwise the loop builds exactly the joined text |
| ImageFilters.HdrParamsOf | Unity/emg/Library/PackageCache/com.unity.xr.compositionlayers@437b07576726/Runtime/Rendering/ImageFilters.cs:100-116 | HDR parameters are encoded exactly for active output settings and then carry the display's gamut; otherwise they are the inactive defaults |
| ImageFilters.NewBlitParams | Unity/emg/Library/PackageCache/com.unity.xr.compositionlayers@437b07576726/Runtime/Rendering/ImageFilters.cs:187-211 | a new blit covers the whole source and destination, with no HDR, opaque alpha and the built-in pipeline |
| ImageFilters.TargetForRenderTarget | Unity/emg/Library/PackageCache/com.unity.xr.compositionlayers@437b07576726/Runtime/Rendering/ImageFilters.cs:247-253 | a render-target target has display -1 and inactive HDR |
| ImageFilters.TargetForDisplay | Unity/emg/Library/PackageCache/com.unity.xr.compositionlayers@437b07576726/Runtime/Rendering/ImageFilters.cs:259-273 | a display target takes that display's HDR settings when the index names one, and inactive HDR otherwise |
| ImageFilters.BlendTableLaw | Unity/emg/Library/PackageCache/com.unity.xr.compositionlayers@437b07576726/Runtime/Rendering/ImageFilters.cs:475-486 | opaque replaces the target, alpha blends a straight-alpha source over it, premultiply blends a premultiplied one, and both blended modes accumulate coverage alike |
| ImageFilters.GamutCode | Unity/emg/Library/PackageCache/com.unity.xr.compositionlayers@437b07576726/Runtime/Rendering/ImageFilters.cs:439-440 | the gamut code is -1 exactly when the parameters are not HDR-encoded, and their gamut otherwise |
| ImageFilters.PropertiesLaw | Unity/emg/Library/PackageCache/com.unity.xr.compositionlayers@437b07576726/Runtime/Rendering/ImageFilters.cs:430-473 | the recorded target gamut is -1 exactly without HDR; the source gamut is its own when encoded, else sRGB for a URP sRGB read in linear space, else -1; a flipped source negates the rectangle offset |
| ImageFilters.BlitCommandsLaw | Unity/emg/Library/PackageCache/com.unity.xr.compositionlayers@437b07576726/Runtime/Rendering/ImageFilters.cs:418-519 | a blit records nothing exactly when the source is missing, the target is absent or the material is missing; otherwise one quad with the computed properties, bracketed by binding the render target and by the non-array keyword where they apply |
| ImageFilters.TargetGuardLaw | Unity/emg/Library/PackageCache/com.unity.xr.compositionlayers@437b07576726/Runtime/Rendering/ImageFilters.cs:423-424 | a display index below 0 records nothing, and a render target is never skipped for its display index |
| ImageFilters.EyeIndexLaw | Unity/emg/Library/PackageCache/com.unity.xr.compositionlayers@437b07576726/Runtime/Rendering/ImageFilters.cs:709-717 | the single-eye modes read one fixed eye, 0 or 1, for every parameter; other modes read each parameter's own index |
| ImageFilters.CommandBuffer.Append | Unity/emg/Library/PackageCache/com.unity.xr.compositionlayers@437b07576726/Runtime/Rendering/ImageFilters.cs:489-518 | recording appends the commands after the ones already there |
| ImageFilters.Filters.constructor | Unity/emg/Library/PackageCache/com.unity.xr.compositionlayers@437b07576726/Runtime/Rendering/ImageFilters.cs:323-326 | no buffer, depth 0, no material and nothing executed |
| ImageFilters.Filters.BeginBatch | Unity/emg/Library/PackageCache/com.unity.xr.compositionlayers@437b07576726/Runtime/Rendering/ImageFilters.cs:348-359 | the depth grows by one; the outermost begin starts from an empty buffer, creating it once; inner begins keep the buffer's commands |
| ImageFilters.Filters.EndBatch | Unity/emg/Library/PackageCache/com.unity.xr.compositionlayers@437b07576726/Runtime/Rendering/ImageFilters.cs:364-376 | at depth 0 nothing happens; otherwise the depth drops by one and the outermost end executes the buffer when it holds commands |
| ImageFilters.Filters.InitializeMaterial | Unity/emg/Library/PackageCache/com.unity.xr.compositionlayers@437b07576726/Runtime/Rendering/ImageFilters.cs:544-558 | the material is cached once created and is created exactly when its shader is found |
| ImageFilters.Filters.BlitInternal | Unity/emg/Library/PackageCache/com.unity.xr.compositionlayers@437b07576726/Runtime/Rendering/ImageFilters.cs:418-519 | the buffer gains exactly the blit's commands; the material is created only by a blit that passes the guards |
| ImageFilters.Filters.BlitToDisplay | Unity/emg/Library/PackageCache/com.unity.xr.compositionlayers@437b07576726/Runtime/Rendering/ImageFilters.cs:396-400 | a blit to a display index records the blit to that display's target |
| ImageFilters.Filters.Blit | Unity/emg/Library/PackageCache/com.unity.xr.compositionlayers@437b07576726/Runtime/Rendering/ImageFilters.cs:383-388 | one blit in a batch of its own: outside a batch its commands are executed at once when there are any, inside one they wait in the buffer; the depth is unchanged |
| HdrTonemappingEditor.PaletteLayout | Unity/emg/Library/PackageCache/com.unity.xr.compositionlayers@437b07576726/Editor/Extensions/HDRTonemappingEditor.cs:310 | the palette packs the codes 1, 2, 4, 3, 5, 6, 7 at 3-bit steps from bit 3 |
| HdrTonemappingEditor.ColorCode | Unity/emg/Library/PackageCache/com.unity.xr.compositionlayers@437b07576726/Editor/Extensions/HDRTonemappingEditor.cs:314 | the code of an entry is a 3-bit value, including for indexes whose shift wraps |
| HdrTonemappingEditor.GetColor | Unity/emg/Library/PackageCache/com.unity.xr.compositionlayers@437b07576726/Editor/Extensions/HDRTonemappingEditor.cs:312-320 | a palette colour is opaque and each channel is 0 or 1 |
| HdrTonemappingEditor.PaletteCodes | Unity/emg/Library/PackageCache/com.unity.xr.compositionlayers@437b07576726/Editor/Extensions/HDRTonemappingEditor.cs:310-314 | the entries are codes 0, 1, 2, 4, 3, 5, 6, 7 |
| HdrTonemappingEditor.PaletteColors | Unity/emg/Library/PackageCache/com.unity.xr.compositionlayers@437b07576726/Editor/Extensions/HDRTonemappingEditor.cs:312-320 | the entries are black, red, green, blue, yellow, magenta, cyan and white |
| HdrTonemappingEditor.PaletteDistinct | Unity/emg/Library/PackageCache/com.unity.xr.compositionlayers@437b07576726/Editor/Extensions/HDRTonemappingEditor.cs:310-320 | the eight palette colours are pairwise different |
| HdrTonemappingEditor.IndexInImage | Unity/emg/Library/PackageCache/com.unity.xr.compositionlayers@437b07576726/Editor/Extensions/HDRTonemappingEditor.cs:273 | a flat index of the image has a column below the width and a row below the height |
| HdrTonemappingEditor.Fill | Unity/emg/Library/PackageCache/com.unity.xr.compositionlayers@437b07576726/Editor/Extensions/HDRTonemappingEditor.cs:299-308 | the colour is written exactly at the block's cells and every other cell keeps its colour |
| HdrTonemappingEditor.BlocksTile | Unity/emg/Library/PackageCache/com.unity.xr.compositionlayers@437b07576726/Editor/Extensions/HDRTonemappingEditor.cs:277-287 | the eight blocks tile each axis: each position lies in exactly one block |
| HdrTonemappingEditor.BlockBounds | Unity/emg/Library/PackageCache/com.unity.xr.compositionlayers@437b07576726/Editor/Extensions/HDRTonemappingEditor.cs:280-287 | every block lies within the image |
| HdrTonemappingEditor.InBlockIsBlock | Unity/emg/Library/PackageCache/com.unity.xr.compositionlayers@437b07576726/Editor/Extensions/HDRTonemappingEditor.cs:280-291 | a cell is in block (column, row) exactly when its column and row fall in those blocks |
| HdrTonemappingEditor.GenerateSimpleColormap | Unity/emg/Library/PackageCache/com.unity.xr.compositionlayers@437b07576726/Editor/Extensions/HDRTonemappingEditor.cs:268-297 | every pixel gets the palette colour of its column block scaled for its row block |
| HdrTonemappingEditor.GetGraphicsFormats | Unity/emg/Library/PackageCache/com.unity.xr.compositionlayers@437b07576726/Editor/Extensions/HDRTonemappingEditor.cs:45-55 | sRGB offers the two 8-bit formats, any other gamut the one float format |
| HdrTonemappingEditor.FormatPopupLaw | Unity/emg/Library/PackageCache/com.unity.xr.compositionlayers@437b07576726/Editor/Extensions/HDRTonemappingEditor.cs:34-55 | there is a choice of format exactly for sRGB, and the float format is offered exactly for other gamuts |
| HdrTonemappingEditor.AppendMessage | Unity/emg/Library/PackageCache/com.unity.xr.compositionlayers@437b07576726/Editor/Extensions/HDRTonemappingEditor.cs:73-79 | a null buffer becomes the message; otherwise the message is added on a new line |
| HdrTonemappingEditor.AppendAllLaw | Unity/emg/Library/PackageCache/com.unity.xr.compositionlayers@437b07576726/Editor/Extensions/HDRTonemappingEditor.cs:73-79 | appended messages are the buffer's lines in order and split back out of it |
| HdrTonemappingEditor.GeneratePreferredHdrParamsMessage | Unity/emg/Library/PackageCache/com.unity.xr.compositionlayers@437b07576726/Editor/Extensions/HDRTonemappingEditor.cs:118-142 | null exactly for a null or empty provider list; otherwise each provider's paragraph in order |
| HdrTonemappingEditor.MessageIsJoined | Unity/emg/Library/PackageCache/com.unity.xr.compositionlayers@437b07576726/Editor/Extensions/HDRTonemappingEditor.cs:123-139 | the paragraphs are separated by single line breaks |
| HdrTonemappingEditor.SampleTextureLaw | Unity/emg/Library/PackageCache/com.unity.xr.compositionlayers@437b07576726/Editor/Extensions/HDRTonemappingEditor.cs:244-266 | the generated sample is destroyed when replaced, and a texture without the name prefix, or no texture, never is |
| EmulationRenderer.ScriptableRendererManager.constructor | Unity/emg/Library/PackageCache/com.unity.xr.compositionlayers@437b07576726/Runtime/Emulation/ScriptableRenderer/EmulationLayerScriptableRendererManager.cs:10-11 | both lists start empty |
| EmulationRenderer.ScriptableRendererManager.LayerDataList | Unity/emg/Library/PackageCache/com.unity.xr.compositionlayers@437b07576726/Runtime/Emulation/ScriptableRenderer/EmulationLayerScriptableRendererManager.cs:13-16 | the overlay list when asked for overlays, the underlay list otherwise |
| EmulationRenderer.ScriptableRendererManager.Add | Unity/emg/Library/PackageCache/com.unity.xr.compositionlayers@437b07576726/Runtime/Emulation/ScriptableRenderer/EmulationLayerScriptableRendererManager.cs:18-28 | an order of at least 0 appends to the overlays only, a negative order to the underlays only |
| EmulationRenderer.ScriptableRendererManager.Clear | Unity/emg/Library/PackageCache/com.unity.xr.compositionlayers@437b07576726/Runtime/Emulation/ScriptableRenderer/EmulationLayerScriptableRendererManager.cs:30-34 | both lists are emptied |
| LayerProviderState.Create | Unity/emg/Library/PackageCache/com.unity.xr.compositionlayers@437b07576726/Runtime/Rendering/MirrorViewLayerProvider.cs:73-98 | a null layer creates nothing; otherwise a new emulated layer is created, modified and updated, and stored under the id, adding or replacing only that entry |
| LayerProviderState.AddCreatedLaw | Unity/emg/Library/PackageCache/com.unity.xr.compositionlayers@437b07576726/Runtime/Rendering/MirrorViewLayerProvider.cs:176-186 | the created pass replaces no entry, adds exactly the ids some info gives a layer, each with a layer given for it, and only appends to the log |
| LayerProviderState.RemoveDestroyedLaw | Unity/emg/Library/PackageCache/com.unity.xr.compositionlayers@437b07576726/Runtime/Rendering/MirrorViewLayerProvider.cs:162-174 | afterwards no removed id is left, other entries are untouched, every removed id that was present was disposed, and nothing else was done |
| LayerProviderState.ModifyChangedLaw | Unity/emg/Library/PackageCache/com.unity.xr.compositionlayers@437b07576726/Runtime/Rendering/MirrorViewLayerProvider.cs:125-137 | the modify pass creates exactly the missing ids given a layer and reads the component of every entry it is handed: each id given a layer holds the last layer given for it, every other id keeps its layer, and every id of the pass held afterwards was modified |
| LayerProviderState.ReadComponent | Unity/emg/Library/PackageCache/com.unity.xr.compositionlayers@437b07576726/Runtime/Emulation/EmulatedCompositionLayer.cs:71-73 | an emulated layer refers to its component, so reading an entry handed a live component gives that component's state; no other entry changes |
| LayerProviderState.MirrorStep | Unity/emg/Library/PackageCache/com.unity.xr.compositionlayers@437b07576726/Runtime/Rendering/MirrorViewLayerProvider.cs:144-158 | one id of the active pass: a missing id given a layer is created and modified; a present one is modified when its data is missing and then updated, and takes the state of the component it is handed; no other entry changes |
| LayerProviderState.MirrorActiveLaw | Unity/emg/Library/PackageCache/com.unity.xr.compositionlayers@437b07576726/Runtime/Rendering/MirrorViewLayerProvider.cs:139-160 | the active pass creates exactly the missing ids given a layer and reads the component of every entry it is handed: each id given a layer holds the last layer given for it, every other id keeps its layer, and every id it then holds was updated |
| LayerProviderState.GatherDrawn | Unity/emg/Library/PackageCache/com.unity.xr.compositionlayers@437b07576726/Runtime/Rendering/MirrorViewLayerProvider.cs:197-210 | the gathered layers are the enabled, initialized entries of the dictionary, one per id |
| LayerProviderState.SortByOrder | Unity/emg/Library/PackageCache/com.unity.xr.compositionlayers@437b07576726/Runtime/Rendering/MirrorViewLayerProvider.cs:215-245 | sorting by order yields a sorted permutation and keeps ids distinct |
| LayerProviderState.OfKind | Unity/emg/Library/PackageCache/com.unity.xr.compositionlayers@437b07576726/Runtime/Rendering/MirrorViewLayerProvider.cs:234-235 | a layer is drawn in the overlay pass exactly when its order is at least 0, and in the underlay pass otherwise |
| LayerProviderState.SplitByKind | Unity/emg/Library/PackageCache/com.unity.xr.compositionlayers@437b07576726/Runtime/Rendering/MirrorViewLayerProvider.cs:232-239 | in a sorted list the underlays come first, so the two passes together draw every layer once, each pass in order |
| MirrorViewLayerProvider.MirrorViewLayerProvider.constructor | Unity/emg/Library/PackageCache/com.unity.xr.compositionlayers@437b07576726/Runtime/Rendering/MirrorViewLayerProvider.cs:15-17 | no emulated layer, nothing logged, nothing sorted |
| MirrorViewLayerProvider.MirrorViewLayerProvider.CreateEmulationLayerObject | Unity/emg/Library/PackageCache/com.unity.xr.compositionlayers@437b07576726/Runtime/Rendering/MirrorViewLayerProvider.cs:73-98 | the dictionary and log become the `Create` step of the old ones |
| MirrorViewLayerProvider.MirrorViewLayerProvider.AddCreatedLayers | Unity/emg/Library/PackageCache/com.unity.xr.compositionlayers@437b07576726/Runtime/Rendering/MirrorViewLayerProvider.cs:176-186 | the state becomes the created pass of the old one |
| MirrorViewLayerProvider.MirrorViewLayerProvider.RemoveDestroyedLayers | Unity/emg/Library/PackageCache/com.unity.xr.compositionlayers@437b07576726/Runtime/Rendering/MirrorViewLayerProvider.cs:162-174 | the state becomes the removal pass of the old one |
| MirrorViewLayerProvider.MirrorViewLayerProvider.ModifyChangedLayers | Unity/emg/Library/PackageCache/com.unity.xr.compositionlayers@437b07576726/Runtime/Rendering/MirrorViewLayerProvider.cs:125-137 | the state becomes the modify pass of the old one, so each emulated layer handed a component holds that component's current state |
| MirrorViewLayerProvider.MirrorViewLayerProvider.UpdateActiveStateOnLayers | Unity/emg/Library/PackageCache/com.unity.xr.compositionlayers@437b07576726/Runtime/Rendering/MirrorViewLayerProvider.cs:139-160 | the state becomes the active pass of the old one, so each emulated layer handed a component holds that component's current state |
| MirrorViewLayerProvider.MirrorViewLayerProvider.UpdateActiveState | Unity/emg/Library/PackageCache/com.unity.xr.compositionlayers@437b07576726/Runtime/Rendering/MirrorViewLayerProvider.cs:146-158 | one entry of the active pass: a missing id given a layer is created and modified, a present id reads its component, is modified when it has no layer data and is updated; any other id changes nothing |
| MirrorViewLayerProvider.MirrorViewLayerProvider.SetInitialState | Unity/emg/Library/PackageCache/com.unity.xr.compositionlayers@437b07576726/Runtime/Rendering/MirrorViewLayerProvider.cs:100-104 | the dictionary is emptied, then the given layers are added |
| MirrorViewLayerProvider.MirrorViewLayerProvider.CleanupState | Unity/emg/Library/PackageCache/com.unity.xr.compositionlayers@437b07576726/Runtime/Rendering/MirrorViewLayerProvider.cs:106-114 | every emulated layer is disposed once and the dictionary is emptied |
| MirrorViewLayerProvider.MirrorViewLayerProvider.UpdateLayers | Unity/emg/Library/PackageCache/com.unity.xr.compositionlayers@437b07576726/Runtime/Rendering/MirrorViewLayerProvider.cs:116-123 | the created, removed, modified and active passes run in that order |
| MirrorViewLayerProvider.MirrorViewLayerProvider.UpdateSortedLayers | Unity/emg/Library/PackageCache/com.unity.xr.compositionlayers@437b07576726/Runtime/Rendering/MirrorViewLayerProvider.cs:190-216 | with no manager nothing changes; otherwise the list holds exactly the drawn layers, one per id, sorted by order |
| MirrorViewLayerProvider.MirrorViewLayerProvider.AddToCommandBuffer | Unity/emg/Library/PackageCache/com.unity.xr.compositionlayers@437b07576726/Runtime/Rendering/MirrorViewLayerProvider.cs:224-240 | with a manager the sorted list is rebuilt and exactly its layers of the asked kind are drawn, in sorted order; without one nothing is drawn |
| MirrorViewLayerProvider.Started | Unity/emg/Library/PackageCache/com.unity.xr.compositionlayers@437b07576726/Runtime/Rendering/MirrorViewLayerProvider.cs:54-60 | after the manager starts an instance exists and is registered |
| MirrorViewLayerProvider.Stopped | Unity/emg/Library/PackageCache/com.unity.xr.compositionlayers@437b07576726/Runtime/Rendering/MirrorViewLayerProvider.cs:62-71 | an existing instance is cleaned up, unregistered and dropped; without one nothing changes |
| MirrorViewLayerProvider.ManagerStarts | Unity/emg/Library/PackageCache/com.unity.xr.compositionlayers@437b07576726/Runtime/Rendering/MirrorViewLayerProvider.cs:35-36 | the manager's start and stop events run the handlers only when some are subscribed |
| MirrorViewLayerProvider.DisconnectLeavesHandlers | Unity/emg/Library/PackageCache/com.unity.xr.compositionlayers@437b07576726/Runtime/Rendering/MirrorViewLayerProvider.cs:30-52 | as written: a connect while the manager is inactive subscribes without creating an instance, so the disconnect returns early and a later manager start still registers the provider |
| MirrorViewLayerProvider.RepeatedConnectSubscribesAgain | Unity/emg/Library/PackageCache/com.unity.xr.compositionlayers@437b07576726/Runtime/Rendering/MirrorViewLayerProvider.cs:30-40 | as written: every connect while the manager is inactive subscribes one more pair of handlers |
| MirrorViewLayerProvider.Connect | Unity/emg/Library/PackageCache/com.unity.xr.compositionlayers@437b07576726/Runtime/Rendering/MirrorViewLayerProvider.cs:30-40 | corrected: connecting leaves exactly one pair of handlers, and registers the provider when the manager is active |
| MirrorViewLayerProvider.Disconnect | Unity/emg/Library/PackageCache/com.unity.xr.compositionlayers@437b07576726/Runtime/Rendering/MirrorViewLayerProvider.cs:42-52 | corrected: disconnecting whenever subscribed leaves no handler and no instance |
| MirrorViewLayerProvider.ConnectionLaw | Unity/emg/Library/PackageCache/com.unity.xr.compositionlayers@437b07576726/Runtime/Rendering/MirrorViewLayerProvider.cs:30-71 | corrected: over any run of calls at most one pair of handlers is subscribed, and with none the provider is not registered |
| MirrorViewLayerProvider.NoRegistrationAfterDisconnect | Unity/emg/Library/PackageCache/com.unity.xr.compositionlayers@437b07576726/Runtime/Rendering/MirrorViewLayerProvider.cs:42-71 | corrected: after a disconnect no manager start or stop registers the provider |
| MirrorViewLayerProvider.MirrorConnection.OnManagerStarted | Unity/emg/Library/PackageCache/com.unity.xr.compositionlayers@437b07576726/Runtime/Rendering/MirrorViewLayerProvider.cs:54-60 | the connection state becomes `Started`, keeping an existing instance |
| MirrorViewLayerProvider.MirrorConnection.OnManagerStopped | Unity/emg/Library/PackageCache/com.unity.xr.compositionlayers@437b07576726/Runtime/Rendering/MirrorViewLayerProvider.cs:62-71 | the connection state becomes `Stopped`, and the instance's state is cleaned up first |
| MirrorViewLayerProvider.MirrorConnection.ConnectMirrorViewLayerProvider | Unity/emg/Library/PackageCache/com.unity.xr.compositionlayers@437b07576726/Runtime/Rendering/MirrorViewLayerProvider.cs:30-40 | the connection state becomes the as-written connect of the old one |
| MirrorViewLayerProvider.MirrorConnection.DisconnectMirrorViewLayerProvider | Unity/emg/Library/PackageCache/com.unity.xr.compositionlayers@437b07576726/Runtime/Rendering/MirrorViewLayerProvider.cs:42-52 | the connection state becomes the as-written disconnect of the old one |
| EmulatedLayerProvider.CameraEvents | Unity/emg/Library/PackageCache/com.unity.xr.compositionlayers@437b07576726/Runtime/Emulation/EmulatedLayerProvider.cs:259-269 | overlays draw after the image effects on every path; underlays before the G-buffer exactly with deferred shading, and before the opaque forward pass otherwise |
| EmulatedLayerProvider.Live | Unity/emg/Library/PackageCache/com.unity.xr.compositionlayers@437b07576726/Runtime/Emulation/EmulatedLayerProvider.cs:199-205 | a layer whose component was destroyed reads as null; any other keeps its layer |
| EmulatedLayerProvider.ActiveStep | Unity/emg/Library/PackageCache/com.unity.xr.compositionlayers@437b07576726/Runtime/Emulation/EmulatedLayerProvider.cs:187-219 | one id of the active pass: a missing entry is created and modified, one whose component was destroyed is disposed and remade, the pass stops when that yields nothing, and a present entry is refreshed and takes the state of the live component it is handed; no other entry changes |
| EmulatedLayerProvider.ActiveLaw | Unity/emg/Library/PackageCache/com.unity.xr.compositionlayers@437b07576726/Runtime/Emulation/EmulatedLayerProvider.cs:181-221 | the active pass drops no entry; an entry whose component exists and that is handed no live component keeps its layer; every entry it adds or changes holds a live layer some entry gives it; it adds only ids given a live layer, and stops only at a destroyed entry with no live layer given |
| EmulatedLayerProvider.ActiveCompleteLaw | Unity/emg/Library/PackageCache/com.unity.xr.compositionlayers@437b07576726/Runtime/Emulation/EmulatedLayerProvider.cs:181-221 | a pass that runs to the end leaves every id given a live layer present and updated |
| EmulatedLayerProvider.ActiveReadsLive | Unity/emg/Library/PackageCache/com.unity.xr.compositionlayers@437b07576726/Runtime/Emulation/EmulatedLayerProvider.cs:181-221 | a pass that runs to the end leaves every id handed a live component holding the state of the last live component it was handed |
| EmulatedLayerProvider.ActiveStopsEarly | Unity/emg/Library/PackageCache/com.unity.xr.compositionlayers@437b07576726/Runtime/Emulation/EmulatedLayerProvider.cs:207-211 | once the pass has stopped, later entries are not looked at |
| EmulatedLayerProvider.ActiveCameras | Unity/emg/Library/PackageCache/com.unity.xr.compositionlayers@437b07576726/Runtime/Emulation/EmulatedLayerProvider.cs:339-364 | the main camera is active when there is one and the editor is not playing or emulates in play mode, and every scene-view camera while scene emulation is on |
| EmulatedLayerProvider.Detaches | Unity/emg/Library/PackageCache/com.unity.xr.compositionlayers@437b07576726/Runtime/Emulation/EmulatedLayerProvider.cs:326-329 | tear-down detaches each sorted layer from the active cameras, in order |
| EmulatedLayerProvider.Attaches | Unity/emg/Library/PackageCache/com.unity.xr.compositionlayers@437b07576726/Runtime/Emulation/EmulatedLayerProvider.cs:312-315 | set-up attaches each sorted layer to the active cameras, in order |
| EmulatedLayerProvider.EmulatedLayerProvider.constructor | Unity/emg/Library/PackageCache/com.unity.xr.compositionlayers@437b07576726/Runtime/Emulation/EmulatedLayerProvider.cs:35-39 | no emulated layer, no sorted layer, no camera and no command-buffer call |
| EmulatedLayerProvider.EmulatedLayerProvider.CreateEmulationLayerObject | Unity/emg/Library/PackageCache/com.unity.xr.compositionlayers@437b07576726/Runtime/Emulation/EmulatedLayerProvider.cs:104-130 | the dictionary and log become the `Create` step of the old ones |
| EmulatedLayerProvider.EmulatedLayerProvider.AddCreatedLayers | Unity/emg/Library/PackageCache/com.unity.xr.compositionlayers@437b07576726/Runtime/Emulation/EmulatedLayerProvider.cs:241-255 | the state becomes the created pass of the old one |
| EmulatedLayerProvider.EmulatedLayerProvider.RemoveDestroyedLayers | Unity/emg/Library/PackageCache/com.unity.xr.compositionlayers@437b07576726/Runtime/Emulation/EmulatedLayerProvider.cs:223-239 | the state becomes the removal pass of the old one |
| EmulatedLayerProvider.EmulatedLayerProvider.ModifyChangedLayers | Unity/emg/Library/PackageCache/com.unity.xr.compositionlayers@437b07576726/Runtime/Emulation/EmulatedLayerProvider.cs:163-179 | the state becomes the modify pass of the old one, so each emulated layer handed a component holds that component's current state |
| EmulatedLayerProvider.EmulatedLayerProvider.RefreshLayer | Unity/emg/Library/PackageCache/com.unity.xr.compositionlayers@437b07576726/Runtime/Emulation/EmulatedLayerProvider.cs:213-216 | a layer without data is modified, then every present layer is updated |
| EmulatedLayerProvider.EmulatedLayerProvider.UpdateActiveStateOnLayers | Unity/emg/Library/PackageCache/com.unity.xr.compositionlayers@437b07576726/Runtime/Emulation/EmulatedLayerProvider.cs:181-221 | the state becomes the active pass of the old one, stop included |
| EmulatedLayerProvider.EmulatedLayerProvider.SetInitialState | Unity/emg/Library/PackageCache/com.unity.xr.compositionlayers@437b07576726/Runtime/Emulation/EmulatedLayerProvider.cs:132-136 | the dictionary is emptied, then the given layers are added |
| EmulatedLayerProvider.EmulatedLayerProvider.UpdateActiveCamerasAndSortedLayers | Unity/emg/Library/PackageCache/com.unity.xr.compositionlayers@437b07576726/Runtime/Emulation/EmulatedLayerProvider.cs:339-395 | with no manager nothing changes; otherwise the cameras are the active ones and the sorted list holds exactly the drawn layers, one per id, by order |
| EmulatedLayerProvider.EmulatedLayerProvider.SetupRenderPipelineCommandBuffers | Unity/emg/Library/PackageCache/com.unity.xr.compositionlayers@437b07576726/Runtime/Emulation/EmulatedLayerProvider.cs:279-318 | with no manager nothing changes; otherwise a supported scriptable pipeline receives each sorted layer in the list of its kind, and the built-in pipeline attaches each sorted layer to the active cameras |
| EmulatedLayerProvider.EmulatedLayerProvider.TearDownRenderPipelineCommandBuffers | Unity/emg/Library/PackageCache/com.unity.xr.compositionlayers@437b07576726/Runtime/Emulation/EmulatedLayerProvider.cs:320-330 | both pipeline lists are emptied and each sorted layer is detached from the active cameras |
| EmulatedLayerProvider.EmulatedLayerProvider.DisposeAll | Unity/emg/Library/PackageCache/com.unity.xr.compositionlayers@437b07576726/Runtime/Emulation/EmulatedLayerProvider.cs:142-147 | every emulated layer is disposed exactly once and the dictionary is emptied |
| EmulatedLayerProvider.EmulatedLayerProvider.CleanupState | Unity/emg/Library/PackageCache/com.unity.xr.compositionlayers@437b07576726/Runtime/Emulation/EmulatedLayerProvider.cs:138-148 | after the tear-down every emulated layer is disposed once and the dictionary is emptied |
| EmulatedLayerProvider.EmulatedLayerProvider.UpdateLayers | Unity/emg/Library/PackageCache/com.unity.xr.compositionlayers@437b07576726/Runtime/Emulation/EmulatedLayerProvider.cs:150-161 | tear down, then the created, removed, modified and active passes in that order, then set up again |
| EmulatedLayerProvider.WarnOnceLaw | Unity/emg/Library/PackageCache/com.unity.xr.compositionlayers@437b07576726/Runtime/Emulation/EmulatedLayerProvider.cs:402-409 | between two connects the unsupported-emulation warning is given at most once: exactly when the flag was armed and a warning was asked for |
| EmulatedLayerProvider.EmulationConnection.WarnUnsupportedEmulation | Unity/emg/Library/PackageCache/com.unity.xr.compositionlayers@437b07576726/Runtime/Emulation/EmulatedLayerProvider.cs:402-409 | warns only while the flag is set, and clears it |
| EmulatedLayerProvider.EmulationConnection.OnManagerStarted | Unity/emg/Library/PackageCache/com.unity.xr.compositionlayers@437b07576726/Runtime/Emulation/EmulatedLayerProvider.cs:63-80 | an instance exists afterwards, the existing one kept, and an active manager is given it |
| EmulatedLayerProvider.EmulationConnection.Connect | Unity/emg/Library/PackageCache/com.unity.xr.compositionlayers@437b07576726/Runtime/Emulation/EmulatedLayerProvider.cs:44-52 | the warning is armed again, and an active manager is started with the instance |
| EmulatedLayerProvider.EmulationConnection.OnManagerStopped | Unity/emg/Library/PackageCache/com.unity.xr.compositionlayers@437b07576726/Runtime/Emulation/EmulatedLayerProvider.cs:82-102 | an instance's state is cleaned up, and an active manager holding it lets it go |
| EmulatedLayerData.BlendOfLaw | Unity/emg/Library/PackageCache/com.unity.xr.compositionlayers@437b07576726/Runtime/Emulation/EmulatedLayerData.cs:188-207 | alpha and premultiplied layers blend as the image filters' modes of the same name, and an additive layer adds its colour and alpha to the target's |
| EmulatedLayerData.CommandBufferTemp.Create | Unity/emg/Library/PackageCache/com.unity.xr.compositionlayers@437b07576726/Runtime/Emulation/EmulatedLayerData.cs:384-404 | an existing buffer is cleared and reused, a missing one allocated; either way it is empty and up to date |
| EmulatedLayerData.CommandBufferTemp.Release | Unity/emg/Library/PackageCache/com.unity.xr.compositionlayers@437b07576726/Runtime/Emulation/EmulatedLayerData.cs:406-419 | the buffer is dropped and the flag cleared, so a new one is required |
| EmulatedLayerData.EmulatedLayerData.constructor | Unity/emg/Library/PackageCache/com.unity.xr.compositionlayers@437b07576726/Runtime/Emulation/EmulatedLayerData.cs:20-54 | no layer, no type name, not initialized, no material, and both cached buffers required |
| EmulatedLayerData.EmulatedLayerData.InitializeLayerData | Unity/emg/Library/PackageCache/com.unity.xr.compositionlayers@437b07576726/Runtime/Emulation/EmulatedLayerData.cs:140-163 | nothing without a layer that has layer data; otherwise the layer is kept, the type named, the data initialized, and a material made when the type has a keyword and the shader exists |
| EmulatedLayerData.EmulatedLayerData.UpdateEmulatedLayerData | Unity/emg/Library/PackageCache/com.unity.xr.compositionlayers@437b07576726/Runtime/Emulation/EmulatedLayerData.cs:170-175 | both cached buffers become out of date and the material's blend follows the blend type of the layer data the component holds now |
| EmulatedLayerData.EmulatedLayerData.UpdateMaterial | Unity/emg/Library/PackageCache/com.unity.xr.compositionlayers@437b07576726/Runtime/Emulation/EmulatedLayerData.cs:177-207 | with a material, an emulated layer and current layer data the blend is the current blend type; without them the blend is kept |
| EmulatedLayerData.EmulatedLayerData.UpdateCommandBufferInternal | Unity/emg/Library/PackageCache/com.unity.xr.compositionlayers@437b07576726/Runtime/Emulation/EmulatedLayerData.cs:496-507 | a missing or stale buffer is remade holding exactly the layer's commands; an up-to-date one is returned unchanged |
| EmulatedLayerData.EmulatedLayerData.UpdateCommandBuffer | Unity/emg/Library/PackageCache/com.unity.xr.compositionlayers@437b07576726/Runtime/Emulation/EmulatedLayerData.cs:485-494 | a scene-view camera in the editor uses the scene view's buffer, every other camera the game view's |
| EmulatedLayerData.EmulatedLayerData.Dispose | Unity/emg/Library/PackageCache/com.unity.xr.compositionlayers@437b07576726/Runtime/Emulation/EmulatedLayerData.cs:342-355 | both buffers are released, the material dropped, and the data forgets its layer and is no longer initialized |
| LayerExtensions.EffectiveBlendType | Unity/emg/Library/PackageCache/com.unity.xr.compositionlayers@437b07576726/Runtime/Layers/LayerData.cs:49-60 | the stored blend type unless the platform lists supported types that exclude it; then the first supported one, so the answer is always supported when any are listed |
| LayerExtensions.UpdateValueLaw | Unity/emg/Library/PackageCache/com.unity.xr.compositionlayers@437b07576726/Runtime/Layers/LayerData.cs:78-86 | the stored value is always the new one, a change is reported exactly when the values differ or the old one was null, and storing the same value again reports nothing |
| LayerExtensions.TextureSequenceReports | Unity/emg/Library/PackageCache/com.unity.xr.compositionlayers@437b07576726/Tests/Runtime/Extensions/TexturesExtensionTests.cs:56-76 | setting white, white again, black, then null reports a change, none, a change and a change |
| LayerExtensions.SetBlendType | Unity/emg/Library/PackageCache/com.unity.xr.compositionlayers@437b07576726/Runtime/Layers/LayerData.cs:62 | the blend type becomes the new value and the callback runs exactly when it is set and the value changed |
| LayerExtensions.CompositionLayer.constructor | Unity/emg/Library/PackageCache/com.unity.xr.compositionlayers@437b07576726/Runtime/CompositionLayer.cs:76-77 | a layer starts with no extension |
| LayerExtensions.EnlistLaw | Unity/emg/Library/PackageCache/com.unity.xr.compositionlayers@437b07576726/Runtime/CompositionLayerExtension.cs:95-110 | enabling lists the extension exactly once and keeps the list duplicate-free; disabling takes it out, and disabling right after enabling gives the old list back |
| LayerExtensions.WithoutAppended | Unity/emg/Library/PackageCache/com.unity.xr.compositionlayers@437b07576726/Runtime/CompositionLayerExtension.cs:105-110 | removing an extension just appended to a list without it restores the list |
| LayerExtensions.CompositionLayerExtension.constructor | Unity/emg/Library/PackageCache/com.unity.xr.compositionlayers@437b07576726/Runtime/CompositionLayerExtension.cs:73-85 | the callback is the layer's, and there is none without a layer |
| LayerExtensions.CompositionLayerExtension.Report | Unity/emg/Library/PackageCache/com.unity.xr.compositionlayers@437b07576726/Runtime/CompositionLayerExtension.cs:101 | one report when the callback is set, none otherwise |
| LayerExtensions.CompositionLayerExtension.OnEnable | Unity/emg/Library/PackageCache/com.unity.xr.compositionlayers@437b07576726/Runtime/CompositionLayerExtension.cs:95-102 | the extension is enlisted in its layer, then one report |
| LayerExtensions.CompositionLayerExtension.OnDisable | Unity/emg/Library/PackageCache/com.unity.xr.compositionlayers@437b07576726/Runtime/CompositionLayerExtension.cs:105-110 | the extension leaves its layer's list when there is a layer, then one report |
| LayerExtensions.CompositionLayerExtension.OnDestroy | Unity/emg/Library/PackageCache/com.unity.xr.compositionlayers@437b07576726/Runtime/CompositionLayerExtension.cs:88-92 | a last report, then the callback is dropped |
| LayerExtensions.RectGetter | Unity/emg/Library/PackageCache/com.unity.xr.compositionlayers@437b07576726/Runtime/Extensions/TexturesExtension.cs:204-241 | without custom rects every rect getter answers the whole texture; with them, the stored rect |
| LayerExtensions.TextureAddedLaw | Unity/emg/Library/PackageCache/com.unity.xr.compositionlayers@437b07576726/Runtime/Extensions/TexturesExtension.cs:127-161 | the texture-added flag is never cleared by the setters, and is set exactly when it was set already or some assignment moved a texture from null to a texture |
| LayerExtensions.TexturesExtension.constructor | Unity/emg/Library/PackageCache/com.unity.xr.compositionlayers@437b07576726/Runtime/Extensions/TexturesExtension.cs:60-115 | every field holds its serialized default: local texture, both eyes, no textures, whole-texture rects, no custom rects, nothing added |
| LayerExtensions.TexturesExtension.ReportIf | Unity/emg/Library/PackageCache/com.unity.xr.compositionlayers@437b07576726/Runtime/CompositionLayerExtension.cs:120-128 | one report exactly when the value changed and the callback is set |
| LayerExtensions.TexturesExtension.SetTargetEye | Unity/emg/Library/PackageCache/com.unity.xr.compositionlayers@437b07576726/Runtime/Extensions/TexturesExtension.cs:120-124 | the eye becomes the new value; a change is reported; the textures and the flag stay |
| LayerExtensions.TexturesExtension.SetLeftTexture | Unity/emg/Library/PackageCache/com.unity.xr.compositionlayers@437b07576726/Runtime/Extensions/TexturesExtension.cs:129-138 | the left texture becomes the new value, the flag is set when a texture replaces null, and a change is reported as `UpdateValue` decides |
| LayerExtensions.TexturesExtension.SetRightTexture | Unity/emg/Library/PackageCache/com.unity.xr.compositionlayers@437b07576726/Runtime/Extensions/TexturesExtension.cs:143-152 | the same for the right texture |
| LayerExtensions.TexturesExtension.SetInEditorEmulation | Unity/emg/Library/PackageCache/com.unity.xr.compositionlayers@437b07576726/Runtime/Extensions/TexturesExtension.cs:166-170 | the emulation flag becomes the new value and a change is reported |
| LayerExtensions.TexturesExtension.SetCustomRects | Unity/emg/Library/PackageCache/com.unity.xr.compositionlayers@437b07576726/Runtime/Extensions/TexturesExtension.cs:175-179 | the custom-rects flag becomes the new value, a change is reported, and the stored rects stay |
| LayerExtensions.TexturesExtension.SetSourceTexture | Unity/emg/Library/PackageCache/com.unity.xr.compositionlayers@437b07576726/Runtime/Extensions/TexturesExtension.cs:184-188 | the source becomes the new value and a change is reported |
| LayerExtensions.TexturesExtension.SetResolution | Unity/emg/Library/PackageCache/com.unity.xr.compositionlayers@437b07576726/Runtime/Extensions/TexturesExtension.cs:193-197 | the resolution becomes the new value and a change is reported |
| LayerExtensions.TexturesExtension.SetCropToAspect | Unity/emg/Library/PackageCache/com.unity.xr.compositionlayers@437b07576726/Runtime/Extensions/TexturesExtension.cs:249-253 | the crop flag becomes the new value and a change is reported |
| LayerExtensions.TexturesExtension.SetLeftEyeSourceRect | Unity/emg/Library/PackageCache/com.unity.xr.compositionlayers@437b07576726/Runtime/Extensions/TexturesExtension.cs:203-208 | the rect is stored even while custom rects are off, and the getter shows it exactly when they are on |
| LayerExtensions.TexturesExtension.SetRightEyeSourceRect | Unity/emg/Library/PackageCache/com.unity.xr.compositionlayers@437b07576726/Runtime/Extensions/TexturesExtension.cs:214-219 | the same for the right source rect |
| LayerExtensions.TexturesExtension.SetLeftEyeDestinationRect | Unity/emg/Library/PackageCache/com.unity.xr.compositionlayers@437b07576726/Runtime/Extensions/TexturesExtension.cs:225-230 | the same for the left destination rect |
| LayerExtensions.TexturesExtension.SetRightEyeDestinationRect | Unity/emg/Library/PackageCache/com.unity.xr.compositionlayers@437b07576726/Runtime/Extensions/TexturesExtension.cs:236-241 | the same for the right destination rect |
| UserLayerCache.FirstBlank | Unity/emg/Library/PackageCache/com.unity.xr.compositionlayers@437b07576726/Runtime/Services/UserLayerCache.cs:30-39 | the first layer at or after the start that is both unnamed and not taken, or -1 exactly when there is none |
| UserLayerCache.OccupyReleaseLaw | Unity/emg/Library/PackageCache/com.unity.xr.compositionlayers@437b07576726/Runtime/Services/UserLayerCache.cs:27-73 | taking the answered layer makes the next answer differ, and handing it back makes it the answer again |
| UserLayerCache.OccupyIncreasingLaw | Unity/emg/Library/PackageCache/com.unity.xr.compositionlayers@437b07576726/Runtime/Services/UserLayerCache.cs:27-45 | while nothing is handed back, each occupation answers a higher layer than the one before |
| UserLayerCache.UserLayerCache.constructor | Unity/emg/Library/PackageCache/com.unity.xr.compositionlayers@437b07576726/Runtime/Services/UserLayerCache.cs:9-18 | 32 flags, each set exactly when its layer has no name |
| UserLayerCache.UserLayerCache.OccupyBlankLayer | Unity/emg/Library/PackageCache/com.unity.xr.compositionlayers@437b07576726/Runtime/Services/UserLayerCache.cs:27-63 | the first free layer from 8 on is taken (the answer is that of FirstBlank), the object and all its descendants move to it, and every camera asked stops drawing it; with no free layer the answer is -1 and nothing changes |
| UserLayerCache.UserLayerCache.UnOccupyBlankLayer | Unity/emg/Library/PackageCache/com.unity.xr.compositionlayers@437b07576726/Runtime/Services/UserLayerCache.cs:65-73 | a present object's layer is free again and the object and all its descendants move to the Default layer; a null object changes nothing |
| UserLayerCache.ChangeLayerOfAllChildren | Unity/emg/Library/PackageCache/com.unity.xr.compositionlayers@437b07576726/Runtime/Services/UserLayerCache.cs:20-25 | the object and every object below it end on the layer |
| LayerSlots.FirstFrom | Unity/emg/Library/PackageCache/com.unity.xr.compositionlayers@437b07576726/Runtime/UIInteraction/TagManagerController.cs:42-53 | the first index from the start whose slot holds the name, or None exactly when no later slot holds it |
| LayerSlots.AddLayerLaw | Unity/emg/Library/PackageCache/com.unity.xr.compositionlayers@437b07576726/Runtime/UIInteraction/TagManagerController.cs:34-68 | adding succeeds exactly when the name is already in a slot from 8 on or such a slot is empty; afterwards the name holds a slot from 8 on; at most one empty slot changes, built-in slots never do, and adding again changes nothing |
| LayerSlots.RemoveLayerClearsUnrelatedSlot | Unity/emg/Library/PackageCache/com.unity.xr.compositionlayers@437b07576726/Runtime/UIInteraction/TagManagerController.cs:83-93 | as written, removing a name no slot holds still empties the last slot |
| LayerSlots.RemoveLayerCounterexample | Unity/emg/Library/PackageCache/com.unity.xr.compositionlayers@437b07576726/Runtime/UIInteraction/TagManagerController.cs:83-93 | removing "Missing" from Default, Canvas, UI empties the UI slot |
| LayerSlots.RemoveLayerLaw | Unity/emg/Library/PackageCache/com.unity.xr.compositionlayers@437b07576726/Runtime/UIInteraction/TagManagerController.cs:74-96 | the corrected removal changes nothing for a null or absent name, otherwise empties exactly the first slot holding it, and agrees with the code as written whenever the name is present |
| LayerSlots.ClearContaining | Unity/emg/Library/PackageCache/com.unity.xr.compositionlayers@437b07576726/Runtime/UIInteraction/TagManagerController.cs:98-107 | the slot list keeps its length |
| LayerSlots.ClearContainingLaw | Unity/emg/Library/PackageCache/com.unity.xr.compositionlayers@437b07576726/Runtime/UIInteraction/TagManagerController.cs:98-107 | built-in slots stay, every slot from 8 on ends empty or free of the text, slots without the text stay, and clearing again changes nothing |
| LayerSlots.TagManagerController.constructor | Unity/emg/Library/PackageCache/com.unity.xr.compositionlayers@437b07576726/Runtime/UIInteraction/TagManagerController.cs:23-27 | the controller edits the given layer array |
| LayerSlots.TagManagerController.TryAddLayer | Unity/emg/Library/PackageCache/com.unity.xr.compositionlayers@437b07576726/Runtime/UIInteraction/TagManagerController.cs:34-68 | the answer and the new array are those of the add step on the old array |
| LayerSlots.TagManagerController.RemoveLayer | Unity/emg/Library/PackageCache/com.unity.xr.compositionlayers@437b07576726/Runtime/UIInteraction/TagManagerController.cs:74-96 | the new array is the removal as written of the old one |
| LayerSlots.TagManagerController.RemoveAllLayersContaining | Unity/emg/Library/PackageCache/com.unity.xr.compositionlayers@437b07576726/Runtime/UIInteraction/TagManagerController.cs:98-107 | the new array is the old one with every matching slot from 8 on emptied |
| LayerSlots.EyeRigOverwritesDefault | Unity/emg/Library/PackageCache/com.unity.xr.compositionlayers@437b07576726/Editor/Layers/ProjectionEyeRigUtil.cs:138-150 | as written, a full list given a new name writes it over slot 0, the Default layer, and answers 0 |
| LayerSlots.EyeRigSlotLaw | Unity/emg/Library/PackageCache/com.unity.xr.compositionlayers@437b07576726/Editor/Layers/ProjectionEyeRigUtil.cs:119-154 | the corrected search never writes a built-in slot except by finding the name there; an answered slot holds the name; there is no answer exactly when the name is absent and no slot from 8 on is empty; it agrees with the code as written unless the list is full |
| LayerSlots.AddLayerIdForProjectionEyeRig | Unity/emg/Library/PackageCache/com.unity.xr.compositionlayers@437b07576726/Editor/Layers/ProjectionEyeRigUtil.cs:119-154 | the index and the new array are those of the search as written on the old array |
| LayerSlots.SetUp | Unity/emg/Library/PackageCache/com.unity.xr.compositionlayers@437b07576726/Editor/Layers/ProjectionEyeRigUtil.cs:71-117 | fails, writing nothing, for an empty name or no object; otherwise the name gets a slot, the object and its direct children move to that layer and take the name, a main camera stops drawing it and the eye cameras draw only it, one step below the main camera's depth |
| PlatformSelector.FirstFor | Unity/emg/Library/PackageCache/com.unity.xr.compositionlayers@437b07576726/Editor/Services/PlatformSelector.cs:89-96 | the provider found for a loader type is one made for it, and there is none exactly when no provider is made for it |
| PlatformSelector.FirstForIs | Unity/emg/Library/PackageCache/com.unity.xr.compositionlayers@437b07576726/Editor/Services/PlatformSelector.cs:89-96 | the provider found is the one at the first index made for the loader type |
| PlatformSelector.CollectLaw | Unity/emg/Library/PackageCache/com.unity.xr.compositionlayers@437b07576726/Editor/Services/PlatformSelector.cs:84-97 | collecting over two runs of loaders concatenates; there are at most as many providers as loaders, each one of the given providers made for one of the loaders |
| PlatformSelector.CollectBounds | Unity/emg/Library/PackageCache/com.unity.xr.compositionlayers@437b07576726/Editor/Services/PlatformSelector.cs:84-97 | at most one provider per loader, each made for one of the loaders |
| PlatformSelector.ActiveProviderLaw | Unity/emg/Library/PackageCache/com.unity.xr.compositionlayers@437b07576726/Editor/Services/PlatformSelector.cs:74-100 | no active provider without providers or loaders, or when no loader has a provider; otherwise the provider found for the first loader that has one |
| PlatformSelector.PlatformSelector.constructor | Unity/emg/Library/PackageCache/com.unity.xr.compositionlayers@437b07576726/Editor/Services/PlatformSelector.cs:130 | no active provider and no cached path |
| PlatformSelector.PlatformSelector.UpdateActivePlatformProviders | Unity/emg/Library/PackageCache/com.unity.xr.compositionlayers@437b07576726/Editor/Services/PlatformSelector.cs:74-100 | the nested loops set the active provider to the value the collection specifies and leave the cached path alone |
| PlatformSelector.PlatformSelector.GetXRGeneralSettingsAssetPath | Unity/emg/Library/PackageCache/com.unity.xr.compositionlayers@437b07576726/Editor/Services/PlatformSelector.cs:133-149 | the path and the new cache are those of the settings-path lookup on the old cache |
| PlatformSelector.SettingsPathLaw | Unity/emg/Library/PackageCache/com.unity.xr.compositionlayers@437b07576726/Editor/Services/PlatformSelector.cs:130-149 | a cached path answers unchanged; a missing settings object gives "Assets/XR/XRGeneralSettings.asset" and caches nothing; once a path is cached every later call returns it |
| EditorPlatformManager.IsSupportedLayerData | Unity/emg/Library/PackageCache/com.unity.xr.compositionlayers@437b07576726/Editor/Services/EditorPlatformManager.cs:113-123 | no layer data, or a provider without a list, is supported; otherwise exactly when the data's type is listed |
| EditorPlatformManager.IsSupportedLayerDataName | Unity/emg/Library/PackageCache/com.unity.xr.compositionlayers@437b07576726/Editor/Services/EditorPlatformManager.cs:131-141 | a null or empty name, or a provider without a list, is supported; otherwise exactly when a listed type has that full name |
| EditorPlatformManager.SupportOverloadsAgree | Unity/emg/Library/PackageCache/com.unity.xr.compositionlayers@437b07576726/Editor/Services/EditorPlatformManager.cs:113-141 | the type and the full-name overloads give the same answer |
| EditorPlatformManager.IsInternal | Unity/emg/Library/PackageCache/com.unity.xr.compositionlayers@437b07576726/Editor/Services/EditorPlatformManager.cs:148-157 | a provider is internal exactly when it serves the mirror view or the emulation; none without a layer provider type |
| EditorPlatformManager.CountSupportingLaw | Unity/emg/Library/PackageCache/com.unity.xr.compositionlayers@437b07576726/Editor/Services/EditorPlatformManager.cs:173-180 | the count never exceeds the providers and reaches their number exactly when every one supports the data |
| EditorPlatformManager.IsSupportedLayerDataAllPlatforms | Unity/emg/Library/PackageCache/com.unity.xr.compositionlayers@437b07576726/Editor/Services/EditorPlatformManager.cs:164-181 | a null or empty name, or no active provider, is supported; otherwise exactly when every active provider supports it |
| EditorPlatformManager.ActiveLayerProviderTypes | Unity/emg/Library/PackageCache/com.unity.xr.compositionlayers@437b07576726/Editor/Services/EditorPlatformManager.cs:98-105 | every layer provider type except the emulated one |
| EditorPlatformManager.AddDefaultsLaw | Unity/emg/Library/PackageCache/com.unity.xr.compositionlayers@437b07576726/Editor/Services/EditorPlatformManager.cs:46-55 | the discovered providers stay first and unchanged, every active layer provider type is then served, and each added provider is the single default for a type nobody served |
| EditorPlatformManager.HdrProviders | Unity/emg/Library/PackageCache/com.unity.xr.compositionlayers@437b07576726/Editor/Services/EditorPlatformManager.cs:71-79 | exactly the providers that are not internal and support HDR |
| EditorPlatformManager.HdrIgnoresDefaults | Unity/emg/Library/PackageCache/com.unity.xr.compositionlayers@437b07576726/Editor/Services/EditorPlatformManager.cs:46-79 | adding default providers leaves the HDR list unchanged |
| EditorPlatformManager.EditorPlatformManager.constructor | Unity/emg/Library/PackageCache/com.unity.xr.compositionlayers@437b07576726/Editor/Services/EditorPlatformManager.cs:31-33 | empty lists and no HDR support |
| EditorPlatformManager.EditorPlatformManager.Refresh | Unity/emg/Library/PackageCache/com.unity.xr.compositionlayers@437b07576726/Editor/Services/EditorPlatformManager.cs:41-62 | the discovered providers plus a default for each unserved type, or only the default emulated provider when none was discovered; the data types as discovered; then the HDR list |
| EditorPlatformManager.EditorPlatformManager.RefreshSupportingHDRProviders | Unity/emg/Library/PackageCache/com.unity.xr.compositionlayers@437b07576726/Editor/Services/EditorPlatformManager.cs:64-82 | the HDR list is rebuilt from the active providers and HDR is supported exactly when it is non-empty; nothing else changes |
| EditorPlatformManager.RefreshHdrLaw | Unity/emg/Library/PackageCache/com.unity.xr.compositionlayers@437b07576726/Editor/Services/EditorPlatformManager.cs:41-82 | after a refresh HDR is supported exactly when some discovered provider that is not internal supports it |
| RuntimeSettingsEditor.FindIndex | Unity/emg/Library/PackageCache/com.unity.xr.compositionlayers@437b07576726/Editor/CompositionLayersRuntimeSettingsEditor.cs:161 | -1 exactly when no scene has the path; otherwise the first index holding it |
| RuntimeSettingsEditor.SceneAfterSplashInBuildSettings | Unity/emg/Library/PackageCache/com.unity.xr.compositionlayers@437b07576726/Editor/CompositionLayersRuntimeSettingsEditor.cs:157-170 | true exactly when the splash scene is listed and an enabled scene follows its first occurrence |
| RuntimeSettingsEditor.ToggledLaw | Unity/emg/Library/PackageCache/com.unity.xr.compositionlayers@437b07576726/Editor/CompositionLayersRuntimeSettingsEditor.cs:81-90 | once enabled the splash scene is first, and an added one is enabled with the other scenes after it; once disabled a leading splash scene is removed and nothing else; without the splash asset nothing changes |
| RuntimeSettingsEditor.ToggleRoundTrip | Unity/emg/Library/PackageCache/com.unity.xr.compositionlayers@437b07576726/Editor/CompositionLayersRuntimeSettingsEditor.cs:81-90 | enabling then disabling gives the original list back, and enabling twice adds the scene once |
| RuntimeSettingsEditor.BuildSettings.constructor | Unity/emg/Library/PackageCache/com.unity.xr.compositionlayers@437b07576726/Editor/CompositionLayersRuntimeSettingsEditor.cs:149 | the scene list as given |
| RuntimeSettingsEditor.BuildSettings.AddSceneAtIndex | Unity/emg/Library/PackageCache/com.unity.xr.compositionlayers@437b07576726/Editor/CompositionLayersRuntimeSettingsEditor.cs:172-177 | an enabled entry is inserted at the index and the rest keep their order |
| RuntimeSettingsEditor.BuildSettings.RemoveSceneAtIndex | Unity/emg/Library/PackageCache/com.unity.xr.compositionlayers@437b07576726/Editor/CompositionLayersRuntimeSettingsEditor.cs:179-184 | the entry at the index is removed and the rest keep their order |
| RuntimeSettingsEditor.BuildSettings.ApplySplashToggle | Unity/emg/Library/PackageCache/com.unity.xr.compositionlayers@437b07576726/Editor/CompositionLayersRuntimeSettingsEditor.cs:81-90 | the new list is the toggle applied to the old one |
| RuntimeSettingsEditor.DrawnLayerDataFields | Unity/emg/Library/PackageCache/com.unity.xr.compositionlayers@437b07576726/Editor/CompositionLayersRuntimeSettingsEditor.cs:119-129 | a field is drawn exactly when it belongs to the layer data and is not ignored |
| RuntimeSettingsEditor.DrawPropertyLaw | Unity/emg/Library/PackageCache/com.unity.xr.compositionlayers@437b07576726/Editor/CompositionLayersRuntimeSettingsEditor.cs:56-145 | the toggle is always drawn; a disabled splash hides every splash setting; an enabled one draws exactly the selected type's layer data; every other property gets the default field |
| EmulatedCompositionLayerUtils.AddAttributesLaw | Unity/emg/Library/PackageCache/com.unity.xr.compositionlayers@437b07576726/Runtime/Emulation/EmulatedCompositionLayerUtils.cs:39-46 | the attribute loop succeeds exactly when its layer-data types are distinct and none is registered; then each maps to the emulated type; entries already there are never replaced, and a failure names a type already registered |
| EmulatedCompositionLayerUtils.RegisterLaw | Unity/emg/Library/PackageCache/com.unity.xr.compositionlayers@437b07576726/Runtime/Emulation/EmulatedCompositionLayerUtils.cs:24-48 | the whole build succeeds exactly when every concrete type has an attribute and the claimed layer-data types are distinct and unregistered; old entries stay, and every new entry maps a layer-data type to a concrete type declaring it |
| EmulatedCompositionLayerUtils.RegisteredFromEmpty | Unity/emg/Library/PackageCache/com.unity.xr.compositionlayers@437b07576726/Runtime/Emulation/EmulatedCompositionLayerUtils.cs:19-48 | from an empty registry a successful build registers every layer-data type a concrete type declares, under that type |
| EmulatedCompositionLayerUtils.EmulatedLayerDataTypes.constructor | Unity/emg/Library/PackageCache/com.unity.xr.compositionlayers@437b07576726/Runtime/Emulation/EmulatedCompositionLayerUtils.cs:10 | the registry starts empty |
| EmulatedCompositionLayerUtils.EmulatedLayerDataTypes.GetEmulatedLayerDataTypes | Unity/emg/Library/PackageCache/com.unity.xr.compositionlayers@437b07576726/Runtime/Emulation/EmulatedCompositionLayerUtils.cs:24-48 | the nested loops leave the registry and the exception that the build specifies, entries added before a throw included |
| EmulatedCompositionLayerUtils.EmulatedLayerDataTypes.GetEmulatedLayerDataType | Unity/emg/Library/PackageCache/com.unity.xr.compositionlayers@437b07576726/Runtime/Emulation/EmulatedCompositionLayerUtils.cs:55-62 | None for no type or an unregistered one, and otherwise the registered emulated type |
| EmulatedCompositionLayerUtils.AddAttributesStops | Unity/emg/Library/PackageCache/com.unity.xr.compositionlayers@437b07576726/Runtime/Emulation/EmulatedCompositionLayerUtils.cs:41-45 | once the attribute loop has thrown, later attributes change nothing |
| EmulatedCompositionLayerUtils.PrefixStops | Unity/emg/Library/PackageCache/com.unity.xr.compositionlayers@437b07576726/Runtime/Emulation/EmulatedCompositionLayerUtils.cs:34-44 | once the build has thrown, later types change nothing |
| EmulatedCompositionLayerUtils.EmulationFlag | Unity/emg/Library/PackageCache/com.unity.xr.compositionlayers@437b07576726/Runtime/Emulation/EmulatedCompositionLayerUtils.cs:12-17 | false while no getter is installed, and otherwise the getter's answer |
| CompositionLayerAnalytics.FirstTextures | Unity/emg/Library/PackageCache/com.unity.xr.compositionlayers@437b07576726/Runtime/CompositionLayerAnalyticsHelper.cs:110-112 | the source of the first textures extension, and None exactly when the layer has none |
| CompositionLayerAnalytics.UsageKeyLaw | Unity/emg/Library/PackageCache/com.unity.xr.compositionlayers@437b07576726/Runtime/CompositionLayerAnalyticsHelper.cs:93-118 | other layer types are counted under their own name; a quad or cylinder key is the type name followed by ".InteractableUI" exactly when the layer mirrors interactable UI and ".AndroidSurface" exactly when its first textures extension reads from an Android surface |
| CompositionLayerAnalytics.Increment | Unity/emg/Library/PackageCache/com.unity.xr.compositionlayers@437b07576726/Runtime/CompositionLayerAnalyticsHelper.cs:125-132 | the key's count goes up by one, starting at 1 when new, and no other count changes |
| CompositionLayerAnalytics.IncrementSum | Unity/emg/Library/PackageCache/com.unity.xr.compositionlayers@437b07576726/Runtime/CompositionLayerAnalyticsHelper.cs:125-132 | one increment raises the sum of all counts by one |
| CompositionLayerAnalytics.IncrementGet | Unity/emg/Library/PackageCache/com.unity.xr.compositionlayers@437b07576726/Runtime/CompositionLayerAnalyticsHelper.cs:125-132 | one increment raises exactly the key's count |
| CompositionLayerAnalytics.TallySceneLaw | Unity/emg/Library/PackageCache/com.unity.xr.compositionlayers@437b07576726/Runtime/CompositionLayerAnalyticsHelper.cs:86-134 | every key's count grows by the number of counted layers of that key, and no key is lost |
| CompositionLayerAnalytics.TallySceneSum | Unity/emg/Library/PackageCache/com.unity.xr.compositionlayers@437b07576726/Runtime/CompositionLayerAnalyticsHelper.cs:86-134 | the sum of all counts grows by the number of counted layers |
| CompositionLayerAnalytics.AsWrittenAgreesWithData | Unity/emg/Library/PackageCache/com.unity.xr.compositionlayers@437b07576726/Runtime/CompositionLayerAnalyticsHelper.cs:91-134 | when every layer has layer data the scan as written and the corrected one agree |
| CompositionLayerAnalytics.AnalyticsThrowsOnLayerWithoutData | Unity/emg/Library/PackageCache/com.unity.xr.compositionlayers@437b07576726/Runtime/CompositionLayerAnalyticsHelper.cs:93-94 | a scene with a quad layer and a layer without data makes the scan as written throw, while the corrected scan counts the quad once |
| CompositionLayerAnalytics.TallyAllSum | Unity/emg/Library/PackageCache/com.unity.xr.compositionlayers@437b07576726/Runtime/CompositionLayerAnalyticsHelper.cs:59-80 | the total usage equals the number of counted layers in the enabled scenes |
| CompositionLayerAnalytics.CompositionLayerAnalyticsHelper.constructor | Unity/emg/Library/PackageCache/com.unity.xr.compositionlayers@437b07576726/Runtime/CompositionLayerAnalyticsHelper.cs:24-53 | no usage, zero totals, splash off |
| CompositionLayerAnalytics.CompositionLayerAnalyticsHelper.ProcessSceneLayerTypesUsage | Unity/emg/Library/PackageCache/com.unity.xr.compositionlayers@437b07576726/Runtime/CompositionLayerAnalyticsHelper.cs:86-134 | nothing without a manager; otherwise each counted layer is tallied and the colour scale-bias count grows by the layers carrying that extension |
| CompositionLayerAnalytics.CompositionLayerAnalyticsHelper.ProcessCompositionLayersAnalyticsData | Unity/emg/Library/PackageCache/com.unity.xr.compositionlayers@437b07576726/Runtime/CompositionLayerAnalyticsHelper.cs:59-80 | after a reset every enabled scene is scanned in order; the total is the sum of the counts, which is the number of counted layers; the splash flag is copied |
| CompositionLayerAnalytics.SumOfValues | Unity/emg/Library/PackageCache/com.unity.xr.compositionlayers@437b07576726/Runtime/CompositionLayerAnalyticsHelper.cs:78 | the loop adds up exactly the map's counts |

## Left out

General:
- Threads, locks, stop events, sockets, UDP, the child process, the console, the terminal, matplotlib and the clock are not modelled. The inputs they would deliver are given sequences, and each loop is a sequential fold over them.
- Floating point is not modelled: float32 rounding in the placeholder classifier and the HDR colour arithmetic. Elapsed time is a whole number of microseconds or milliseconds.
- `json.loads`, `JsonUtility.FromJson` and the regular-expression engine are not modelled as such. The decoders are function parameters; the bracket scan is written out.
- UTF-8 decoding is a given function of one read: it may fail for the terminal receiver and never fails for the scene's receiver. Both receivers decode each read on its own, so what a character split across two reads becomes is up to that function.
- Signal processing and learning are given functions: detrend, notch and bandpass filters, STFT, `log1p`, normalisation, the network, the optimiser and the random permutation.
- TrainSingleSubject.TrainCount: `int(0.8 * N)` is modelled as `(4 * N) / 5`. The two agree as integers, but the float product is not modelled.
- C# `int` overflow is not modelled. Orders, counts and indices are unbounded integers.
- Reflection is not modelled: `TypeCache`, `Activator`, attribute scans and `GetType`. Types are given as names or identifiers, in the order the discovery would yield them.
- The Unity engine is not modelled: command buffers, materials, shaders, render textures, cameras, meshes, transforms and the XR display subsystem. A command buffer is its list of commands and a material is its blend mode.
- Culling masks are sets of layer indices, not 32-bit masks.
- `Environment.NewLine` is "\n". `ToUpper` is ASCII only. A null string in a C# list is the empty string.

Composition layers:
- CompositionLayer.InitializeLayerOrder (Runtime/CompositionLayer.cs:212-244) is not modelled. It is delay-called engine glue over the modelled CanChangeOrderTo, GetNextUnusedLayer and TryChangeLayerOrder.
- LayerManager.CompositionLayerManager.CompositionLayerCreated: `EnsureSceneCompositionManager` is not modelled (Runtime/Services/CompositionLayerManager.cs:307-326). It creates the hidden object whose callbacks drive the manager's Awake, Update and LateUpdate, and the projection-rig synchronizer. Both are engine glue.
- LayerManager.CompositionLayerManager.EnsureFallbackSceneCompositionLayer: the engine's Awake and OnEnable callbacks for the fresh fallback layer are not modelled. They fire when its object is activated and report it as created and enabled. In the model the fresh layer holds order 0 but is not yet known or active.
- LayerProviderState.ReadComponent: an emulated layer reads its component only when a pass hands it that component. A component that changes without appearing in the created, modified or active lists keeps the state last read, while the code reads `Order` and `Enabled` when it sorts. The same holds for an entry handed a null component: the code would read it as disabled with order `int.MinValue`.
- The projection-rig synchronizer calls and the scene search after a reorder are not modelled (Editor/Layers/CompositionLayersWindow.cs:84).
- WritePlatformLayerData and ReadPlatformLayerData are not modelled (Editor/Layers/PlatformLayerDataUtil.cs:60-87). They are asset I/O.
- A null key in GetPlatformLayerDataTypeFromKey is not modelled. Keys are strings.
- The type-based DeserializePlatformLayerData is covered only through the restore path (Runtime/CompositionLayer.cs:562-576).
- EmulatedLayerData.EmulatedLayerData.UpdateMaterial: only the blend-mode part is modelled. Texture, rect, tint and transform uniforms are not (Runtime/Emulation/EmulatedLayerData.cs:213-336).
- The abstract `PrepareCommands` and `AddCommands` of emulated layer data are not modelled. The commands a layer adds are given.
- The profiler markers, the logs of attach and detach, and the scene-view type check are not modelled.
- `CommandBufferPool` is not distinguished from `new CommandBuffer`.
- SRP support is a flag, `Shader.Find` is whether the shader exists, and the standalone-camera branch is a given flag.
- Event subscription is a count of handlers.
- `SceneVisibilityManager` and `Tools.visibleLayers` are not modelled.
- UserLayerCache.ChangeLayerOfAllChildren: the transform hierarchy is not modelled. The objects below the object are given as a list, so the order of the recursive walk over the children is not captured; every one of them, at any depth, moves to the layer.
- The blit geometry and matrices of the mirror view, and foveated rendering, are not modelled.
- A command buffer's size is only "has commands".
- The HDR sample's texture objects are identifiers. Fill is given in-range rectangles.
- The suggested-extension component types are not modelled.
- Editor drawing beyond the property dispatch of the runtime-settings inspector is not modelled.
- The scene opening of the analytics pass is given as the layers of each enabled scene. `hideFlags` is a boolean. The UI-mirror component lookup is a boolean.
- The provider types of the default platform provider are names. The XR loaders are their type names. The settings asset's path is an Option.

## Findings

| source | as written | input that shows it | evidently intended | confidence | as-written member | corrected member |
|---|---|---|---|---|---|---|
| Unity/emg/Library/PackageCache/com.unity.xr.compositionlayers@437b07576726/Runtime/Services/CompositionLayerUtils.cs:299-305 | `TrySwapLayers` returns true whatever the two `Order` setters did | a right-hand layer at order 0 and a left-hand layer without default layer data: the first move is refused, both layers end at the left-hand order, and the call reports success | succeed only when both moves are allowed, and then exchange the orders | medium, not executed | LayerManager.TrySwapLayers | LayerManager.TrySwapLayersChecked |
| Unity/emg/Library/PackageCache/com.unity.xr.compositionlayers@437b07576726/Editor/Layers/CompositionLayerEditorUtils.cs:247-252 | the editor's layer comparer answers 1 for two layers of equal order, so it is not antisymmetric | any two layers of the same order, or a layer compared with itself | answer 0 for equal orders, a valid ordering for `List.Sort` | high, not executed | LayerEditor.EditorLayerSorterNotAntisymmetric | LayerEditor.EditorLayerSorterFixedIsOrder |
| Unity/emg/Library/PackageCache/com.unity.xr.compositionlayers@437b07576726/Runtime/UIInteraction/TagManagerController.cs:78-95 | `RemoveLayer` empties the last slot it looked at when no slot holds the name | ["Default", "Canvas", "UI"] with "Missing" empties the UI slot | change nothing when the name is absent | high, not executed | LayerSlots.RemoveLayerCounterexample | LayerSlots.RemoveLayerLaw |
| Unity/emg/Library/PackageCache/com.unity.xr.compositionlayers@437b07576726/Editor/Layers/ProjectionEyeRigUtil.cs:138-150 | with no empty slot from 8 on, the new layer name is written over slot 0, the Default layer | a layer list with every slot from 8 on named, and a new name | fail without writing a built-in slot | high, not executed | LayerSlots.EyeRigOverwritesDefault | LayerSlots.EyeRigSlotLaw |
| Unity/emg/Library/PackageCache/com.unity.xr.compositionlayers@437b07576726/Runtime/Rendering/MirrorViewLayerProvider.cs:30-52 | connect and disconnect are guarded by the instance, which an inactive manager never creates: connecting subscribes again every time, and disconnecting returns early | connect while the manager is inactive, disconnect, then start the manager: the provider is created and registered although it was disconnected | at most one subscription, and no registration after a disconnect | medium, not executed | MirrorViewLayerProvider.DisconnectLeavesHandlers | MirrorViewLayerProvider.NoRegistrationAfterDisconnect |
| Unity/emg/Library/PackageCache/com.unity.xr.compositionlayers@437b07576726/Runtime/CompositionLayerAnalyticsHelper.cs:93-94 | `layer.LayerData?.GetType().FullName` throws for a layer without layer data, ending the scan | a scene holding a quad layer and a layer whose data was removed | skip layers without layer data and count the others | medium, not executed | CompositionLayerAnalytics.AnalyticsThrowsOnLayerWithoutData | CompositionLayerAnalytics.TallySceneLaw |
