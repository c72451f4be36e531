// The Unity scene's receiver (Unity/emg/Assets/SocketReceiver.cs): TCP reads
// are framed into lines with a carried-over remainder, every non-empty line
// and every UDP datagram is decoded into a packet and queued, and the main
// thread drains the queue once per frame.

module SocketReceiver {
  import opened Text
  import opened Wrappers
  import opened Framing

  /** The decoded payload: a classification label and a confidence percentage. */
  datatype DataPacket = DataPacket(classification: string, confidence: int)

  const TextPrefix: string := "[Classification: "
  const TextMiddle: string := ", Confidence: "
  const TextSuffix: string := "%]"

  /** The packet's description: label and confidence in brackets, the confidence as a percentage. */
  function PacketText(p: DataPacket): (r: string)
    ensures |r| == |TextPrefix| + |p.classification| + |TextMiddle| + |IntToString(p.confidence)| + |TextSuffix|
    ensures r[..|TextPrefix|] == TextPrefix
    ensures r[|TextPrefix|..|TextPrefix| + |p.classification|] == p.classification
    ensures r[|r| - |TextSuffix| - |IntToString(p.confidence)|..|r| - |TextSuffix|] == IntToString(p.confidence)
    ensures r[|r| - |TextSuffix|..] == TextSuffix
  {
    TextPrefix + p.classification + TextMiddle + IntToString(p.confidence) + TextSuffix
  }

  /** What the stream's complete lines put on the queue: the decoded non-empty lines, in order. */
  function Packets(lines: seq<string>, parse: string -> Option<DataPacket>): seq<DataPacket>
    decreases |lines|
  {
    if |lines| == 0 then []
    else
      var here := if |lines[0]| == 0 then [] else Queued(lines[0], parse);
      here + Packets(lines[1..], parse)
  }

  /** What one message puts on the queue: its packet when it decodes, nothing when it does not. */
  function Queued(message: string, parse: string -> Option<DataPacket>): seq<DataPacket>
  {
    match parse(message)
    case Some(p) => [p]
    case None => []
  }

  lemma {:induction false} PacketsAppend(a: seq<string>, b: seq<string>, parse: string -> Option<DataPacket>)
    ensures Packets(a + b, parse) == Packets(a, parse) + Packets(b, parse)
    decreases |a|
  {
    if |a| == 0 {
      assert a + b == b;
    } else {
      assert (a + b)[1..] == a[1..] + b;
      PacketsAppend(a[1..], b, parse);
    }
  }

  /** Every non-empty line that decodes contributes its packet, and nothing else is queued. */
  lemma {:induction false} PacketsAreDecodedLines(lines: seq<string>, parse: string -> Option<DataPacket>)
    ensures forall p :: p in Packets(lines, parse) <==>
      exists k :: 0 <= k < |lines| && |lines[k]| > 0 && parse(lines[k]) == Some(p)
    decreases |lines|
  {
    if |lines| > 0 {
      PacketsAreDecodedLines(lines[1..], parse);
      forall p ensures p in Packets(lines, parse) <==>
        exists k :: 0 <= k < |lines| && |lines[k]| > 0 && parse(lines[k]) == Some(p)
      {
        if exists k :: 0 <= k < |lines| && |lines[k]| > 0 && parse(lines[k]) == Some(p) {
          var k :| 0 <= k < |lines| && |lines[k]| > 0 && parse(lines[k]) == Some(p);
          if k > 0 { assert lines[1..][k - 1] == lines[k]; }
        }
        if p in Packets(lines[1..], parse) {
          var k :| 0 <= k < |lines[1..]| && |lines[1..][k]| > 0 && parse(lines[1..][k]) == Some(p);
          assert lines[k + 1] == lines[1..][k];
        }
      }
    }
  }

  /**
   * Chunk-boundary independence: two read sequences whose reads, each
   * decoded on its own (`utf8`), carry the same text queue the same packets
   * and leave the same remainder.
   */
  lemma ChunkBoundariesDoNotMatter(rest: string, incoming1: seq<seq<Byte>>, incoming2: seq<seq<Byte>>,
                                   utf8: seq<Byte> -> string, parse: string -> Option<DataPacket>)
    requires Newline !in rest
    requires Concat(DecodeEach(incoming1, utf8)) == Concat(DecodeEach(incoming2, utf8))
    ensures Feed(rest, DecodeEach(incoming1, utf8)).1 == Feed(rest, DecodeEach(incoming2, utf8)).1
    ensures Packets(Feed(rest, DecodeEach(incoming1, utf8)).0, parse) == Packets(Feed(rest, DecodeEach(incoming2, utf8)).0, parse)
  {
    FeedFramesConcat(rest, DecodeEach(incoming1, utf8));
    FeedFramesConcat(rest, DecodeEach(incoming2, utf8));
  }

  class Receiver {
    /** Text after the last '\n' read over TCP (`tcpRemainingData`). */
    var remaining: string
    /** Packets waiting for the main thread (`dataQueue`). */
    var queue: seq<DataPacket>
    /** Every packet ever queued, and those the main thread has already applied. */
    ghost var queued: seq<DataPacket>
    ghost var applied: seq<DataPacket>

    ghost predicate Valid()
      reads this
    {
      Newline !in remaining && queued == applied + queue
    }

    constructor()
      ensures Valid()
      ensures remaining == "" && queue == [] && queued == [] && applied == []
    {
      remaining := "";
      queue := [];
      queued := [];
      applied := [];
    }

    /** Decode one message and queue the packet; a message that fails to decode is dropped. */
    method ParseAndQueue(message: string, parse: string -> Option<DataPacket>)
      requires Valid()
      modifies this
      ensures Valid()
      ensures queue == old(queue) + Queued(message, parse)
      ensures queued == old(queued) + Queued(message, parse)
      ensures remaining == old(remaining) && applied == old(applied)
    {
      var packet := parse(message);
      match packet {
        case Some(p) =>
          queue := queue + [p];
          queued := queued + [p];
        case None =>
      }
    }

    /** One UDP datagram is one message. */
    method OnDatagram(message: string, parse: string -> Option<DataPacket>)
      requires Valid()
      modifies this
      ensures Valid()
      ensures queue == old(queue) + Queued(message, parse)
      ensures queued == old(queued) + Queued(message, parse)
      ensures remaining == old(remaining) && applied == old(applied)
    {
      ParseAndQueue(message, parse);
    }

    /**
     * One successful TCP read: its bytes are decoded to text (`utf8`, which
     * never fails), the remainder and that text are split on '\n', every
     * piece but the last that is not empty is decoded and queued, and the
     * last piece becomes the new remainder.
     */
    method OnChunk(read: seq<Byte>, utf8: seq<Byte> -> string, parse: string -> Option<DataPacket>)
      requires Valid()
      modifies this
      ensures Valid()
      ensures remaining == Rest(old(remaining) + utf8(read))
      ensures queue == old(queue) + Packets(Complete(old(remaining) + utf8(read)), parse)
      ensures queued == old(queued) + Packets(Complete(old(remaining) + utf8(read)), parse)
      ensures applied == old(applied)
    {
      var chunk := utf8(read);
      var fullStream := remaining + chunk;
      var packets := Split(fullStream, Newline);
      ghost var lines := Complete(fullStream);
      assert lines == packets[..|packets| - 1];
      for i := 0 to |packets| - 1
        invariant Valid() && remaining == old(remaining)
        invariant queue == old(queue) + Packets(lines[..i], parse)
        invariant queued == old(queued) + Packets(lines[..i], parse)
        invariant applied == old(applied)
      {
        TakeSnoc(lines, i);
        PacketsAppend(lines[..i], [lines[i]], parse);
        assert Packets([lines[i]], parse) == (if |lines[i]| == 0 then [] else Queued(lines[i], parse)) by {
          assert [lines[i]][1..] == [];
        }
        if packets[i] != "" {
          ParseAndQueue(packets[i], parse);
        }
      }
      assert lines[..|packets| - 1] == lines;
      remaining := packets[|packets| - 1];
      assert remaining == Rest(fullStream);
    }

    /**
     * The inner read loop of one client: reads are handled in order, each
     * decoded on its own, until a read of 0 bytes ends the loop, and the
     * answer is the number of reads handled.
     */
    method ReadLoop(incoming: seq<seq<Byte>>, utf8: seq<Byte> -> string, parse: string -> Option<DataPacket>)
      returns (handled: nat)
      requires Valid()
      modifies this
      ensures Valid()
      ensures handled == FirstEmpty(incoming)
      ensures remaining == Feed(old(remaining), DecodeEach(incoming[..handled], utf8)).1
      ensures queue == old(queue) + Packets(Feed(old(remaining), DecodeEach(incoming[..handled], utf8)).0, parse)
      ensures applied == old(applied)
    {
      handled := 0;
      ghost var start, queue0 := remaining, queue;
      ghost var texts := DecodeEach(incoming, utf8);
      ghost var lines: seq<string> := [];
      while handled < |incoming| && |incoming[handled]| > 0
        invariant handled <= |incoming| && handled <= FirstEmpty(incoming)
        invariant Valid() && applied == old(applied)
        invariant (lines, remaining) == FedUpTo(start, texts, handled)
        invariant queue == queue0 + Packets(lines, parse)
        decreases |incoming| - handled
      {
        ghost var framed := Complete(remaining + texts[handled]);
        ghost var earlier := Packets(lines, parse);
        OnChunk(incoming[handled], utf8, parse);
        PacketsAppend(lines, framed, parse);
        AppendAssoc(queue0, earlier, Packets(framed, parse));
        lines := lines + framed;
        handled := handled + 1;
      }
      FedUpToIsFeed(start, texts, handled);
      assert texts[..handled] == DecodeEach(incoming[..handled], utf8);
    }

    /** The main thread's frame update: every queued packet is applied, oldest first. */
    method Update() returns (packets: seq<DataPacket>)
      requires Valid()
      modifies this
      ensures Valid()
      ensures packets == old(queue) && queue == []
      ensures applied == old(applied) + packets
      ensures remaining == old(remaining) && queued == old(queued)
    {
      packets := [];
      while |queue| > 0
        invariant Valid()
        invariant old(queue) == packets + queue
        invariant applied == old(applied) + packets
        invariant remaining == old(remaining) && queued == old(queued)
        decreases |queue|
      {
        var packet := queue[0];
        queue := queue[1..];
        packets := packets + [packet];
        applied := applied + [packet];
      }
    }
  }

  /** Feeding one more chunk appends its lines and moves the remainder on. */
  lemma {:induction false} FeedSnoc(rest: string, chunks: seq<string>, c: string)
    ensures Feed(rest, chunks + [c]).0 == Feed(rest, chunks).0 + Complete(Feed(rest, chunks).1 + c)
    ensures Feed(rest, chunks + [c]).1 == Rest(Feed(rest, chunks).1 + c)
    decreases |chunks|
  {
    if |chunks| == 0 {
      assert chunks + [c] == [c];
      assert [c][1..] == [];
    } else {
      assert (chunks + [c])[1..] == chunks[1..] + [c];
      FeedSnoc(Rest(rest + chunks[0]), chunks[1..], c);
    }
  }

  /** The lines and the remainder after the first `k` reads, one read at a time. */
  function FedUpTo(rest: string, chunks: seq<string>, k: nat): (seq<string>, string)
    requires k <= |chunks|
  {
    if k == 0 then ([], rest)
    else
      var before := FedUpTo(rest, chunks, k - 1);
      (before.0 + Complete(before.1 + chunks[k - 1]), Rest(before.1 + chunks[k - 1]))
  }

  /** Reading one chunk at a time frames as feeding the reads in one go. */
  lemma {:induction false} FedUpToIsFeed(rest: string, chunks: seq<string>, k: nat)
    requires k <= |chunks|
    ensures FedUpTo(rest, chunks, k) == Feed(rest, chunks[..k])
    decreases k
  {
    if k == 0 {
      assert chunks[..0] == [];
    } else {
      FedUpToIsFeed(rest, chunks, k - 1);
      TakeSnoc(chunks, k - 1);
      FeedSnoc(rest, chunks[..k - 1], chunks[k - 1]);
    }
  }

  /**
   * Over a whole connection the queue receives exactly the decoded non-empty
   * lines of the text read so far, framed as one stream.
   */
  lemma TcpQueueIsFramedStream(rest: string, chunks: seq<string>, parse: string -> Option<DataPacket>)
    requires Newline !in rest
    ensures Packets(Feed(rest, chunks).0, parse) == Packets(Complete(rest + Concat(chunks)), parse)
    ensures Feed(rest, chunks).1 == Rest(rest + Concat(chunks))
  {
    FeedFramesConcat(rest, chunks);
  }
}
