/**
 * The sender and the ack server together: what `handle_connection` answers
 * to the messages `stream_audio` sends, and how `receive_messages` reads
 * those answers.
 */
module Protocol {
  import opened Wrappers
  import opened Json
  import opened Base64
  import opened Pcm
  import opened Wire
  import opened Sender
  import opened Server

  /** The ack `handle_connection` sends for an audio message, as the JSON dict travels. */
  lemma ReplyToTransmitted(m: WireMessage)
    ensures !Aborts(Transmit(m))
    ensures ReplyTo(Transmit(m)) == if m.Audio? then Some(Ack("received", |m.data|)) else None
  {
  }

  /** The ack bytes for a chunk of k samples: the length of the base64 text of its 2k bytes. */
  function AckBytes(k: nat): (n: nat)
    ensures n % 4 == 0 && 8 * k <= 3 * n < 8 * k + 12
  {
    4 * CeilDiv(2 * k, 3)
  }

  /** The text of a chunk's audio message is AckBytes of its sample count long. */
  lemma AudioTextLength(chunk: seq<Int16>)
    ensures |AudioMessage(chunk).data| == AckBytes(|chunk|)
  {
  }

  /** The acks the server sends for the first m chunks of a stream. */
  function StreamAcks(data: seq<Int16>, m: nat): seq<WireMessage>
    requires m <= ChunkCount(|data|)
  {
    seq(m, k requires 0 <= k < m => Ack("received", AckBytes(|Chunk(data, k)|)))
  }

  lemma StreamAcksStep(data: seq<Int16>, m: nat)
    requires 0 < m <= ChunkCount(|data|)
    ensures StreamAcks(data, m) == StreamAcks(data, m - 1) + [Ack("received", AckBytes(|Chunk(data, m - 1)|))]
  {
  }

  /** `ds` is what the server decodes from the stream of `data`: the format message, then chunk j - 1 at position j. */
  predicate IsStreamFrames(data: seq<Int16>, ds: seq<Decoded>)
  {
    |ds| == ChunkCount(|data|) + 1 && ds[0] == Transmit(FormatInfo()) &&
    forall j :: 1 <= j < |ds| ==> ds[j] == Transmit(AudioMessage(Chunk(data, j - 1)))
  }

  lemma StreamFrames(data: seq<Int16>)
    ensures IsStreamFrames(data, TransmitAll(StreamMessages(data)))
  {
    var ms := StreamMessages(data);
    var ds := TransmitAll(ms);
    StreamPrefixShape(data, ChunkCount(|data|));
    forall j | 1 <= j < |ds|
      ensures ds[j] == Transmit(AudioMessage(Chunk(data, j - 1)))
    {
      assert ms[(j - 1) + 1] == AudioMessage(Chunk(data, j - 1));
    }
  }

  /** An audio message for a chunk of k samples adds one ack of AckBytes(k) to the replies so far. */
  lemma AckStep(ds: seq<Decoded>, m: nat, chunk: seq<Int16>, acks: seq<WireMessage>)
    requires m < |ds| && NoAbort(ds[..m]) && Replies(ds[..m]) == acks
    requires ds[m] == Transmit(AudioMessage(chunk))
    ensures NoAbort(ds[..m + 1]) && Replies(ds[..m + 1]) == acks + [Ack("received", AckBytes(|chunk|))]
  {
    ReplyToTransmitted(AudioMessage(chunk));
    AudioTextLength(chunk);
    PrefixStep(ds, m);
  }

  /** The format message gets no reply. */
  lemma FormatFirst(ds: seq<Decoded>)
    requires 0 < |ds| && ds[0] == Transmit(FormatInfo())
    ensures NoAbort(ds[..1]) && Replies(ds[..1]) == []
  {
    ReplyToTransmitted(FormatInfo());
    PrefixStep(ds, 0);
    assert ds[..0] == [];
  }

  /** The format message and the first m audio messages of a stream get exactly the first m acks. */
  lemma {:induction false} StreamRepliesPrefix(data: seq<Int16>, ds: seq<Decoded>, m: nat)
    requires IsStreamFrames(data, ds) && m <= ChunkCount(|data|)
    ensures NoAbort(ds[..m + 1]) && Replies(ds[..m + 1]) == StreamAcks(data, m)
  {
    if m == 0 {
      FormatFirst(ds);
    } else {
      StreamRepliesPrefix(data, ds, m - 1);
      AckStep(ds, m, Chunk(data, m - 1), StreamAcks(data, m - 1));
      StreamAcksStep(data, m);
    }
  }

  /**
   * A whole stream: the server never stops early, ignores the format
   * message, and answers the audio messages with one ack each, in order,
   * each carrying 4·ceil(2k/3) for a chunk of k samples (section 4 of
   * RFC 4648) rather than the chunk's 2k bytes.
   */
  lemma StreamIsAcked(data: seq<Int16>)
    ensures var ds := TransmitAll(StreamMessages(data));
      StopIndex(ds) == |ds| && NoAbort(ds) && Replies(ds) == StreamAcks(data, ChunkCount(|data|))
  {
    var ds := TransmitAll(StreamMessages(data));
    StreamFrames(data);
    StreamRepliesPrefix(data, ds, ChunkCount(|data|));
    WholeFromPrefix(ds, StreamAcks(data, ChunkCount(|data|)));
  }

  /** Facts about the whole of `ds` from facts about `ds[..|ds|]`. */
  lemma WholeFromPrefix(ds: seq<Decoded>, acks: seq<WireMessage>)
    requires NoAbort(ds[..|ds|]) && Replies(ds[..|ds|]) == acks
    ensures StopIndex(ds) == |ds| && NoAbort(ds) && Replies(ds) == acks
  {
    assert ds[..|ds|] == ds;
    NoAbortStops(ds);
  }

  /** A sequence that nothing aborts is handled to its end. */
  lemma {:induction false} NoAbortStops(ds: seq<Decoded>)
    requires NoAbort(ds)
    ensures StopIndex(ds) == |ds|
    decreases |ds|
  {
    if ds != [] {
      assert NoAbort(ds[1..]);
      NoAbortStops(ds[1..]);
    }
  }

  /** The handler's full-chunk ack says 8536, not the 6400 PCM bytes the chunk holds. */
  lemma FullChunkAckIsTextLength(data: seq<Int16>, k: nat)
    requires k + 1 < ChunkCount(|data|)
    ensures AckBytes(|Chunk(data, k)|) == 8536
    ensures AckBytes(|Chunk(data, k)|) != BufferSize
  {
    assert CeilDiv(6400, 3) == 2134;
  }

  /** `receive_messages` logs each ack with the `bytes` the server put in it. */
  lemma AckIsLoggedWithBytes(status: string, bytes: int)
    ensures ClassifyReply(Transmit(Ack(status, bytes))) == AckLogged(Some(Number(bytes)))
  {
  }
}
