/**
 * The sending side of `AudioTranslationClient` (main.py): `stream_audio`,
 * which sends one format message and then the samples in 3200-sample audio
 * chunks, and `receive_messages`, which classifies the replies.
 *
 * A WebSocket send is an event of the returned trace; the transport, the
 * concurrency between the two loops and the wall-clock pause are not
 * modelled beyond one `Paused` event per chunk.
 */
module Sender {
  import opened Wrappers
  import opened Json
  import opened Base64
  import opened Pcm
  import opened Wire
  import Preprocess

  /** `self.buffer_size`: 6400 bytes of PCM16. */
  const BufferSize: nat := 6400
  /** The loop step `self.buffer_size // 2`: samples per chunk. */
  const ChunkSamples: nat := 3200  // written out as 3200 where it multiplies, to keep the arithmetic linear

  lemma ChunkIsHalfBuffer()
    ensures ChunkSamples == BufferSize / 2 && 2 * ChunkSamples == BufferSize
  {
  }

  function Min(a: int, b: int): int { if a < b then a else b }

  /** The format descriptor sent first on every stream. */
  function FormatInfo(): (m: WireMessage)
    ensures m.Format? && m.sampleRate == 16000 && m.bitsPerSample == 16 && m.channels == 1 && m.encoding == "PCM"
  {
    Format(Preprocess.TargetSampleRate, 16, 1, "PCM")
  }

  /** How many iterations `range(0, n, 3200)` makes. */
  function ChunkCount(n: nat): (c: nat)
    ensures c * 3200 >= n && (c == 0 || (c - 1) * 3200 < n)
  {
    (n + 3199) / 3200
  }

  /** The k-th loop index 3200 k is in range exactly for the first ChunkCount(n) values of k. */
  lemma ChunkIndexInRange(n: nat, k: nat)
    ensures k < ChunkCount(n) <==> k * 3200 < n
  {
    var c := ChunkCount(n);
    if k < c {
      assert k * 3200 <= (c - 1) * 3200;
    } else {
      assert k * 3200 >= c * 3200;
    }
  }

  /** `data[i:i + 3200]` for the k-th loop index i = 3200 k. */
  function Chunk(data: seq<Int16>, k: nat): (c: seq<Int16>)
    requires k < ChunkCount(|data|)
    ensures 0 < |c| <= ChunkSamples
    ensures k + 1 < ChunkCount(|data|) ==> |c| == ChunkSamples
    ensures k + 1 == ChunkCount(|data|) ==> |c| == |data| - k * 3200
  {
    data[k * 3200 .. Min(k * 3200 + ChunkSamples, |data|)]
  }

  /** The chunks in send order. */
  function Chunks(data: seq<Int16>): (cs: seq<seq<Int16>>)
    ensures |cs| == ChunkCount(|data|)
    ensures forall k :: 0 <= k < |cs| ==> cs[k] == Chunk(data, k)
  {
    seq(ChunkCount(|data|), k requires 0 <= k < ChunkCount(|data|) => Chunk(data, k))
  }

  /** Concatenation of a sequence of chunks. */
  function Concat(cs: seq<seq<Int16>>): seq<Int16>
  {
    if cs == [] then [] else Concat(cs[..|cs| - 1]) + cs[|cs| - 1]
  }

  /** The first m chunks concatenate to the first min(3200 m, n) samples. */
  lemma {:induction false} ConcatChunksPrefix(data: seq<Int16>, m: nat)
    requires m <= ChunkCount(|data|)
    ensures Concat(Chunks(data)[..m]) == data[..Min(m * 3200, |data|)]
  {
    if m > 0 {
      var cs := Chunks(data);
      assert cs[..m][..m - 1] == cs[..m - 1];
      ConcatChunksPrefix(data, m - 1);
      var i, j := (m - 1) * 3200, Min(m * 3200, |data|);
      assert i < |data| && Min(i, |data|) == i && i <= j <= |data|;
      assert Chunk(data, m - 1) == data[i..j];
      assert data[..i] + data[i..j] == data[..j];
    }
  }

  /** Round trip of the chunking: sending the chunks in order reproduces the samples exactly. */
  lemma ChunksConcat(data: seq<Int16>)
    ensures Concat(Chunks(data)) == data
  {
    var cs := Chunks(data);
    ConcatChunksPrefix(data, |cs|);
    assert cs[..|cs|] == cs;
  }

  /** The audio message for one chunk: base64 of the chunk's little-endian bytes. */
  function AudioMessage(chunk: seq<Int16>): (m: WireMessage)
    ensures m.Audio? && |m.data| == 4 * CeilDiv(2 * |chunk|, 3)
  {
    Audio(Encode(ToBytes(chunk)))
  }

  /** The receiver can rebuild the chunk exactly from the message text. */
  lemma AudioMessageCarriesChunk(chunk: seq<Int16>)
    ensures AudioMessage(chunk).Audio?
    ensures var bytes := Base64.Decode(AudioMessage(chunk).data);
      bytes.Some? && |bytes.value| % 2 == 0 && FromBytes(bytes.value) == chunk
  {
    DecodeEncode(ToBytes(chunk));
    BytesRoundTrip(chunk);
  }

  /** The format message followed by the audio messages of the first m chunks. */
  function StreamPrefix(data: seq<Int16>, m: nat): seq<WireMessage>
    requires m <= ChunkCount(|data|)
  {
    if m == 0 then [FormatInfo()] else StreamPrefix(data, m - 1) + [AudioMessage(Chunk(data, m - 1))]
  }

  /** The messages `stream_audio` puts on the socket: the format message, then one audio message per chunk. */
  function StreamMessages(data: seq<Int16>): (ms: seq<WireMessage>)
    ensures |ms| == ChunkCount(|data|) + 1 && ms[0] == FormatInfo()
  {
    StreamPrefixShape(data, ChunkCount(|data|));
    StreamPrefix(data, ChunkCount(|data|))
  }

  lemma {:induction false} StreamPrefixShape(data: seq<Int16>, m: nat)
    requires m <= ChunkCount(|data|)
    ensures var p := StreamPrefix(data, m);
      |p| == m + 1 && p[0] == FormatInfo() &&
      forall k :: 0 <= k < m ==> p[k + 1] == AudioMessage(Chunk(data, k))
  {
    if m > 0 {
      StreamPrefixShape(data, m - 1);
      var p, q := StreamPrefix(data, m - 1), StreamPrefix(data, m);
      assert q == p + [AudioMessage(Chunk(data, m - 1))];
      forall k | 0 <= k < m
        ensures q[k + 1] == AudioMessage(Chunk(data, k))
      {
        if k < m - 1 {
          assert q[k + 1] == p[k + 1];
        }
      }
    }
  }

  /**
   * The stream holds exactly one format message, first, then the audio
   * message of every chunk in send order.
   */
  lemma StreamMessagesShape(data: seq<Int16>)
    ensures var ms := StreamMessages(data);
      |ms| == ChunkCount(|data|) + 1 && ms[0] == FormatInfo() &&
      (forall k :: 0 <= k < ChunkCount(|data|) ==> ms[k + 1] == AudioMessage(Chunks(data)[k])) &&
      (forall j :: 0 <= j < |ms| ==> (ms[j].Format? <==> j == 0))
  {
    var ms := StreamMessages(data);
    StreamPrefixShape(data, ChunkCount(|data|));
    forall j | 1 <= j < |ms|
      ensures ms[j].Audio?
    {
      assert ms[(j - 1) + 1] == AudioMessage(Chunk(data, j - 1));
    }
  }

  /** The slice the loop takes at index 3200 k is chunk k. */
  lemma LoopChunk(data: seq<Int16>, k: nat, i: nat)
    requires i == k * 3200 && i < |data|
    ensures k < ChunkCount(|data|) && data[i .. Min(i + ChunkSamples, |data|)] == Chunk(data, k)
  {
    ChunkIndexInRange(|data|, k);
  }

  /** The log lines `stream_audio` writes, in order. */
  datatype SendLog =
    | FormatSentLogged
    | ProgressLogged(count: nat)
    | FinishedLogged(count: nat)

  /** The progress lines the first m iterations log. */
  function ProgressLines(m: nat): seq<SendLog>
  {
    if m == 0 then [] else ProgressLines(m - 1) + (if m % 10 == 0 then [ProgressLogged(m)] else [])
  }

  /** Progress is logged exactly at the counts 10, 20, ... reached, and the lines are nothing but progress lines. */
  lemma {:induction false} ProgressLinesExactly(m: nat, c: nat)
    ensures ProgressLogged(c) in ProgressLines(m) <==> 1 <= c <= m && c % 10 == 0
    ensures forall e :: e in ProgressLines(m) ==> e.ProgressLogged?
  {
    if m > 0 {
      ProgressLinesExactly(m - 1, c);
    }
  }

  /** One progress line per ten chunks sent, in increasing order of count. */
  lemma {:induction false} ProgressLinesLength(m: nat)
    ensures |ProgressLines(m)| == m / 10
    ensures forall j :: 0 <= j < |ProgressLines(m)| ==> ProgressLines(m)[j] == ProgressLogged(10 * (j + 1))
  {
    if m > 0 {
      ProgressLinesLength(m - 1);
    }
  }

  /**
   * One pass of the `stream_audio` loop at index i = 3200 k: the audio
   * message it sends and the progress line it logs once `chunks_sent`
   * reaches a multiple of 10.
   */
  method SendChunk(data: seq<Int16>, i: nat, k: nat) returns (message: WireMessage, progress: seq<SendLog>)
    requires i == k * 3200 && i < |data|
    ensures k < ChunkCount(|data|) && message == AudioMessage(Chunk(data, k))
    ensures progress == if (k + 1) % 10 == 0 then [ProgressLogged(k + 1)] else []
  {
    var chunk := data[i .. Min(i + ChunkSamples, |data|)];
    LoopChunk(data, k, i);
    message := Audio(Encode(ToBytes(chunk)));
    var chunksSent := k + 1;
    progress := if chunksSent % 10 == 0 then [ProgressLogged(chunksSent)] else [];
  }

  /**
   * `stream_audio` when every send succeeds: the messages put on the socket,
   * the log lines, the final `chunks_sent` and the number of 0.2 s pauses.
   */
  method StreamAudio(data: seq<Int16>) returns (sent: seq<WireMessage>, log: seq<SendLog>, chunksSent: nat, pauses: nat)
    ensures chunksSent == ChunkCount(|data|) && pauses == chunksSent
    ensures sent == StreamMessages(data)
    ensures log == [FormatSentLogged] + ProgressLines(chunksSent) + [FinishedLogged(chunksSent)]
  {
    sent := [FormatInfo()];
    log := [FormatSentLogged];
    chunksSent, pauses := 0, 0;
    var i := 0;
    while i < |data|
      invariant chunksSent <= ChunkCount(|data|) && pauses == chunksSent
      invariant i == chunksSent * 3200
      invariant chunksSent < ChunkCount(|data|) <==> i < |data|
      invariant sent == StreamPrefix(data, chunksSent)
      invariant log == [FormatSentLogged] + ProgressLines(chunksSent)
    {
      var message, progress := SendChunk(data, i, chunksSent);
      ChunkIndexInRange(|data|, chunksSent + 1);
      sent := sent + [message];
      log := log + progress;
      chunksSent := chunksSent + 1;
      pauses := pauses + 1;
      i := i + ChunkSamples;
    }
    log := log + [FinishedLogged(chunksSent)];
  }

  /** What `receive_messages` logs for one reply. */
  datatype ReplyLog =
    | AckLogged(bytes: Option<Value>)  // "Server acknowledged ... bytes", with `response.get('bytes')`
    | OtherLogged                      // any other JSON reply
    | InvalidJsonLogged                // JSONDecodeError: a warning, and the loop goes on
    | ErrorLogged                      // any other exception: logged and re-raised, ending the loop

  /** The reply makes the loop body raise outside its JSON handler: `.get` on a non-dict, or a `json.loads` failure other than JSONDecodeError. */
  predicate Raises(d: Decoded)
  {
    d.NonObject? || d.Undecodable?
  }

  /** The reaction of the loop body to one decoded reply. */
  function ClassifyReply(d: Decoded): (r: ReplyLog)
    ensures r.AckLogged? <==> d.Obj? && Get(d.fields, "type") == Some(Str("ack"))
    ensures r.AckLogged? ==> r.bytes == Get(d.fields, "bytes")
    ensures r == OtherLogged <==> d.Obj? && Get(d.fields, "type") != Some(Str("ack"))
    ensures r == InvalidJsonLogged <==> d.Invalid?
    ensures r == ErrorLogged <==> Raises(d)
  {
    match d
    case Invalid => InvalidJsonLogged
    case Undecodable => ErrorLogged
    case NonObject => ErrorLogged
    case Obj(f) => if Get(f, "type") == Some(Str("ack")) then AckLogged(Get(f, "bytes")) else OtherLogged
  }

  /** The index of the first reply on which the loop body raises, or `|ds|` when there is none. */
  function FirstRaising(ds: seq<Decoded>): (k: nat)
    ensures k <= |ds|
    ensures forall j :: 0 <= j < k ==> !Raises(ds[j])
    ensures k < |ds| ==> Raises(ds[k])
  {
    if ds == [] then 0
    else if Raises(ds[0]) then 0
    else 1 + FirstRaising(ds[1..])
  }

  /**
   * `receive_messages` over the replies received until the connection
   * closes: one log line per reply, up to and including the first reply that
   * raises outside the JSON handler, after which the exception propagates.
   */
  method ReceiveMessages(inbound: seq<Decoded>) returns (log: seq<ReplyLog>, raised: bool)
    ensures raised <==> FirstRaising(inbound) < |inbound|
    ensures |log| == if raised then FirstRaising(inbound) + 1 else |inbound|
    ensures forall j :: 0 <= j < |log| ==> log[j] == ClassifyReply(inbound[j])
  {
    log, raised := [], false;
    var i := 0;
    while i < |inbound|
      invariant i <= |inbound| && i <= FirstRaising(inbound)
      invariant |log| == i && forall j :: 0 <= j < i ==> log[j] == ClassifyReply(inbound[j])
    {
      match inbound[i] {
        case Invalid =>
          log := log + [InvalidJsonLogged];
        case Undecodable =>
          log := log + [ErrorLogged];
          raised := true;
          return;
        case NonObject =>
          log := log + [ErrorLogged];
          raised := true;
          return;
        case Obj(response) =>
          if Get(response, "type") == Some(Str("ack")) {
            log := log + [AckLogged(Get(response, "bytes"))];
          } else {
            log := log + [OtherLogged];
          }
      }
      i := i + 1;
    }
  }
}
