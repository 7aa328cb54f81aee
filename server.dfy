/**
 * `AudioServer.handle_connection` (server.py): the per-connection loop that
 * ignores format messages, answers each audio message with one ack, and
 * carries on past malformed JSON.
 *
 * The inbound frames of one connection are the decoded messages received
 * until the peer closes it; the loop's output is the acks it sends and the
 * lines it logs.
 */
module Server {
  import opened Wrappers
  import opened Json
  import opened Wire

  /** What the handler logs. */
  datatype ServerLog =
    | ConnectedLogged             // "Client connected", before the first message
    | FormatLogged(info: Fields)  // "Received audio format: ..."
    | ChunkLogged(length: nat)    // "Received audio chunk: ... bytes"
    | InvalidJsonLogged           // JSONDecodeError: logged, and the loop goes on
    | ErrorLogged                 // any other exception: logged, and the handler returns

  /** `data.get('type', '')`. */
  function MessageType(f: Fields): (t: Value)
    ensures "type" !in f ==> t == Str("")
  {
    GetOr(f, "type", Str(""))
  }

  /** `len(data.get('data', ''))`: the length of the base64 TEXT; None where `len` raises. */
  function PayloadLength(f: Fields): (r: Option<nat>)
    ensures "data" !in f ==> r == Some(0)
    ensures "data" in f && f["data"].Str? ==> r == Some(|f["data"].s|)
  {
    Len(GetOr(f, "data", Str("")))
  }

  predicate IsAudio(d: Decoded)
  {
    d.Obj? && MessageType(d.fields) == Str("audio")
  }

  /**
   * The message raises an exception other than JSONDecodeError, which ends the
   * connection: `.get` on a non-dict, a `json.loads` failure of another kind,
   * or `len` of a `data` value that has none.
   */
  predicate Aborts(d: Decoded)
  {
    d.NonObject? || d.Undecodable? || (IsAudio(d) && PayloadLength(d.fields).None?)
  }

  /** Malformed JSON never ends the connection, and neither does a dict of any type but "audio"; a non-dict or an undecodable frame always does. */
  lemma AbortsOnlyOnEscapes(d: Decoded)
    ensures d.Invalid? ==> !Aborts(d)
    ensures d.NonObject? || d.Undecodable? ==> Aborts(d)
    ensures d.Obj? && !IsAudio(d) ==> !Aborts(d)
    ensures Aborts(d) && d.Obj? ==> "data" in d.fields && !d.fields["data"].Str?
  {
  }

  /** The index of the first message that ends the connection, or `|ds|` when none does. */
  function StopIndex(ds: seq<Decoded>): (k: nat)
    ensures k <= |ds|
    ensures forall j :: 0 <= j < k ==> !Aborts(ds[j])
    ensures k < |ds| ==> Aborts(ds[k])
  {
    if ds == [] then 0
    else if Aborts(ds[0]) then 0
    else 1 + StopIndex(ds[1..])
  }

  predicate NoAbort(ds: seq<Decoded>)
  {
    forall j :: 0 <= j < |ds| ==> !Aborts(ds[j])
  }

  /** The ack that answers an audio message. */
  function AckFor(d: Decoded): WireMessage
    requires IsAudio(d) && !Aborts(d)
  {
    Ack("received", PayloadLength(d.fields).value)
  }

  /** The audio messages of a sequence, in order. */
  function AudioOnly(ds: seq<Decoded>): (r: seq<Decoded>)
    ensures |r| <= |ds|
    ensures forall j :: 0 <= j < |r| ==> IsAudio(r[j]) && r[j] in ds
    ensures forall d :: multiset(r)[d] == if IsAudio(d) then multiset(ds)[d] else 0
  {
    if ds == [] then []
    else
      var init, last := ds[..|ds| - 1], ds[|ds| - 1];
      assert ds == init + [last];
      AudioOnly(init) + (if IsAudio(last) then [last] else [])
  }

  /** The reply, if any, to one message that does not end the connection. */
  function ReplyTo(d: Decoded): Option<WireMessage>
    requires !Aborts(d)
  {
    if IsAudio(d) then Some(AckFor(d)) else None
  }

  /** The replies to a sequence of messages none of which ends the connection: acks only, at most one per message. */
  function Replies(ds: seq<Decoded>): (r: seq<WireMessage>)
    requires NoAbort(ds)
    ensures |r| <= |ds|
    ensures forall j :: 0 <= j < |r| ==> r[j].Ack? && r[j].status == "received"
  {
    if ds == [] then []
    else
      var last := ds[|ds| - 1];
      Replies(ds[..|ds| - 1]) + (if ReplyTo(last).Some? then [ReplyTo(last).value] else [])
  }

  /** The log entry, if any, for one message that does not end the connection. */
  function LogEntry(d: Decoded): Option<ServerLog>
    requires !Aborts(d)
  {
    match d
    case Invalid => Some(InvalidJsonLogged)
    case Undecodable => None
    case NonObject => None
    case Obj(f) =>
      if MessageType(f) == Str("format") then Some(FormatLogged(f))
      else if MessageType(f) == Str("audio") then Some(ChunkLogged(PayloadLength(f).value))
      else None
  }

  /** The log of a sequence of messages none of which ends the connection: at most one line per message, and no error or connect line. */
  function LogFor(ds: seq<Decoded>): (r: seq<ServerLog>)
    requires NoAbort(ds)
    ensures |r| <= |ds|
    ensures forall j :: 0 <= j < |r| ==> !r[j].ErrorLogged? && !r[j].ConnectedLogged?
  {
    if ds == [] then []
    else
      var last := ds[|ds| - 1];
      LogFor(ds[..|ds| - 1]) + (if LogEntry(last).Some? then [LogEntry(last).value] else [])
  }

  /**
   * `handle_connection`: the acks sent and the lines logged over one
   * connection. The connect line comes first; every message before the first
   * one that raises is handled; that one is logged as an error and ends the
   * handler.
   */
  method HandleConnection(inbound: seq<Decoded>) returns (sent: seq<WireMessage>, log: seq<ServerLog>)
    ensures var k := StopIndex(inbound);
      sent == Replies(inbound[..k]) &&
      log == [ConnectedLogged] + LogFor(inbound[..k]) + (if k < |inbound| then [ErrorLogged] else [])
  {
    sent, log := [], [ConnectedLogged];
    var i := 0;
    while i < |inbound|
      invariant i <= StopIndex(inbound)
      invariant NoAbort(inbound[..i])
      invariant sent == Replies(inbound[..i]) && log == [ConnectedLogged] + LogFor(inbound[..i])
    {
      var reply, lines, goOn := HandleOne(inbound[i]);
      if !goOn {
        log := log + lines;
        return;
      }
      PrefixStep(inbound, i);
      sent := sent + reply;
      log := log + lines;
      i := i + 1;
    }
    assert inbound[..i] == inbound;
  }

  /** The body of the `async for` loop for one message: the replies it sends, the lines it logs, and whether the loop goes on. */
  method HandleOne(d: Decoded) returns (reply: seq<WireMessage>, lines: seq<ServerLog>, goOn: bool)
    ensures goOn <==> !Aborts(d)
    ensures goOn ==> reply == (if ReplyTo(d).Some? then [ReplyTo(d).value] else [])
    ensures goOn ==> lines == (if LogEntry(d).Some? then [LogEntry(d).value] else [])
    ensures !goOn ==> reply == [] && lines == [ErrorLogged]
  {
    reply, lines, goOn := [], [], true;
    match d {
      case Invalid =>
        lines := [InvalidJsonLogged];
      case Undecodable =>
        lines, goOn := [ErrorLogged], false;
      case NonObject =>
        lines, goOn := [ErrorLogged], false;
      case Obj(data) =>
        var msgType := GetOr(data, "type", Str(""));
        if msgType == Str("format") {
          lines := [FormatLogged(data)];
        } else if msgType == Str("audio") {
          var audioLength := Len(GetOr(data, "data", Str("")));
          if audioLength.None? {
            lines, goOn := [ErrorLogged], false;
          } else {
            lines := [ChunkLogged(audioLength.value)];
            reply := [Ack("received", audioLength.value)];
          }
        }
    }
  }

  /** One more message that does not end the connection extends the replies and the log by its own. */
  lemma PrefixStep(ds: seq<Decoded>, i: nat)
    requires i < |ds| && NoAbort(ds[..i]) && !Aborts(ds[i])
    ensures NoAbort(ds[..i + 1])
    ensures Replies(ds[..i + 1]) == Replies(ds[..i]) + (if ReplyTo(ds[i]).Some? then [ReplyTo(ds[i]).value] else [])
    ensures LogFor(ds[..i + 1]) == LogFor(ds[..i]) + (if LogEntry(ds[i]).Some? then [LogEntry(ds[i]).value] else [])
  {
    assert ds[..i + 1][..i] == ds[..i];
  }

  /** Over a whole connection the acks are in one-to-one, order-preserving correspondence with the audio messages. */
  lemma {:induction false} RepliesMatchAudio(ds: seq<Decoded>)
    requires NoAbort(ds)
    ensures |Replies(ds)| == |AudioOnly(ds)|
    ensures forall j :: 0 <= j < |AudioOnly(ds)| ==>
      !Aborts(AudioOnly(ds)[j]) && Replies(ds)[j] == AckFor(AudioOnly(ds)[j])
  {
    if ds != [] {
      var init := ds[..|ds| - 1];
      assert NoAbort(init);
      RepliesMatchAudio(init);
    }
  }

  lemma {:induction false} RepliesAppend(a: seq<Decoded>, b: seq<Decoded>)
    requires NoAbort(a) && NoAbort(b)
    ensures NoAbort(a + b)
    ensures Replies(a + b) == Replies(a) + Replies(b)
    decreases |b|
  {
    if b == [] {
      assert a + b == a;
    } else {
      assert (a + b)[..|a + b| - 1] == a + b[..|b| - 1];
      assert NoAbort(b[..|b| - 1]);
      RepliesAppend(a, b[..|b| - 1]);
    }
  }

  /** An audio message gets exactly one ack, with status "received" and the length of its `data` text (0 without one). */
  lemma AudioGetsOneAck(f: Fields)
    requires IsAudio(Obj(f)) && !Aborts(Obj(f))
    ensures Replies([Obj(f)]) == [Ack("received", PayloadLength(f).value)]
    ensures "data" !in f ==> Replies([Obj(f)]) == [Ack("received", 0)]
    ensures "data" in f && f["data"].Str? ==> Replies([Obj(f)]) == [Ack("received", |f["data"].s|)]
  {
    assert [Obj(f)][..0] == [];
  }

  /** A format message is logged and gets no reply. */
  lemma FormatGetsNoReply(f: Fields)
    requires MessageType(f) == Str("format")
    ensures NoAbort([Obj(f)])
    ensures Replies([Obj(f)]) == [] && LogFor([Obj(f)]) == [FormatLogged(f)]
  {
    assert [Obj(f)][..0] == [];
  }

  /** A message of any other type, including one without a type, is neither answered nor logged. */
  lemma OtherTypeIgnored(f: Fields)
    requires MessageType(f) != Str("format") && MessageType(f) != Str("audio")
    ensures NoAbort([Obj(f)])
    ensures Replies([Obj(f)]) == [] && LogFor([Obj(f)]) == []
  {
    assert [Obj(f)][..0] == [];
  }

  /** A message without a `type` key is read as type "" and ignored. */
  lemma MissingTypeIgnored(f: Fields)
    requires "type" !in f
    ensures NoAbort([Obj(f)])
    ensures Replies([Obj(f)]) == [] && LogFor([Obj(f)]) == []
  {
    OtherTypeIgnored(f);
  }

  /** Malformed JSON is logged and gets no reply. */
  lemma InvalidJsonGetsNoReply()
    ensures NoAbort([Invalid])
    ensures Replies([Invalid]) == [] && LogFor([Invalid]) == [InvalidJsonLogged]
  {
    assert [Invalid][..0] == [];
  }

  /** Where the connection stops does not depend on a prefix that does not stop it. */
  lemma {:induction false} StopIndexAppend(a: seq<Decoded>, b: seq<Decoded>)
    requires NoAbort(a)
    ensures StopIndex(a + b) == |a| + StopIndex(b)
    decreases |a|
  {
    if a == [] {
      assert a + b == b;
    } else {
      assert (a + b)[1..] == a[1..] + b;
      assert NoAbort(a[1..]);
      StopIndexAppend(a[1..], b);
    }
  }

  /** A frame `json.loads` fails on with anything but JSONDecodeError ends the connection at that frame. */
  lemma UndecodableEndsConnection(a: seq<Decoded>, b: seq<Decoded>)
    requires NoAbort(a)
    ensures StopIndex(a + [Undecodable] + b) == |a|
  {
    assert a + [Undecodable] + b == a + ([Undecodable] + b);
    StopIndexAppend(a, [Undecodable] + b);
  }

  /**
   * Malformed JSON does not end the loop: the messages after it are still
   * processed, and the replies are those of the messages before and after it.
   */
  lemma InvalidJsonKeepsConnection(a: seq<Decoded>, b: seq<Decoded>)
    requires NoAbort(a)
    ensures StopIndex(a + [Invalid] + b) == |a| + 1 + StopIndex(b)
    ensures NoAbort(b[..StopIndex(b)])
    ensures Replies((a + [Invalid] + b)[..|a| + 1 + StopIndex(b)]) == Replies(a) + Replies(b[..StopIndex(b)])
  {
    var a' := a + [Invalid];
    InvalidAddsNoReply(a);
    StopIndexAppend(a', b);
    var b' := b[..StopIndex(b)];
    assert NoAbort(b');
    assert (a' + b)[..|a'| + |b'|] == a' + b';
    RepliesAppend(a', b');
  }

  /** Malformed JSON after messages that do not raise adds no reply. */
  lemma InvalidAddsNoReply(a: seq<Decoded>)
    requires NoAbort(a)
    ensures NoAbort(a + [Invalid]) && Replies(a + [Invalid]) == Replies(a)
  {
    InvalidJsonGetsNoReply();
    RepliesAppend(a, [Invalid]);
  }
}
