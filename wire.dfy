/**
 * The messages of the streaming protocol as a closed variant keyed by the
 * JSON `type` field, and the dict a peer gets back from
 * `json.loads(json.dumps(message))`.
 */
module Wire {
  import opened Wrappers
  import opened Json

  datatype WireMessage =
    | Format(sampleRate: int, bitsPerSample: int, channels: int, encoding: string)
    | Audio(data: string)
    | Ack(status: string, bytes: int)

  /** The value of the `type` field for each variant. */
  function TypeName(m: WireMessage): string
  {
    match m
    case Format(_, _, _, _) => "format"
    case Audio(_) => "audio"
    case Ack(_, _) => "ack"
  }

  /** The decoded dict on the receiving side of the connection. */
  function Transmit(m: WireMessage): (d: Decoded)
    ensures d.Obj? && Get(d.fields, "type") == Some(Str(TypeName(m)))
  {
    match m
    case Format(rate, bits, channels, encoding) =>
      Obj(map["type" := Str("format"), "sampleRate" := Number(rate), "bitsPerSample" := Number(bits),
               "channels" := Number(channels), "encoding" := Str(encoding)])
    case Audio(data) =>
      Obj(map["type" := Str("audio"), "data" := Str(data)])
    case Ack(status, bytes) =>
      Obj(map["type" := Str("ack"), "status" := Str(status), "bytes" := Number(bytes)])
  }

  /** Every message of a sequence, as its peer decodes it. */
  function TransmitAll(ms: seq<WireMessage>): (ds: seq<Decoded>)
    ensures |ds| == |ms| && forall i :: 0 <= i < |ms| ==> ds[i] == Transmit(ms[i])
  {
    if ms == [] then [] else [Transmit(ms[0])] + TransmitAll(ms[1..])
  }

  /** Reads a decoded dict back as a typed message; None for any other shape. */
  function Parse(d: Decoded): (r: Option<WireMessage>)
  {
    if !d.Obj? then None
    else
      var f := d.fields;
      match Get(f, "type")
      case Some(Str("format")) =>
        (match (Get(f, "sampleRate"), Get(f, "bitsPerSample"), Get(f, "channels"), Get(f, "encoding"))
         case (Some(Number(r)), Some(Number(b)), Some(Number(c)), Some(Str(e))) => Some(Format(r, b, c, e))
         case _ => None)
      case Some(Str("audio")) =>
        (match Get(f, "data")
         case Some(Str(s)) => Some(Audio(s))
         case _ => None)
      case Some(Str("ack")) =>
        (match (Get(f, "status"), Get(f, "bytes"))
         case (Some(Str(s)), Some(Number(n))) => Some(Ack(s, n))
         case _ => None)
      case _ => None
  }

  /** Every message survives the trip through JSON unchanged. */
  lemma ParseTransmit(m: WireMessage)
    ensures Parse(Transmit(m)) == Some(m)
  {
  }
}
