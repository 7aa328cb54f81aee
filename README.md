# Audio streaming client, ack server and broadcast listener

A model of three small pieces of protocol logic:

- **The sender.** `AudioTranslationClient` prepares int16 audio and sends it over a WebSocket. Preparation collapses stereo to mono and trims leading silence. The stream is one `format` message, then the samples in 3200-sample `audio` chunks; each chunk's text is the base64 of the chunk's little-endian bytes. Replies are classified as `ack`, other, or invalid JSON; any other exception in the receive loop is logged and re-raised.
- **The ack server.** `AudioServer.handle_connection` logs the connection, ignores `format` messages and answers every `audio` message with one `ack`. That `ack` carries the length of the message's `data` text. Malformed JSON is logged and skipped.
- **The broadcast listener.** Each of 40 listener clients (`websocket_client`) logs that it is connecting and that it is connected, then decodes the frames it receives. It skips `broadcast-` events that contain `translating` and logs every other `broadcast-` event once. For `broadcast-audio-noti` it fetches `https://api.travist.ai/<http-url-route>` and reports the HTTP status; a failed fetch is not retried.

Messages come in already parsed. A decoded frame is one of four kinds:

- `Invalid`: `json.JSONDecodeError`, or for the listener a zlib error.
- `Undecodable`: `json.loads` raises something else, such as `UnicodeDecodeError` on bytes that are not UTF-8 or `RecursionError` on very deep nesting. Only the `except Exception` handlers catch it.
- `NonObject`: valid JSON that is not a dict, so `.get` raises.
- A dict of values.

The modules:

| file | module | models |
|---|---|---|
| wrappers.dfy | Wrappers | `Option` |
| json.dfy | Json | decoded frames, `dict.get`, `len()` |
| text.dfy | Text | `str.startswith`, `sub in s` |
| base64.dfy | Base64 | `base64.b64encode` and its inverse (section 4 of RFC 4648) |
| pcm.dfy | Pcm | int16 samples and `ndarray.tobytes()` |
| preprocess.dfy | Preprocess | the integer steps of `preprocess_audio` |
| wire.dfy | Wire | the `format` / `audio` / `ack` messages and their JSON form |
| sender.dfy | Sender | `stream_audio`, `receive_messages` |
| server.dfy | Server | `handle_connection` |
| protocol.dfy | Protocol | the sender's stream as the server answers it |
| listener.dfy | Listener | `websocket_client`, `fetch_and_play_audio`, the client fleet of `main` |

The loops of the source are methods: `StreamAudio`, `ReceiveMessages`, `HandleConnection` and `WebsocketClient`. Each is proved equal to a function of its input (`StreamMessages`, `ClassifyReply` per reply up to `FirstRaising`, `Replies`/`LogFor`, `ListenerTrace`), and the laws are lemmas about those functions.

Points where the code's behaviour is easy to misread:

- The ack's `bytes` is the length of the base64 text, not the decoded PCM length. A full chunk is acked with 8536, not 6400.
- The server acks `audio` whether or not a `format` message came first.
- A non-dict JSON reply, an `Undecodable` frame, or an `audio` message whose `data` has no `len()` escapes the inner `except json.JSONDecodeError` and ends the loop.

## Model

| member | source | states |
|---|---|---|
| Json.Get | main.py:156 | `d.get(k)` is Some exactly when the key is present, and then holds its value |
| Json.GetOr | server.py:49 | `d.get(k, default)` is the value when present, else the default |
| Json.Len | server.py:55 | `len()` is defined exactly for strings, lists and dicts; for a string it is the character count |
| Text.ContainsFromCorrect | client_site_ws.py:96 | the left-to-right scan finds `sub` exactly when it occurs at or after the start position |
| Text.StartsWith | client_site_ws.py:95 | `s.startswith(p)` holds iff `p` is no longer than `s` and agrees with it at every position of `p` |
| Text.Contains | client_site_ws.py:96 | `sub in s` holds iff `sub` occurs at some position of `s` |
| Text.ContainsSlice | client_site_ws.py:96 | a string contains each of its slices |
| Base64.CeilDiv | main.py:127 | the quotient is the least q with q·d ≥ n |
| Base64.CharOf | main.py:127 | alphabet characters are never the pad character |
| Base64.SextetOf | main.py:127 | an accepted character is the alphabet character of the value it decodes to |
| Base64.SextetOfCharOf | main.py:127 | the alphabet lookup is inverted by the decoder |
| Base64.Encode | main.py:127 | the text of n bytes is 4·ceil(n/3) characters long (section 4 of RFC 4648) |
| Base64.DecodeEncode | main.py:127 | decoding the text gives back exactly the bytes encoded |
| Pcm.SampleBytes | main.py:127 | a sample is two bytes |
| Pcm.SampleRoundTrip | main.py:127 | the two little-endian two's-complement bytes of a sample read back as the sample |
| Pcm.ToBytes | main.py:127 | `tobytes()` of k samples is 2k bytes |
| Pcm.FromBytes | main.py:127 | reading 2k bytes gives k samples |
| Pcm.BytesRoundTrip | main.py:127 | the byte image of a chunk reads back as the same chunk |
| Preprocess.MeanTruncated | main.py:75 | the mono sample is the mean of the two channels rounded toward zero |
| Preprocess.MeanTruncatesTowardZero | main.py:75 | negative means round up, as `astype(int16)` does: mean(-3, 0) is -1 |
| Preprocess.ToMono | main.py:72-75 | mono input is unchanged; stereo gives one sample per frame, each the truncated mean of its two channels |
| Preprocess.FirstNonZero | main.py:86 | the index of the first non-zero sample: all before it are zero and it is non-zero, or it is the length |
| Preprocess.TrimLeadingSilence | main.py:85-89 | the result is a suffix of the input; only zeros are dropped, and only from the front; if any sample is non-zero the result starts with one; an all-zero or empty buffer is returned unchanged |
| Preprocess.TrimIdempotent | main.py:85-88 | trimming twice is the same as trimming once |
| Preprocess.PreprocessAudio | main.py:64-91 | the result starts with a non-zero sample unless it is all zeros; at 16000 Hz it is the trimmed mono collapse; at any other rate it is the trimmed resampling of the mono collapse |
| Wire.Transmit | main.py:111-118 | the dict a peer decodes carries the message's `type` |
| Wire.TransmitAll | main.py:118 | each message of a sequence is decoded in place |
| Wire.ParseTransmit | server.py:48-49 | every message survives the trip through JSON unchanged |
| Sender.ChunkIsHalfBuffer | main.py:45 | the loop step `buffer_size // 2` is 3200 samples |
| Sender.FormatInfo | main.py:111-117 | the format message is 16000 Hz, 16 bits, 1 channel, "PCM" |
| Sender.ChunkCount | main.py:123 | `range(0, n, 3200)` makes ceil(n/3200) iterations |
| Sender.ChunkIndexInRange | main.py:123 | the k-th loop index 3200k is below n exactly for k < ceil(n/3200) |
| Sender.Chunk | main.py:124 | no chunk is empty; every chunk but the last has 3200 samples; the last has the remainder |
| Sender.Chunks | main.py:123-124 | there are ceil(n/3200) chunks, in loop order |
| Sender.ConcatChunksPrefix | main.py:123-124 | the first m chunks concatenate to the first min(3200m, n) samples |
| Sender.ChunksConcat | main.py:123-124 | the chunks concatenate back to the input exactly |
| Sender.AudioMessage | main.py:125-128 | the `audio_data` dict is an audio message whose text is 4·ceil(2k/3) characters for k samples |
| Sender.AudioMessageCarriesChunk | main.py:125-128 | the receiver can rebuild the chunk exactly from the audio message's text |
| Sender.StreamPrefixShape | main.py:110-129 | after m iterations the sent messages are the format message and then the audio messages of chunks 0..m-1 |
| Sender.StreamMessages | main.py:110-129 | the messages of a stream are ceil(n/3200) + 1, the first being the format message |
| Sender.StreamMessagesShape | main.py:110-129 | exactly one format message is sent, first; then one audio message per chunk, in order |
| Sender.LoopChunk | main.py:124 | the slice the loop takes at index 3200k is chunk k |
| Sender.ProgressLines | main.py:130-132 | defines the progress lines logged over m passes |
| Sender.ProgressLinesExactly | main.py:130-132 | a progress line is logged at count c iff 1 ≤ c ≤ chunks sent and 10 divides c, and only progress lines are logged |
| Sender.ProgressLinesLength | main.py:130-132 | there is one progress line per ten chunks, the j-th at count 10(j+1) |
| Sender.SendChunk | main.py:124-133 | one loop pass sends the audio message of the current chunk and logs progress when the new count is a multiple of 10 |
| Sender.StreamAudio | main.py:109-135 | `chunks_sent` and the number of pauses end at ceil(n/3200); the messages sent are the format message then every chunk's audio message; the log is the format line, the progress lines, and the final count |
| Sender.ClassifyReply | main.py:155-167 | each reply has exactly one outcome: an ack iff it is a dict of type `ack`, then with its `bytes` value; other iff it is a dict of any other type or none; the invalid-JSON warning iff it is malformed JSON; a raise iff it is non-dict JSON or a frame on which `json.loads` fails in another way |
| Sender.Raises | main.py:155-167 | defines the replies on which the loop body raises outside its JSON handler: non-dict JSON and undecodable frames |
| Sender.FirstRaising | main.py:153-167 | the first reply on which the loop body raises outside its JSON handler, or the length if none does |
| Sender.ReceiveMessages | main.py:152-167 | one log entry per reply, each its classification, up to and including the first reply that raises; it re-raises exactly when there is one |
| Server.Aborts | server.py:48-71 | defines which messages raise outside the JSON handler: a non-dict, an undecodable frame, or audio whose `data` has no `len()` |
| Server.AbortsOnlyOnEscapes | server.py:48-71 | malformed JSON never ends the connection, nor does a dict of any type but `audio`; a non-dict or undecodable frame always does; an audio dict ends it only when its `data` is present and not a string |
| Server.MessageType | server.py:49 | a missing type reads as "" |
| Server.PayloadLength | server.py:55 | the length of the `data` text; 0 when `data` is absent |
| Server.StopIndex | server.py:45-71 | the first message on which the handler raises something other than a JSON error, or the length |
| Server.AudioOnly | server.py:53 | the audio messages of a connection: each audio message as often as it occurs, and nothing else |
| Server.ReplyTo | server.py:51-64 | defines the reply to one message: an ack for audio, nothing otherwise |
| Server.LogEntry | server.py:51-66 | defines the log line for one message: the format, the chunk length, the JSON warning, or none |
| Server.Replies | server.py:46-64 | the server sends only acks with status "received", at most one per message |
| Server.LogFor | server.py:46-66 | at most one log line per message handled, and never an error or connect line |
| Server.HandleConnection | server.py:44-71 | the log opens with the connect line; the acks sent and lines logged are those for every message before the first one that raises, then one error line if a message raised |
| Server.HandleOne | server.py:47-66 | one pass of the loop goes on iff the message does not raise; then it sends that message's reply and logs its line; otherwise it sends nothing and logs the error |
| Server.PrefixStep | server.py:46-66 | handling one more message that does not raise extends the replies and the log by that message's own |
| Server.UndecodableEndsConnection | server.py:65-71 | a frame `json.loads` fails on with anything but JSONDecodeError ends the connection at that frame |
| Server.RepliesMatchAudio | server.py:46-64 | the acks are in order-preserving one-to-one correspondence with the audio messages |
| Server.RepliesAppend | server.py:46-64 | the replies to a concatenation are the concatenated replies |
| Server.AudioGetsOneAck | server.py:53-64 | an audio message gets exactly one ack, status "received", bytes = length of `data`, 0 without it |
| Server.FormatGetsNoReply | server.py:51-52 | a format message is logged and gets no reply |
| Server.OtherTypeIgnored | server.py:49-53 | a message of any other type gets no reply and no log line |
| Server.MissingTypeIgnored | server.py:49 | a message without a type gets no reply and no log line |
| Server.InvalidJsonGetsNoReply | server.py:65-66 | malformed JSON is logged and gets no reply |
| Server.StopIndexAppend | server.py:46-66 | messages that do not raise never end the connection early |
| Server.InvalidAddsNoReply | server.py:65-66 | malformed JSON after messages that do not raise leaves the replies unchanged |
| Server.InvalidJsonKeepsConnection | server.py:46-66 | after malformed JSON the loop goes on, and later messages are answered as if it had not been there |
| Protocol.ReplyToTransmitted | server.py:53-64 | the server's reply to a transmitted message is an ack with the text length for audio, nothing otherwise |
| Protocol.AckBytes | server.py:55 | the ack value for k samples is a multiple of 4 and lies in [8k/3, 8k/3 + 4) |
| Protocol.AudioTextLength | main.py:127 | the text of a k-sample chunk is 4·ceil(2k/3) characters long |
| Protocol.StreamRepliesPrefix | server.py:46-64 | the format message and the first m audio messages of a stream get exactly the first m acks |
| Protocol.StreamIsAcked | server.py:46-64 | the server handles a whole stream to its end and sends one ack per chunk, in order, with bytes 4·ceil(2k/3) for a chunk of k samples |
| Protocol.FullChunkAckIsTextLength | server.py:55-62 | a full chunk is acked with 8536, which is not its 6400 PCM bytes |
| Protocol.AckIsLoggedWithBytes | main.py:156-157 | the sender logs each ack with the `bytes` the server put in it |
| Listener.AudioUrl | client_site_ws.py:101 | the URL is the API base, one slash, and then the route unchanged |
| Listener.AudioUrlInjective | client_site_ws.py:101 | different routes give different URLs |
| Listener.DispatchMessage | client_site_ws.py:95-103 | the loop body raises iff the frame is not a dict or its type is not a string; it skips iff the type is a `broadcast-` type containing `translating`; it logs iff the type is any other `broadcast-` type, and logs the type; it fetches or fails iff the type is `broadcast-audio-noti`; it fails (KeyError) iff the route key is absent; a fetch has the route, to `AudioUrl(route)` for a string route |
| Listener.AudioNotiWithoutRoute | client_site_ws.py:98-113 | an audio notification without a route is logged, then the connection ends on the error |
| Listener.AudioNotiIsLoud | client_site_ws.py:95-100 | "broadcast-audio-noti" is a broadcast type and does not contain "translating" |
| Listener.AudioNotiFetched | client_site_ws.py:100-103 | an audio notification with a string route is logged once and fetched from the composed URL |
| Listener.FetchAndPlayAudio | client_site_ws.py:49-61 | status 200 is reported as done; any other status as failed with that status; a request error as an error; there is no retry |
| Listener.ReceiveOne | client_site_ws.py:90-103 | one loop pass produces the events of its dispatch and goes on exactly when the dispatch does not raise |
| Listener.Continues | client_site_ws.py:97-113 | defines when the loop goes on past a frame: it is skipped, or handled without a raise |
| Listener.StepEvents | client_site_ws.py:95-103 | one frame produces at most three events, and none exactly when it is suppressed or neither logged nor fetched |
| Listener.ListenerTrace | client_site_ws.py:89-113 | the receive loop produces at least one and at most 3n+1 events for n frames |
| Listener.ConnectionTrace | client_site_ws.py:81-113 | a connection's events begin with the connecting line for the WebSocket URL and the connected line |
| Listener.WebsocketClient | client_site_ws.py:81-113 | the events of a connection are the connecting and connected lines, then those of its receive loop; the last event is the closing or error line |
| Listener.ConnectionTerminates | client_site_ws.py:81-113 | a connection opens with its two connect lines and ends with exactly one closing or error event, its last |
| Listener.TraceTerminates | client_site_ws.py:89-113 | every receive loop ends with exactly one closing or error event, and that is the last event |
| Listener.StepEventsTerminal | client_site_ws.py:95-103 | a delivery produces a terminal event only when it ends the loop, and only as its last event |
| Listener.StepFetches | client_site_ws.py:100-103 | a delivery issues exactly one fetch when its dispatch fetches, and none otherwise |
| Listener.FetchesAtMostOnePerMessage | client_site_ws.py:100-103 | a connection issues at most one fetch per received frame |
| Listener.TranslatingFrameSuppressed | client_site_ws.py:95-97 | a frame whose type is "broadcast-translating" followed by anything is skipped |
| Listener.TranslatingSuppressed | client_site_ws.py:95-103 | of translating-partial, audio-noti and translating-final, only the audio notification is logged and fetched |
| Listener.ClientIds | client_site_ws.py:123 | the fleet has 40 ids, 0 to 39 in order |
| Listener.SuppressedCons | client_site_ws.py:95-97 | a skipped frame adds nothing to a connection's events |
| Listener.LoggedFetchSteps | client_site_ws.py:98-103 | a broadcast audio notification is logged, fetched and reported, and the loop goes on |
| Listener.Fleet | client_site_ws.py:123-124 | client i has id i, and its events are a whole connection over its own frames only |
| Listener.FleetAllTerminate | client_site_ws.py:123-124 | every member of the fleet ends on its own closing or error event, whatever the others receive |

## Left out

- Reading the WAV file, and the float-to-int16 rescale `(data * 32767).astype(np.int16)` (main.py:66-70, main.py:83). This is file I/O and floating point; numpy's cast wraps.
- `librosa.resample` is a foreign band-limited resampler. It is a parameter of `PreprocessAudio`.
- Channel layouts other than mono and two-channel stereo: the source leaves them as they are.
- `zlib.decompress` and `json.loads` are foreign calls. A frame arrives as its decoded value. A `JSONDecodeError` (or a zlib error) is `Invalid`; any other `json.loads` exception is `Undecodable`. JSON floats and the contents of nested lists and dicts are not represented; a nested list or dict is kept only as its length.
- WebSocket and asyncio plumbing:
  - `connect`, `serve`, `open_timeout`
  - concurrency between the sender's two tasks and between fleet members
  - the `asyncio.sleep(0.2)` pacing, counted as `pauses`
- Sender.StreamAudio: does not model a send that fails mid-stream; the method describes a stream whose every send succeeds.
- Sender.ReceiveMessages and Server.HandleConnection: the input is the messages received until the peer closes normally. An abnormal close, which raises `ConnectionClosed` and logs "WebSocket connection closed" or "Client disconnected", is not modelled.
- Listener.DispatchMessage: a route that is not a string is kept as its value (`UnrenderedRoute`); its `str()` text inside the URL is not modelled.
- The HTTP GET itself and the commented-out playback. Each delivery carries the response its fetch would get.
- Connection failures of a listener before its loop starts.
- The text of log lines. Only which event is logged, and with which values, is modelled.
- `process_audio_file` and the rest of `main.py` outside the three named methods.
- The load-test harness in `tests/`.
- Pcm.ToBytes: `tobytes()` uses the host's byte order; the model fixes it as little-endian. The text length, and so every ack value, is the same either way.
