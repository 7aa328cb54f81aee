/**
 * The broadcast listener of client_site_ws.py: the dispatch inside the
 * `websocket_client` loop, the audio URL it composes, the status branch of
 * `fetch_and_play_audio`, and the fleet of clients `main` starts.
 *
 * Frames arrive already decompressed and decoded; a zlib or JSON failure is
 * the `Invalid` or `Undecodable` frame, and either ends the connection. The
 * HTTP GET is the collaborator's: each delivery carries the response its
 * fetch (if it makes one) would get.
 */
module Listener {
  import opened Wrappers
  import opened Json
  import opened Text

  const AudioApiBase: string := "https://api.travist.ai"
  const WsBaseUrl: string := "wss://api.travist.ai/server/audio/input-stream-translation/1234.tourguide/client"
  const NumClients: nat := 40
  const BroadcastPrefix: string := "broadcast-"
  const SuppressedMarker: string := "translating"
  const AudioNotiType: string := "broadcast-audio-noti"

  /** `f"{AUDIO_API_BASE}/{route}"`: the base, one slash, then the route unchanged. */
  function AudioUrl(route: string): (url: string)
    ensures StartsWith(url, AudioApiBase + "/")
    ensures url[|AudioApiBase| + 1..] == route
  {
    AudioApiBase + "/" + route
  }

  /** Distinct routes give distinct URLs. */
  lemma AudioUrlInjective(r1: string, r2: string)
    requires AudioUrl(r1) == AudioUrl(r2)
    ensures r1 == r2
  {
    assert r1 == AudioUrl(r1)[|AudioApiBase| + 1..];
  }

  /** What a fetch is issued for: a composed URL, or a route that is not a string (its `str()` text is not modelled). */
  datatype FetchTarget = Url(url: string) | UnrenderedRoute(route: Value)

  datatype FetchStep =
    | NoFetch
    | Fetch(target: FetchTarget)
    | MissingRoute  // `message['http-url-route']` raises KeyError, which ends the connection

  /** The decision the loop body takes for one decoded message. */
  datatype Dispatch =
    | Fatal                                        // the body raises; the connection ends
    | Suppressed                                   // `continue`: neither logged nor fetched
    | Handle(logged: Option<string>, fetch: FetchStep)

  /** True when `message.get("type", "")` is a string that starts with "broadcast-" and contains "translating". */
  predicate IsNoisyBroadcast(f: Fields)
  {
    var t := GetOr(f, "type", Str(""));
    t.Str? && StartsWith(t.s, BroadcastPrefix) && Contains(t.s, SuppressedMarker)
  }

  /** The loop body of `websocket_client` for one decoded message. */
  function DispatchMessage(d: Decoded): (r: Dispatch)
    // malformed frames and non-string types end the connection
    ensures r == Fatal <==> !d.Obj? || !GetOr(d.fields, "type", Str("")).Str?
    ensures r == Suppressed <==> d.Obj? && IsNoisyBroadcast(d.fields)
    // a broadcast that is not suppressed is logged once, by its type; nothing else is logged
    ensures r.Handle? && r.logged.Some? <==>
      d.Obj? && "type" in d.fields && d.fields["type"].Str? &&
      StartsWith(d.fields["type"].s, BroadcastPrefix) && !Contains(d.fields["type"].s, SuppressedMarker)
    ensures r.Handle? && r.logged.Some? ==> r.logged.value == d.fields["type"].s
    // a fetch is issued, or attempted, only for "broadcast-audio-noti"
    ensures r.Handle? && !r.fetch.NoFetch? <==>
      d.Obj? && Get(d.fields, "type") == Some(Str(AudioNotiType)) && !IsNoisyBroadcast(d.fields)
    // the route is looked up only then: a missing one raises KeyError, any other value is fetched
    ensures r.Handle? && r.fetch.MissingRoute? <==>
      d.Obj? && Get(d.fields, "type") == Some(Str(AudioNotiType)) && !IsNoisyBroadcast(d.fields) && "http-url-route" !in d.fields
    ensures r.Handle? && r.fetch.Fetch? ==> "http-url-route" in d.fields
    ensures r.Handle? && r.fetch.Fetch? && r.fetch.target.UnrenderedRoute? ==>
      r.fetch.target.route == d.fields["http-url-route"] && !d.fields["http-url-route"].Str?
    ensures r.Handle? && r.fetch.Fetch? && r.fetch.target.Url? ==>
      "http-url-route" in d.fields && d.fields["http-url-route"].Str? && r.fetch.target.url == AudioUrl(d.fields["http-url-route"].s)
  {
    match d
    case Invalid => Fatal
    case Undecodable => Fatal
    case NonObject => Fatal
    case Obj(f) =>
      var t := GetOr(f, "type", Str(""));
      if !t.Str? then Fatal
      else if StartsWith(t.s, BroadcastPrefix) && Contains(t.s, SuppressedMarker) then Suppressed
      else
        var logged := if StartsWith(t.s, BroadcastPrefix) then Some(t.s) else None;
        var fetch :=
          if Get(f, "type") == Some(Str(AudioNotiType)) then
            match Get(f, "http-url-route")
            case None => MissingRoute
            case Some(Str(route)) => Fetch(Url(AudioUrl(route)))
            case Some(v) => Fetch(UnrenderedRoute(v))
          else NoFetch;
        Handle(logged, fetch)
  }

  /** One mismatching character rules out an occurrence at a position. */
  lemma DiffersAt(s: string, m: string, i: nat, j: nat)
    requires i + |m| <= |s| && j < |m| && s[i + j] != m[j]
    ensures !OccursAt(s, m, i)
  {
    assert i + j < i + |m|;
  }

  /** "translating" does not occur in "broadcast-audio-noti" at positions 0 to 4. */
  lemma MarkerNotInNotiLow(i: nat)
    requires i < 5
    ensures !OccursAt(AudioNotiType, SuppressedMarker, i)
  {
    DiffersAt(AudioNotiType, SuppressedMarker, i, 0);
  }

  /** ... nor at positions 5 to 9; the only 't' there is followed by '-'. */
  lemma MarkerNotInNotiHigh(i: nat)
    requires 5 <= i < 10
    ensures !OccursAt(AudioNotiType, SuppressedMarker, i)
  {
    if i == 8 {
      DiffersAt(AudioNotiType, SuppressedMarker, i, 1);
    } else {
      DiffersAt(AudioNotiType, SuppressedMarker, i, 0);
    }
  }

  /** The type "broadcast-audio-noti" is a broadcast and has no "translating" in it. */
  lemma AudioNotiIsLoud()
    ensures StartsWith(AudioNotiType, BroadcastPrefix)
    ensures !Contains(AudioNotiType, SuppressedMarker)
  {
    forall i: nat
      ensures !OccursAt(AudioNotiType, SuppressedMarker, i)
    {
      if i < 5 {
        MarkerNotInNotiLow(i);
      } else if i < 10 {
        MarkerNotInNotiHigh(i);
      }
    }
  }

  /** An audio notification with a string route is logged and fetched from `AUDIO_API_BASE + "/" + route`. */
  lemma AudioNotiFetched(f: Fields, route: string)
    requires Get(f, "type") == Some(Str(AudioNotiType))
    requires Get(f, "http-url-route") == Some(Str(route))
    ensures DispatchMessage(Obj(f)) == Handle(Some(AudioNotiType), Fetch(Url(AudioUrl(route))))
  {
    AudioNotiIsLoud();
  }

  /** An audio notification without a route is logged, then `message['http-url-route']` raises KeyError and the connection ends. */
  lemma AudioNotiWithoutRoute(f: Fields, response: HttpResponse)
    requires Get(f, "type") == Some(Str(AudioNotiType))
    requires "http-url-route" !in f
    ensures DispatchMessage(Obj(f)) == Handle(Some(AudioNotiType), MissingRoute)
    ensures StepEvents(Delivery(Obj(f), response)) == [ReceivedLogged(AudioNotiType), ErrorLogged]
    ensures !Continues(Delivery(Obj(f), response))
  {
    AudioNotiIsLoud();
  }

  /** The HTTP outcome of one GET. */
  datatype HttpResponse = Status(code: int) | RequestFailed

  /** What `fetch_and_play_audio` reports; there is no retry. */
  datatype FetchReport = FetchDone | FetchFailed(status: int) | FetchErrored

  /** The status branch of `fetch_and_play_audio`. */
  function FetchAndPlayAudio(response: HttpResponse): (r: FetchReport)
    ensures r == FetchDone <==> response == Status(200)
    ensures r.FetchFailed? <==> response.Status? && response.code != 200
    ensures r.FetchFailed? ==> r.status == response.code
    ensures r == FetchErrored <==> response == RequestFailed
  {
    match response
    case Status(code) => if code == 200 then FetchDone else FetchFailed(code)
    case RequestFailed => FetchErrored
  }

  /** One received frame, with the response its fetch would get if the dispatch issues one. */
  datatype Delivery = Delivery(frame: Decoded, response: HttpResponse)

  /** What one listener does, in order. */
  datatype ListenerEvent =
    | ConnectingLogged(url: string)    // "[id] Connecting to <url>"
    | ConnectedLogged                  // "[id] Connected."
    | ReceivedLogged(msgType: string)  // "[id] Received message: <type>"
    | FetchIssued(target: FetchTarget)
    | FetchReported(report: FetchReport)
    | ClosedLogged                     // ConnectionClosed: the loop ends
    | ErrorLogged                      // any other exception: the loop ends

  predicate IsTerminal(e: ListenerEvent)
  {
    e.ClosedLogged? || e.ErrorLogged?
  }

  /**
   * The events the loop body produces for one delivery: at most three, and
   * none exactly when the frame is suppressed or is a message that is neither
   * logged nor fetched.
   */
  function StepEvents(d: Delivery): (e: seq<ListenerEvent>)
    ensures |e| <= 3
    ensures e == [] <==> DispatchMessage(d.frame).Suppressed? || DispatchMessage(d.frame) == Handle(None, NoFetch)
  {
    match DispatchMessage(d.frame)
    case Fatal => [ErrorLogged]
    case Suppressed => []
    case Handle(logged, fetch) =>
      var logEvents := if logged.Some? then [ReceivedLogged(logged.value)] else [];
      match fetch
      case NoFetch => logEvents
      case MissingRoute => logEvents + [ErrorLogged]
      case Fetch(target) => logEvents + [FetchIssued(target), FetchReported(FetchAndPlayAudio(d.response))]
  }

  /** The loop goes on to the next frame after this one. */
  predicate Continues(d: Delivery)
  {
    var r := DispatchMessage(d.frame);
    r.Suppressed? || (r.Handle? && !r.fetch.MissingRoute?)
  }

  /** The events of the receive loop of a connection that receives `ds` and is then closed by its peer: at most three per frame, then the end. */
  function ListenerTrace(ds: seq<Delivery>): (t: seq<ListenerEvent>)
    ensures 1 <= |t| <= 3 * |ds| + 1
    decreases |ds|
  {
    if ds == [] then [ClosedLogged]
    else StepEvents(ds[0]) + (if Continues(ds[0]) then ListenerTrace(ds[1..]) else [])
  }

  /** The loop body of `websocket_client` for one delivery: the events it produces and whether the loop goes on. */
  method ReceiveOne(delivery: Delivery) returns (step: seq<ListenerEvent>, goOn: bool)
    ensures step == StepEvents(delivery)
    ensures goOn == Continues(delivery)
  {
    match delivery.frame {
      case Invalid =>
        return [ErrorLogged], false;
      case Undecodable =>
        return [ErrorLogged], false;
      case NonObject =>
        return [ErrorLogged], false;
      case Obj(message) =>
        var msgType := GetOr(message, "type", Str(""));
        if !msgType.Str? {
          return [ErrorLogged], false;
        }
        if StartsWith(msgType.s, BroadcastPrefix) && Contains(msgType.s, SuppressedMarker) {
          return [], true;
        }
        step := [];
        if StartsWith(msgType.s, BroadcastPrefix) {
          step := [ReceivedLogged(msgType.s)];
        }
        goOn := true;
        if Get(message, "type") == Some(Str(AudioNotiType)) {
          var route := Get(message, "http-url-route");
          if route.None? {
            step := step + [ErrorLogged];
            goOn := false;
          } else {
            var target := if route.value.Str? then Url(AudioUrl(route.value.s)) else UnrenderedRoute(route.value);
            step := step + [FetchIssued(target), FetchReported(FetchAndPlayAudio(delivery.response))];
          }
        }
    }
  }

  /** A whole connection: the connecting and connected lines, then the receive loop. */
  function ConnectionTrace(ds: seq<Delivery>): (t: seq<ListenerEvent>)
    ensures |t| >= 3 && t[..2] == [ConnectingLogged(WsBaseUrl), ConnectedLogged]
  {
    [ConnectingLogged(WsBaseUrl), ConnectedLogged] + ListenerTrace(ds)
  }

  /** `websocket_client`: connect, then receive, decode and dispatch until the connection ends. */
  method WebsocketClient(deliveries: seq<Delivery>) returns (events: seq<ListenerEvent>)
    ensures events == ConnectionTrace(deliveries)
    ensures |events| > 0 && IsTerminal(events[|events| - 1])
  {
    events := [ConnectingLogged(WsBaseUrl), ConnectedLogged];
    var i := 0;
    while i < |deliveries|
      invariant i <= |deliveries|
      invariant events + ListenerTrace(deliveries[i..]) == ConnectionTrace(deliveries)
    {
      var step, goOn := ReceiveOne(deliveries[i]);
      TraceUnfold(deliveries, i);
      if !goOn {
        events := events + step;
        ConnectionTerminates(deliveries);
        return;
      }
      AppendAssoc(events, step, ListenerTrace(deliveries[i + 1..]));
      events := events + step;
      i := i + 1;
    }
    events := events + [ClosedLogged];
    ConnectionTerminates(deliveries);
  }

  /** One step of the trace from position `i` on. */
  lemma TraceUnfold(ds: seq<Delivery>, i: nat)
    requires i < |ds|
    ensures ListenerTrace(ds[i..]) ==
      StepEvents(ds[i]) + (if Continues(ds[i]) then ListenerTrace(ds[i + 1..]) else [])
  {
    assert ds[i..][1..] == ds[i + 1..];
  }

  lemma AppendAssoc<T>(a: seq<T>, b: seq<T>, c: seq<T>)
    ensures a + (b + c) == (a + b) + c
  {
  }

  /** Every connection ends with exactly one closing or error event, and it is the last one. */
  lemma {:induction false} TraceTerminates(ds: seq<Delivery>)
    ensures var t := ListenerTrace(ds);
      |t| > 0 && IsTerminal(t[|t| - 1]) && forall j :: 0 <= j < |t| - 1 ==> !IsTerminal(t[j])
    decreases |ds|
  {
    if ds != [] {
      var step := StepEvents(ds[0]);
      StepEventsTerminal(ds[0]);
      if Continues(ds[0]) {
        TraceTerminates(ds[1..]);
        NonTerminalPrefix(step, ListenerTrace(ds[1..]));
      } else {
        assert ListenerTrace(ds) == step + [];
        assert step + [] == step;
      }
    }
  }

  /** A whole connection opens with its two connect lines and ends on its only closing or error event. */
  lemma ConnectionTerminates(ds: seq<Delivery>)
    ensures var t := ConnectionTrace(ds);
      t[0] == ConnectingLogged(WsBaseUrl) && t[1] == ConnectedLogged &&
      IsTerminal(t[|t| - 1]) && forall j :: 0 <= j < |t| - 1 ==> !IsTerminal(t[j])
  {
    TraceTerminates(ds);
    NonTerminalPrefix([ConnectingLogged(WsBaseUrl), ConnectedLogged], ListenerTrace(ds));
  }

  /** Only a delivery that ends the loop produces a terminal event, and then only as its last event. */
  lemma StepEventsTerminal(d: Delivery)
    ensures var e := StepEvents(d);
      (forall j :: 0 <= j < |e| - 1 ==> !IsTerminal(e[j])) &&
      (Continues(d) ==> forall j :: 0 <= j < |e| ==> !IsTerminal(e[j])) &&
      (!Continues(d) ==> |e| > 0 && IsTerminal(e[|e| - 1]))
  {
  }

  /** Events free of terminal ones, followed by a trace that ends on its only terminal event. */
  lemma NonTerminalPrefix(a: seq<ListenerEvent>, t: seq<ListenerEvent>)
    requires forall j :: 0 <= j < |a| ==> !IsTerminal(a[j])
    requires |t| > 0 && IsTerminal(t[|t| - 1]) && forall j :: 0 <= j < |t| - 1 ==> !IsTerminal(t[j])
    ensures var u := a + t; |u| > 0 && IsTerminal(u[|u| - 1]) && forall j :: 0 <= j < |u| - 1 ==> !IsTerminal(u[j])
  {
    var u := a + t;
    forall j | 0 <= j < |u| - 1
      ensures !IsTerminal(u[j])
    {
      if j >= |a| {
        assert u[j] == t[j - |a|];
      }
    }
  }

  /** The number of fetches a trace issues. */
  function FetchCount(t: seq<ListenerEvent>): nat
  {
    if t == [] then 0 else (if t[0].FetchIssued? then 1 else 0) + FetchCount(t[1..])
  }

  lemma {:induction false} FetchCountAppend(a: seq<ListenerEvent>, b: seq<ListenerEvent>)
    ensures FetchCount(a + b) == FetchCount(a) + FetchCount(b)
    decreases |a|
  {
    if a != [] {
      assert (a + b)[0] == a[0];
      assert (a + b)[1..] == a[1..] + b;
      FetchCountAppend(a[1..], b);
    } else {
      assert a + b == b;
    }
  }

  /** One delivery issues a fetch exactly when its dispatch decides to fetch, and never more than one. */
  lemma StepFetches(d: Delivery)
    ensures FetchCount(StepEvents(d)) == if DispatchMessage(d.frame).Handle? && DispatchMessage(d.frame).fetch.Fetch? then 1 else 0
  {
    var r := DispatchMessage(d.frame);
    if r.Handle? {
      var logEvents := if r.logged.Some? then [ReceivedLogged(r.logged.value)] else [];
      assert FetchCount(logEvents) == 0;
      match r.fetch
      case NoFetch =>
      case MissingRoute =>
        FetchCountAppend(logEvents, [ErrorLogged]);
      case Fetch(target) =>
        var fetchEvents := [FetchIssued(target), FetchReported(FetchAndPlayAudio(d.response))];
        assert FetchCount(fetchEvents[1..]) == 0;
        FetchCountAppend(logEvents, fetchEvents);
    }
  }

  /** A connection issues at most one fetch per received message. */
  lemma {:induction false} FetchesAtMostOnePerMessage(ds: seq<Delivery>)
    ensures FetchCount(ListenerTrace(ds)) <= |ds|
    decreases |ds|
  {
    if ds != [] {
      StepFetches(ds[0]);
      if Continues(ds[0]) {
        FetchesAtMostOnePerMessage(ds[1..]);
        FetchCountAppend(StepEvents(ds[0]), ListenerTrace(ds[1..]));
      } else {
        assert StepEvents(ds[0]) + [] == StepEvents(ds[0]);
      }
    }
  }

  /** A broadcast frame with just a type, and the "broadcast-audio-noti" frame with its route. */
  function TypedFrame(t: string): Decoded { Obj(map["type" := Str(t)]) }
  function AudioNotiFrame(route: string): Decoded { Obj(map["type" := Str(AudioNotiType), "http-url-route" := Str(route)]) }

  /** A frame whose type is "broadcast-translating" followed by anything is suppressed. */
  lemma TranslatingFrameSuppressed(rest: string)
    ensures DispatchMessage(TypedFrame(BroadcastPrefix + SuppressedMarker + rest)) == Suppressed
  {
    var t := BroadcastPrefix + SuppressedMarker + rest;
    assert t[..10] == BroadcastPrefix;
    assert t[10..21] == SuppressedMarker;
    ContainsSlice(t, 10, 21);
  }

  lemma PartialAndFinalSuppressed()
    ensures DispatchMessage(TypedFrame("broadcast-translating-partial")) == Suppressed
    ensures DispatchMessage(TypedFrame("broadcast-translating-final")) == Suppressed
  {
    assert "broadcast-translating-partial" == BroadcastPrefix + SuppressedMarker + "-partial";
    assert "broadcast-translating-final" == BroadcastPrefix + SuppressedMarker + "-final";
    TranslatingFrameSuppressed("-partial");
    TranslatingFrameSuppressed("-final");
  }

  /** Between two "translating" broadcasts, only the audio notification is logged and fetched. */
  lemma TranslatingSuppressed(route: string, r1: HttpResponse, r2: HttpResponse, r3: HttpResponse)
    ensures ListenerTrace([Delivery(TypedFrame("broadcast-translating-partial"), r1),
                           Delivery(AudioNotiFrame(route), r2),
                           Delivery(TypedFrame("broadcast-translating-final"), r3)])
         == [ReceivedLogged(AudioNotiType), FetchIssued(Url(AudioUrl(route))), FetchReported(FetchAndPlayAudio(r2)), ClosedLogged]
  {
    PartialAndFinalSuppressed();
    var d1, d2, d3 := Delivery(TypedFrame("broadcast-translating-partial"), r1),
                      Delivery(AudioNotiFrame(route), r2),
                      Delivery(TypedFrame("broadcast-translating-final"), r3);
    AudioNotiFetched(d2.frame.fields, route);
    TraceOfThree(d1, d2, d3);
  }

  /** The trace of three deliveries when the first and last are suppressed and the middle one fetches. */
  lemma TraceOfThree(d1: Delivery, d2: Delivery, d3: Delivery)
    requires DispatchMessage(d1.frame) == Suppressed && DispatchMessage(d3.frame) == Suppressed
    requires DispatchMessage(d2.frame).Handle? && DispatchMessage(d2.frame).logged.Some?
    requires DispatchMessage(d2.frame).fetch.Fetch?
    ensures ListenerTrace([d1, d2, d3]) ==
      [ReceivedLogged(DispatchMessage(d2.frame).logged.value), FetchIssued(DispatchMessage(d2.frame).fetch.target),
       FetchReported(FetchAndPlayAudio(d2.response)), ClosedLogged]
  {
    var r := DispatchMessage(d2.frame);
    var e2 := [ReceivedLogged(r.logged.value), FetchIssued(r.fetch.target), FetchReported(FetchAndPlayAudio(d2.response))];
    SuppressedCons(d3, []);
    assert [d3] + [] == [d3];
    LoggedFetchSteps(d2);
    TraceCons(d2, [d3]);
    assert [d2] + [d3] == [d2, d3];
    SuppressedCons(d1, [d2, d3]);
    assert [d1] + [d2, d3] == [d1, d2, d3];
  }

  /** A suppressed delivery adds nothing to the trace. */
  lemma SuppressedCons(d: Delivery, rest: seq<Delivery>)
    requires DispatchMessage(d.frame) == Suppressed
    ensures ListenerTrace([d] + rest) == ListenerTrace(rest)
  {
    TraceCons(d, rest);
  }

  /** A delivery that is logged and fetched produces its log line, the fetch and its report, and the loop goes on. */
  lemma LoggedFetchSteps(d: Delivery)
    requires DispatchMessage(d.frame).Handle? && DispatchMessage(d.frame).logged.Some?
    requires DispatchMessage(d.frame).fetch.Fetch?
    ensures var r := DispatchMessage(d.frame);
      StepEvents(d) == [ReceivedLogged(r.logged.value), FetchIssued(r.fetch.target), FetchReported(FetchAndPlayAudio(d.response))]
    ensures Continues(d)
  {
  }

  /** The trace of a delivery followed by more. */
  lemma TraceCons(d: Delivery, rest: seq<Delivery>)
    ensures ListenerTrace([d] + rest) == StepEvents(d) + (if Continues(d) then ListenerTrace(rest) else [])
  {
    assert ([d] + rest)[1..] == rest;
  }


  /** `[websocket_client(i) for i in range(NUM_CLIENTS)]`: the ids of the fleet, in order. */
  function ClientIds(): (ids: seq<nat>)
    ensures |ids| == NumClients
    ensures forall i :: 0 <= i < |ids| ==> ids[i] == i
  {
    seq(NumClients, i => i)
  }

  /** One fleet member and what it did. */
  datatype ClientRun = ClientRun(clientId: nat, events: seq<ListenerEvent>)

  /** `main`: every client runs its own connection over its own frames; the fleet is done when all are. */
  function Fleet(streams: seq<seq<Delivery>>): (runs: seq<ClientRun>)
    requires |streams| == NumClients
    ensures |runs| == NumClients
    // client i has id i and its events depend on its own frames only
    ensures forall i :: 0 <= i < NumClients ==> runs[i].clientId == i && runs[i].events == ConnectionTrace(streams[i])
  {
    var ids := ClientIds();
    seq(NumClients, i requires 0 <= i < NumClients => ClientRun(ids[i], ConnectionTrace(streams[i])))
  }

  /** Every member of the fleet ends, on its own closing or error event, whatever the others receive. */
  lemma FleetAllTerminate(streams: seq<seq<Delivery>>)
    requires |streams| == NumClients
    ensures forall i :: 0 <= i < NumClients ==>
      var e := Fleet(streams)[i].events; |e| > 0 && IsTerminal(e[|e| - 1])
  {
    forall i | 0 <= i < NumClients
      ensures var e := Fleet(streams)[i].events; |e| > 0 && IsTerminal(e[|e| - 1])
    {
      ConnectionTerminates(streams[i]);
    }
  }
}
