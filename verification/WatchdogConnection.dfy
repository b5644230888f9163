/** The client end of the watchdog protocol (ServiceWatchdogConnection.cpp): what
    one received message does to the client, and the class that does it. */
module WatchdogClient {
  import opened Framing
  import opened Wrappers
  import opened ResponseHandlers

  datatype Request = ConnectRequest | PingRequest(code: Uint32) | ReconnectRequest | ShutdownRequest

  datatype Response =
    | HandshakeResponse(kind: Kind, parsed: Option<ResponseData>)
    | PingResponse(pingParsed: Option<Uint32>)
    | UnknownOperation

  /** The protocol buffers layer: operation numbers, parsers and serialiser. */
  datatype Codec = Codec(
    connectResponse: Uint32,
    pingResponse: Uint32,
    reconnectResponse: Uint32,
    parseConnect: seq<Byte> -> Option<ResponseData>,
    parsePing: seq<Byte> -> Option<Uint32>,
    parseReconnect: seq<Byte> -> Option<ResponseData>,
    requestCode: Request -> Uint32,
    serialize: Request -> seq<Byte>)

  /** Enumerators are distinct. */
  predicate DistinctOperations(codec: Codec) {
    && codec.connectResponse != codec.pingResponse
    && codec.connectResponse != codec.reconnectResponse
    && codec.pingResponse != codec.reconnectResponse
  }

  function Decode(codec: Codec, m: Message): Response {
    var op := m.header.operationCode;
    if op == codec.connectResponse then HandshakeResponse(ConnectKind, codec.parseConnect(m.body))
    else if op == codec.pingResponse then PingResponse(codec.parsePing(m.body))
    else if op == codec.reconnectResponse then HandshakeResponse(ReconnectKind, codec.parseReconnect(m.body))
    else UnknownOperation
  }

  /** The size field is 32 bits wide. */
  function RequestMessage(codec: Codec, r: Request): Message {
    var body := codec.serialize(r);
    Message(Header(codec.requestCode(r), |body| % UINT32_LIMIT), body)
  }

  lemma RequestsAreWellSizedIffShort(codec: Codec, r: Request)
    ensures WellSized(RequestMessage(codec, r)) <==> |codec.serialize(r)| < UINT32_LIMIT
  {
  }

  predicate SameKind(q: Request, r: Request) {
    || (q.ConnectRequest? && r.ConnectRequest?) || (q.PingRequest? && r.PingRequest?)
    || (q.ReconnectRequest? && r.ReconnectRequest?) || (q.ShutdownRequest? && r.ShutdownRequest?)
  }

  /** Each kind of request has an operation number of its own. */
  ghost predicate DistinctRequests(codec: Codec) {
    forall q, r :: codec.requestCode(q) == codec.requestCode(r) <==> SameKind(q, r)
  }

  /** The watchdog can tell the requests apart by the operation code alone. */
  lemma RequestsTellApart(codec: Codec, q: Request, r: Request)
    requires DistinctRequests(codec)
    ensures RequestMessage(codec, q).header.operationCode == RequestMessage(codec, r).header.operationCode
       <==> SameKind(q, r)
  {
    var code := codec.requestCode(q);
    assert RequestMessage(codec, q).header.operationCode == code;
  }

  function RequestMessages(codec: Codec, rs: seq<Request>): (ms: seq<Message>)
    ensures |ms| == |rs|
  {
    seq(|rs|, i requires 0 <= i < |rs| => RequestMessage(codec, rs[i]))
  }

  datatype Client = Client(handshake: Handshake, timerWaits: nat, sent: seq<Request>)

  function Send(c: Client, r: Request): Client {
    c.(sent := c.sent + [r])
  }

  function Ping(c: Client): Client {
    Send(c, PingRequest(c.handshake.code))
  }

  /** The direct dispatcher: a handler's exception leaves the call. */
  function Handle(c: Client, r: Response): (Client, Outcome) {
    match r
    case HandshakeResponse(kind, parsed) =>
      var (h, outcome) := Reply(kind, c.handshake, parsed);
      (c.(handshake := h), outcome)
    case PingResponse(parsed) =>
      if parsed == Some(c.handshake.code) then (c.(timerWaits := c.timerWaits + 1), Handled)
      else (c, Threw(if parsed.None? then FailedToParse else ResendPingRequest))
    case UnknownOperation => (c, Handled)
  }

  /** The wrapper's answer to an exception. */
  function Resend(c: Client, outcome: Outcome): Client {
    if outcome == Threw(ResendConnectRequest) then Send(c, ConnectRequest)
    else if outcome == Threw(ResendPingRequest) then Ping(c)
    else if outcome == Threw(ResendReconnectRequest) then Send(c, ReconnectRequest)
    else c
  }

  function HandleWrapped(c: Client, r: Response): Client {
    var (c', outcome) := Handle(c, r);
    Resend(c', outcome)
  }

  /** Under the wrapper one response has at most one effect that keeps the
      conversation going, and never both a state change and a resend: a timer
      wait, or a request of the matching kind, or the grant; and a connect or
      reconnect request only while not connected. */
  lemma WrappedEffects(c: Client, r: Response)
    ensures var c' := HandleWrapped(c, r);
            && c.sent <= c'.sent
            && |c'.sent| + c'.timerWaits <= |c.sent| + c.timerWaits + 1
            && (c'.handshake != c.handshake ==>
                  && c.handshake.state.NotConnected? && c' == c.(handshake := c'.handshake)
                  && r.HandshakeResponse? && r.parsed.Some? && Grants(r.parsed.value)
                  && c'.handshake == Handshake(Connected, r.parsed.value.sequenceCode.value))
            && (c'.timerWaits != c.timerWaits ==> r == PingResponse(Some(c.handshake.code)) && c'.sent == c.sent)
            && (c'.sent != c.sent ==>
                  match r
                  case HandshakeResponse(kind, _) =>
                    && c.handshake.state.NotConnected?
                    && c'.sent == c.sent + [if kind.ConnectKind? then ConnectRequest else ReconnectRequest]
                  case PingResponse(_) => c'.sent == c.sent + [PingRequest(c.handshake.code)]
                  case UnknownOperation => false)
  {
  }
}

module WatchdogConnections {
  import opened Framing
  import opened Wrappers
  import opened ResponseHandlers
  import opened WatchdogClient
  import opened TcpConnections
  import SC = SendChannel
  import RL = ReceiveLoop

  class WatchdogConnection {
    const connection: TcpConnection
    const watchdogConnectionState: WatchdogConnectionState
    const sequenceCode: SequenceCode
    const codec: Codec
    ghost var sent: seq<Request>

    ghost function View(): Client
      reads this, connection, watchdogConnectionState, sequenceCode
    {
      Client(HandshakeOf(sequenceCode, watchdogConnectionState), connection.timerWaits, sent)
    }

    ghost predicate Valid()
      reads this, connection, connection.messagesQueue
    {
      && connection.Valid() && connection.socket != SC.Null
      && DistinctOperations(codec)
      && SC.Log(connection.Sending()) == RequestMessages(codec, sent)
    }

    /** `garbage` is what the uninitialised sequenceCode happens to hold. */
    constructor (watchdogConnectionState: WatchdogConnectionState, codec: Codec, garbage: Uint32)
      requires DistinctOperations(codec)
      ensures Valid() && fresh(connection) && fresh(connection.messagesQueue) && fresh(sequenceCode)
      ensures this.watchdogConnectionState == watchdogConnectionState
      ensures connection.socket.Closed?
      ensures View() == Client(Handshake(watchdogConnectionState.connectionState, garbage), 0, [])
    {
      this.watchdogConnectionState, this.codec, this.sent := watchdogConnectionState, codec, [];
      connection := new TcpConnection();
      sequenceCode := new SequenceCode(garbage);
    }

    /** The queue has gained exactly this request's message, at the end. */
    twostate predicate Enqueued(request: Request)
      reads this, connection.messagesQueue
    {
      var before, after := old(connection.messagesQueue.messagesQueue), connection.messagesQueue.messagesQueue;
      && |after| == |before| + 1 && after[..|before|] == before
      && var m := after[|before|];
         && m.header.operationCode == codec.requestCode(request) && m.body == codec.serialize(request)
         && m.header.size == |m.body| % UINT32_LIMIT
    }

    /** Serialise, fill in the header, enqueue. */
    method SendRequest(request: Request)
      requires Valid()
      modifies this`sent, connection`write, connection`sendingInProgress, connection.messagesQueue
      ensures Valid() && sent == old(sent) + [request] && Enqueued(request)
      ensures connection.Sending() ==
              SC.Step(old(connection.Sending()), SC.Send(RequestMessage(codec, request)))
    {
      var body := codec.serialize(request);
      var header := Header(codec.requestCode(request), |body| % UINT32_LIMIT);
      connection.SendMessage(Message(header, body));
      sent := sent + [request];
      assert RequestMessages(codec, sent) == RequestMessages(codec, old(sent)) + [RequestMessage(codec, request)];
    }

    method SendConnectRequest()
      requires Valid()
      modifies this`sent, connection`write, connection`sendingInProgress, connection.messagesQueue
      ensures Valid() && View() == Send(old(View()), ConnectRequest)
      ensures sent == old(sent) + [ConnectRequest] && Enqueued(ConnectRequest)
    {
      SendRequest(ConnectRequest);
    }

    method SendPingRequest()
      requires Valid()
      modifies this`sent, connection`write, connection`sendingInProgress, connection.messagesQueue
      ensures Valid() && View() == Send(old(View()), PingRequest(sequenceCode.value))
      ensures sent == old(sent) + [PingRequest(sequenceCode.value)] && Enqueued(PingRequest(sequenceCode.value))
    {
      SendRequest(PingRequest(sequenceCode.value));
    }

    method SendReconnectRequest()
      requires Valid()
      modifies this`sent, connection`write, connection`sendingInProgress, connection.messagesQueue
      ensures Valid() && View() == Send(old(View()), ReconnectRequest)
      ensures sent == old(sent) + [ReconnectRequest] && Enqueued(ReconnectRequest)
    {
      SendRequest(ReconnectRequest);
    }

    method SendShutdownRequest()
      requires Valid()
      modifies this`sent, connection`write, connection`sendingInProgress, connection.messagesQueue
      ensures Valid() && View() == Send(old(View()), ShutdownRequest)
      ensures sent == old(sent) + [ShutdownRequest] && Enqueued(ShutdownRequest)
    {
      SendRequest(ShutdownRequest);
    }

    /** A timer handler runs, whether its wait expired or was cancelled. */
    method TimerExpired()
      requires Valid() && connection.timerWaits > 0
      modifies this`sent, connection`timerWaits, connection`write, connection`sendingInProgress
      modifies connection.messagesQueue
      ensures Valid()
      ensures View() == Ping(old(View()).(timerWaits := old(View()).timerWaits - 1))
      ensures connection.timerWaits == old(connection.timerWaits) - 1
      ensures sent == old(sent) + [PingRequest(sequenceCode.value)] && Enqueued(PingRequest(sequenceCode.value))
    {
      connection.timerWaits := connection.timerWaits - 1;
      OnTimerExpiration();
    }

    method OnTimerExpiration()
      requires Valid()
      modifies this`sent, connection`write, connection`sendingInProgress, connection.messagesQueue
      ensures Valid() && View() == Ping(old(View()))
      ensures sent == old(sent) + [PingRequest(sequenceCode.value)] && Enqueued(PingRequest(sequenceCode.value))
    {
      SendPingRequest();
    }

    twostate predicate SameHandshake()
      reads this, sequenceCode, watchdogConnectionState
    {
      && watchdogConnectionState.connectionState == old(watchdogConnectionState.connectionState)
      && sequenceCode.value == old(sequenceCode.value)
    }

    /** A refusal that asks for the request again: while not connected, of a service
        that the watchdog has as registered or disconnected; the connect handler wants
        a code with it. */
    ghost predicate AsksAgain(parsed: Option<ResponseData>, state: ConnectionState, connect: bool) {
      && parsed.Some? && state.NotConnected? && parsed.value.responseCode == InvalidConnectionState
      && parsed.value.connectionState in {Some(RegisteredState), Some(DisconnectedState)}
      && (connect ==> parsed.value.sequenceCode.Some?)
    }

    /** What a connect or reconnect response has done: while not connected, a success
        with a code connects with that code; anything else changes nothing. */
    twostate predicate Handshaken(parsed: Option<ResponseData>, connect: bool, outcome: Outcome)
      reads this, connection, sequenceCode, watchdogConnectionState
    {
      && connection.timerWaits == old(connection.timerWaits)
      && outcome == (if parsed.None? then Threw(FailedToParse)
                     else if !AsksAgain(parsed, old(watchdogConnectionState.connectionState), connect) then Handled
                     else if connect then Threw(ResendConnectRequest) else Threw(ResendReconnectRequest))
      && if parsed.Some? && old(watchdogConnectionState.connectionState).NotConnected?
            && parsed.value.responseCode == Success && parsed.value.sequenceCode.Some?
         then
           && watchdogConnectionState.connectionState == Connected
           && sequenceCode.value == parsed.value.sequenceCode.value
         else SameHandshake()
    }

    /** The dispatcher that the receive loop calls. */
    method HandleReceivedMessage(received: Option<Message>) returns (outcome: Outcome)
      requires Valid()
      modifies connection`timerWaits, watchdogConnectionState, sequenceCode
      ensures Valid()
      ensures (View(), outcome) ==
              if received.None? then (old(View()), Handled) else Handle(old(View()), Decode(codec, received.value))
      ensures received.Some? && received.value.header.operationCode == codec.pingResponse ==>
                var parsed := codec.parsePing(received.value.body);
                && outcome == (if parsed.None? then Threw(FailedToParse)
                               else if parsed.value == sequenceCode.value then Handled else Threw(ResendPingRequest))
                && connection.timerWaits ==
                   old(connection.timerWaits) + (if parsed == Some(sequenceCode.value) then 1 else 0)
                && SameHandshake()
      ensures received.Some? && received.value.header.operationCode == codec.connectResponse ==>
                Handshaken(codec.parseConnect(received.value.body), true, outcome)
      ensures received.Some? && received.value.header.operationCode == codec.reconnectResponse ==>
                Handshaken(codec.parseReconnect(received.value.body), false, outcome)
      ensures received.None? || received.value.header.operationCode
                                !in {codec.connectResponse, codec.pingResponse, codec.reconnectResponse} ==>
                outcome == Handled && SameHandshake() && connection.timerWaits == old(connection.timerWaits)
    {
      outcome := Handled;
      if received.Some? {
        var Message(header, body) := received.value;
        if header.operationCode == codec.connectResponse {
          var handler := new WatchdogConnectResponseHandler(sequenceCode, watchdogConnectionState);
          outcome := handler.HandleResponse(codec.parseConnect(body));
        } else if header.operationCode == codec.pingResponse {
          var handler := new WatchdogPingResponseHandler(sequenceCode);
          var arm;
          outcome, arm := handler.HandleResponse(codec.parsePing(body));
          if arm {
            connection.SetTimerExpiration();
          }
        } else if header.operationCode == codec.reconnectResponse {
          var handler := new WatchdogReconnectResponseHandler(sequenceCode, watchdogConnectionState);
          outcome := handler.HandleResponse(codec.parseReconnect(body));
        }
      }
    }

    /** What the wrapper has done with a connect or reconnect response. */
    twostate predicate Answered(parsed: Option<ResponseData>, connect: bool)
      reads this, connection, sequenceCode, watchdogConnectionState
    {
      && connection.timerWaits == old(connection.timerWaits)
      && (if parsed.Some? && old(watchdogConnectionState.connectionState).NotConnected?
             && parsed.value.responseCode == Success && parsed.value.sequenceCode.Some?
          then
            && watchdogConnectionState.connectionState == Connected
            && sequenceCode.value == parsed.value.sequenceCode.value
          else SameHandshake())
      && sent == old(sent) +
                 if AsksAgain(parsed, old(watchdogConnectionState.connectionState), connect) then
                   [if connect then ConnectRequest else ReconnectRequest]
                 else []
    }

    /** The wrapper: the same dispatch with every exception caught. */
    method HandleResponse(received: Message)
      requires Valid()
      modifies this`sent, connection`timerWaits, connection`write, connection`sendingInProgress
      modifies connection.messagesQueue, watchdogConnectionState, sequenceCode
      ensures Valid() && View() == HandleWrapped(old(View()), Decode(codec, received))
      ensures received.header.operationCode == codec.pingResponse ==>
                var parsed := codec.parsePing(received.body);
                && SameHandshake()
                && connection.timerWaits ==
                   old(connection.timerWaits) + (if parsed == Some(sequenceCode.value) then 1 else 0)
                && sent == old(sent) + if parsed.Some? && parsed.value != sequenceCode.value
                                       then [PingRequest(sequenceCode.value)] else []
      ensures received.header.operationCode == codec.connectResponse ==>
                Answered(codec.parseConnect(received.body), true)
      ensures received.header.operationCode == codec.reconnectResponse ==>
                Answered(codec.parseReconnect(received.body), false)
      ensures received.header.operationCode !in {codec.connectResponse, codec.pingResponse, codec.reconnectResponse} ==>
                sent == old(sent) && SameHandshake() && connection.timerWaits == old(connection.timerWaits)
    {
      var outcome := HandleReceivedMessage(Some(received));
      if outcome.Threw? {
        ProcessCaughtResponseException(outcome.errorCode);
      }
    }

    method ProcessCaughtResponseException(errorCode: ErrorCode)
      requires Valid()
      modifies this`sent, connection`write, connection`sendingInProgress, connection.messagesQueue
      ensures Valid() && View() == Resend(old(View()), Threw(errorCode))
      ensures match errorCode
              case FailedToParse => sent == old(sent)
              case ResendConnectRequest => sent == old(sent) + [ConnectRequest] && Enqueued(ConnectRequest)
              case ResendPingRequest =>
                sent == old(sent) + [PingRequest(sequenceCode.value)] && Enqueued(PingRequest(sequenceCode.value))
              case ResendReconnectRequest => sent == old(sent) + [ReconnectRequest] && Enqueued(ReconnectRequest)
    {
      match errorCode {
        case FailedToParse =>
        case ResendConnectRequest => SendConnectRequest();
        case ResendPingRequest => SendPingRequest();
        case ResendReconnectRequest => SendReconnectRequest();
      }
    }

    /** The body handler of the receive loop. Reading is re-armed only after the
        message has been handled; if the handler throws, it is not, and the
        exception ends the thread. */
    method PostReadMessageBody(error: bool) returns (outcome: Outcome)
      requires Valid() && connection.reading.ReadingBody?
      requires !error ==> RL.Enabled(connection.Receiving(), RL.BodyRead)
      modifies connection`reading, connection`incomingMessage, connection`inbound, connection`socket
      modifies connection`delivered, connection`timerWaits, watchdogConnectionState, sequenceCode
      ensures Valid()
      ensures error ==> outcome == Handled && View() == old(View())
      ensures error ==> connection.Receiving() == RL.Step(old(connection.Receiving()), RL.Fail)
      ensures !error ==>
                var next := RL.Step(old(connection.Receiving()), RL.BodyRead);
                && (View(), outcome) == Handle(old(View()), Decode(codec, next.delivered[|next.delivered| - 1]))
                && connection.Receiving() == if outcome.Handled? then next else next.(phase := RL.NotReading)
      ensures error ==> outcome == Handled && connection.socket.Closed? && connection.reading.ReadFailed?
      ensures !error && outcome.Handled? ==>
                && connection.reading == RL.ReadingHeader
                && connection.incomingMessage == Some(Message(Header(0, 0), []))
      ensures !error && outcome.Threw? ==> connection.reading == RL.NotReading
      ensures !error ==>
                var header := old(connection.reading).header;
                connection.delivered ==
                old(connection.delivered) + [Message(header, old(connection.inbound)[..header.size])]
    {
      var localMessage := connection.TakeReceivedMessage(error);
      outcome := Handled;
      if !error {
        outcome := HandleReceivedMessage(localMessage);
        if outcome.Handled? {
          connection.StartReadingSequence();
        }
      }
    }
  }
}
