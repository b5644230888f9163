/** What the watchdog's responses do to the client: the connect, ping and
    reconnect handlers (ServiceWatchdogResponseHandlers.cpp) and the state they
    share (ServiceWatchdogConnectionState.cpp). */
module ResponseHandlers {
  import opened Framing
  import opened Wrappers

  datatype ConnectionState = NotConnected | Connected | Shutdown

  datatype ResponseCode = Success | InvalidConnectionState | NotServiceIdentifier | ServiceNotExists | Unknown

  /** The watchdog's own view of the service, as a failed response reports it. */
  datatype ReportedState = RegisteredState | ConnectedState | DisconnectedState | OtherState

  /** A parsed connect or reconnect response; both have the same fields. */
  datatype ResponseData = ResponseData(
    responseCode: ResponseCode,
    sequenceCode: Option<Uint32>,
    connectionState: Option<ReportedState>)

  datatype ErrorCode = ResendConnectRequest | ResendPingRequest | ResendReconnectRequest | FailedToParse

  /** How a handler call ends: normally, or with its exception. */
  datatype Outcome = Handled | Threw(errorCode: ErrorCode)

  /** What connect and reconnect responses act on. */
  datatype Handshake = Handshake(state: ConnectionState, code: Uint32)

  /** What other threads may turn `h` into while one thread waits: until the state
      is Connected they may store a code, and then set it; nothing after that.
      WatchdogProtocol.HandshakeEvolves is why. */
  predicate MayBecome(h: Handshake, h': Handshake) {
    h' == h || (h.state.NotConnected? && !h'.state.Shutdown?)
  }

  datatype Kind = ConnectKind | ReconnectKind

  function ResendOf(kind: Kind): ErrorCode {
    if kind.ConnectKind? then ResendConnectRequest else ResendReconnectRequest
  }

  /** A success that names a sequence code. */
  predicate Grants(data: ResponseData) {
    data.responseCode.Success? && data.sequenceCode.Some?
  }

  /** A refusal because the watchdog has the service as registered or disconnected. */
  predicate WantsRetry(data: ResponseData) {
    && data.responseCode.InvalidConnectionState?
    && (data.connectionState == Some(RegisteredState) || data.connectionState == Some(DisconnectedState))
  }

  /** The connect handler looks for a sequence code first, the reconnect handler
      only on success. */
  predicate Retries(kind: Kind, data: ResponseData) {
    WantsRetry(data) && (kind.ConnectKind? ==> data.sequenceCode.Some?)
  }

  /** The outcome of handling one connect or reconnect response. */
  function Reply(kind: Kind, h: Handshake, parsed: Option<ResponseData>): (Handshake, Outcome) {
    match parsed
    case None => (h, Threw(FailedToParse))
    case Some(data) =>
      if !h.state.NotConnected? then (h, Handled)
      else if Grants(data) then (Handshake(Connected, data.sequenceCode.value), Handled)
      else if Retries(kind, data) then (h, Threw(ResendOf(kind)))
      else (h, Handled)
  }

  /** Handling a list of responses in turn. */
  function Replies(kind: Kind, h: Handshake, parsed: seq<Option<ResponseData>>): Handshake {
    if parsed == [] then h else Reply(kind, Replies(kind, h, parsed[..|parsed| - 1]), parsed[|parsed| - 1]).0
  }

  /** Renames a reconnect handler's resend to the connect handler's. */
  function AsConnect(o: Outcome): Outcome {
    if o == Threw(ResendReconnectRequest) then Threw(ResendConnectRequest) else o
  }

  /** The two handlers always leave the same state and code, and end alike up to
      the kind of resend, except on a retryable refusal without a sequence code
      while not connected, which only the reconnect handler answers. */
  lemma HandlersDifferExactlyWithoutCode(h: Handshake, parsed: Option<ResponseData>)
    ensures Reply(ConnectKind, h, parsed).0 == Reply(ReconnectKind, h, parsed).0
    ensures Reply(ConnectKind, h, parsed).1 == AsConnect(Reply(ReconnectKind, h, parsed).1) <==>
            !(h.state.NotConnected? && parsed.Some? && WantsRetry(parsed.value) && parsed.value.sequenceCode.None?)
  {
  }

  /** Bisimilarity over whole traces: the same states and codes throughout, and
      the same resend points if every parsed response carries a code. */
  lemma {:induction false} HandlersBisimilar(h: Handshake, parsed: seq<Option<ResponseData>>, n: nat)
    requires n <= |parsed|
    ensures Replies(ConnectKind, h, parsed[..n]) == Replies(ReconnectKind, h, parsed[..n])
    ensures n < |parsed| && (parsed[n].Some? ==> parsed[n].value.sequenceCode.Some?) ==>
              var now := Replies(ConnectKind, h, parsed[..n]);
              Reply(ConnectKind, now, parsed[n]).1 == AsConnect(Reply(ReconnectKind, now, parsed[n]).1)
  {
    if n > 0 {
      HandlersBisimilar(h, parsed, n - 1);
      assert parsed[..n][..n - 1] == parsed[..n - 1];
      HandlersDifferExactlyWithoutCode(Replies(ConnectKind, h, parsed[..n - 1]), parsed[n - 1]);
    }
    if n < |parsed| {
      HandlersDifferExactlyWithoutCode(Replies(ConnectKind, h, parsed[..n]), parsed[n]);
    }
  }

  predicate IsGrant(parsed: Option<ResponseData>) {
    parsed.Some? && Grants(parsed.value)
  }

  lemma {:induction false} NoGrantChangesNothing(kind: Kind, h: Handshake, parsed: seq<Option<ResponseData>>)
    requires forall i :: 0 <= i < |parsed| ==> !IsGrant(parsed[i])
    ensures Replies(kind, h, parsed) == h
  {
    if parsed != [] {
      NoGrantChangesNothing(kind, h, parsed[..|parsed| - 1]);
    }
  }

  /** Over any list of responses the first grant decides for good. */
  lemma {:induction false} FirstGrantDecides(kind: Kind, h: Handshake, parsed: seq<Option<ResponseData>>, k: nat)
    requires h.state.NotConnected? && k < |parsed| && IsGrant(parsed[k])
    requires forall i :: 0 <= i < k ==> !IsGrant(parsed[i])
    ensures Replies(kind, h, parsed) == Handshake(Connected, parsed[k].value.sequenceCode.value)
  {
    var earlier := parsed[..|parsed| - 1];
    if k < |earlier| {
      FirstGrantDecides(kind, h, earlier, k);
    } else {
      NoGrantChangesNothing(kind, h, earlier);
    }
  }

  // ---------------------------------------------------------------------
  // The classes
  // ---------------------------------------------------------------------

  /** The connection's uint32_t that the handlers write through a reference. */
  class SequenceCode {
    var value: Uint32

    constructor (value: Uint32)
      ensures this.value == value
    {
      this.value := value;
    }
  }

  class WatchdogConnectionState {
    var connectionState: ConnectionState

    constructor ()
      ensures connectionState == NotConnected
    {
      connectionState := NotConnected;
    }

    method SetConnectionStateAndNotify(newState: ConnectionState)
      modifies this
      ensures connectionState == newState
    {
      connectionState := newState;
    }

    method GetConnectionState() returns (state: ConnectionState)
      ensures state == connectionState
    {
      state := connectionState;
    }

    /** However the wait ends, by notification, time-out or spuriously, it reports
        the state at that moment: `stored` is what other threads have made of it. */
    method TimedWaitForConnection(stored: ConnectionState) returns (state: ConnectionState)
      requires stored == connectionState || connectionState.NotConnected?
      modifies this
      ensures state == connectionState == stored
    {
      connectionState := stored;
      state := connectionState;
    }
  }

  ghost function HandshakeOf(code: SequenceCode, state: WatchdogConnectionState): Handshake
    reads code, state
  {
    Handshake(state.connectionState, code.value)
  }

  class WatchdogConnectResponseHandler {
    const sequenceCode: SequenceCode
    const watchdogConnectionState: WatchdogConnectionState
    var connectResponseData: ResponseData

    constructor (sequenceCode: SequenceCode, watchdogConnectionState: WatchdogConnectionState)
      ensures this.sequenceCode == sequenceCode && this.watchdogConnectionState == watchdogConnectionState
    {
      this.sequenceCode, this.watchdogConnectionState := sequenceCode, watchdogConnectionState;
      connectResponseData := ResponseData(Unknown, None, None);
    }

    /** `parsed` is what ParseFromString makes of the received body. */
    method HandleResponse(parsed: Option<ResponseData>) returns (outcome: Outcome)
      modifies this, sequenceCode, watchdogConnectionState
      ensures (HandshakeOf(sequenceCode, watchdogConnectionState), outcome) ==
              Reply(ConnectKind, old(HandshakeOf(sequenceCode, watchdogConnectionState)), parsed)
      ensures parsed.None? ==> outcome == Threw(FailedToParse)
      ensures var granted := parsed.Some? && old(watchdogConnectionState.connectionState).NotConnected?
                             && parsed.value.responseCode == Success && parsed.value.sequenceCode.Some?;
              if granted then
                && outcome == Handled && watchdogConnectionState.connectionState == Connected
                && sequenceCode.value == parsed.value.sequenceCode.value
              else
                && watchdogConnectionState.connectionState == old(watchdogConnectionState.connectionState)
                && sequenceCode.value == old(sequenceCode.value)
      ensures parsed.Some? ==>
                outcome ==
                if old(watchdogConnectionState.connectionState).NotConnected? && parsed.value.sequenceCode.Some?
                   && parsed.value.responseCode == InvalidConnectionState
                   && parsed.value.connectionState in {Some(RegisteredState), Some(DisconnectedState)}
                then Threw(ResendConnectRequest) else Handled
    {
      if parsed.None? {
        outcome := Threw(FailedToParse);
      } else {
        connectResponseData := parsed.value;
        outcome := Handled;
        var state := watchdogConnectionState.GetConnectionState();
        match state {
          case NotConnected => outcome := HandleConnectResponse();
          case Connected =>
          case Shutdown =>
        }
      }
    }

    method HandleConnectResponse() returns (outcome: Outcome)
      requires watchdogConnectionState.connectionState == NotConnected
      modifies sequenceCode, watchdogConnectionState
      ensures (HandshakeOf(sequenceCode, watchdogConnectionState), outcome) ==
              Reply(ConnectKind, old(HandshakeOf(sequenceCode, watchdogConnectionState)), Some(connectResponseData))
      ensures if connectResponseData.responseCode == Success && connectResponseData.sequenceCode.Some? then
                && outcome == Handled && watchdogConnectionState.connectionState == Connected
                && sequenceCode.value == connectResponseData.sequenceCode.value
              else
                && watchdogConnectionState.connectionState == NotConnected
                && sequenceCode.value == old(sequenceCode.value)
    {
      outcome := Handled;
      if !connectResponseData.sequenceCode.Some? {
      } else if connectResponseData.responseCode != Success {
        outcome := HandleReceivedConnectFailure();
      } else {
        sequenceCode.value := connectResponseData.sequenceCode.value;
        watchdogConnectionState.SetConnectionStateAndNotify(Connected);
      }
    }

    method HandleReceivedConnectFailure() returns (outcome: Outcome)
      ensures outcome == if WantsRetry(connectResponseData) then Threw(ResendConnectRequest) else Handled
      ensures outcome ==
              if connectResponseData.responseCode == InvalidConnectionState
                 && connectResponseData.connectionState in {Some(RegisteredState), Some(DisconnectedState)}
              then Threw(ResendConnectRequest) else Handled
    {
      outcome := Handled;
      match connectResponseData.responseCode {
        case InvalidConnectionState => outcome := HandleResponseInvalidConnectionState();
        case _ =>
      }
    }

    method HandleResponseInvalidConnectionState() returns (outcome: Outcome)
      requires connectResponseData.responseCode.InvalidConnectionState?
      ensures outcome == if WantsRetry(connectResponseData) then Threw(ResendConnectRequest) else Handled
      ensures outcome == if connectResponseData.connectionState in {Some(RegisteredState), Some(DisconnectedState)}
                         then Threw(ResendConnectRequest) else Handled
    {
      outcome := Handled;
      if connectResponseData.connectionState.Some? {
        match connectResponseData.connectionState.value {
          case RegisteredState => outcome := Threw(ResendConnectRequest);
          case ConnectedState =>
          case DisconnectedState => outcome := Threw(ResendConnectRequest);
          case OtherState =>
        }
      }
    }
  }

  class WatchdogReconnectResponseHandler {
    const sequenceCode: SequenceCode
    const watchdogConnectionState: WatchdogConnectionState
    var reconnectResponseData: ResponseData

    constructor (sequenceCode: SequenceCode, watchdogConnectionState: WatchdogConnectionState)
      ensures this.sequenceCode == sequenceCode && this.watchdogConnectionState == watchdogConnectionState
    {
      this.sequenceCode, this.watchdogConnectionState := sequenceCode, watchdogConnectionState;
      reconnectResponseData := ResponseData(Unknown, None, None);
    }

    method HandleResponse(parsed: Option<ResponseData>) returns (outcome: Outcome)
      modifies this, sequenceCode, watchdogConnectionState
      ensures (HandshakeOf(sequenceCode, watchdogConnectionState), outcome) ==
              Reply(ReconnectKind, old(HandshakeOf(sequenceCode, watchdogConnectionState)), parsed)
      ensures parsed.None? ==> outcome == Threw(FailedToParse)
      ensures var granted := parsed.Some? && old(watchdogConnectionState.connectionState).NotConnected?
                             && parsed.value.responseCode == Success && parsed.value.sequenceCode.Some?;
              if granted then
                && outcome == Handled && watchdogConnectionState.connectionState == Connected
                && sequenceCode.value == parsed.value.sequenceCode.value
              else
                && watchdogConnectionState.connectionState == old(watchdogConnectionState.connectionState)
                && sequenceCode.value == old(sequenceCode.value)
      ensures parsed.Some? ==>
                outcome ==
                if old(watchdogConnectionState.connectionState).NotConnected?
                   && parsed.value.responseCode == InvalidConnectionState
                   && parsed.value.connectionState in {Some(RegisteredState), Some(DisconnectedState)}
                then Threw(ResendReconnectRequest) else Handled
    {
      if parsed.None? {
        outcome := Threw(FailedToParse);
      } else {
        reconnectResponseData := parsed.value;
        outcome := Handled;
        var state := watchdogConnectionState.GetConnectionState();
        match state {
          case NotConnected => outcome := HandleReconnectResponse();
          case Connected =>
          case Shutdown =>
        }
      }
    }

    method HandleReconnectResponse() returns (outcome: Outcome)
      requires watchdogConnectionState.connectionState == NotConnected
      modifies sequenceCode, watchdogConnectionState
      ensures (HandshakeOf(sequenceCode, watchdogConnectionState), outcome) ==
              Reply(ReconnectKind, old(HandshakeOf(sequenceCode, watchdogConnectionState)), Some(reconnectResponseData))
      ensures if reconnectResponseData.responseCode == Success && reconnectResponseData.sequenceCode.Some? then
                && outcome == Handled && watchdogConnectionState.connectionState == Connected
                && sequenceCode.value == reconnectResponseData.sequenceCode.value
              else
                && watchdogConnectionState.connectionState == NotConnected
                && sequenceCode.value == old(sequenceCode.value)
    {
      outcome := Handled;
      if reconnectResponseData.responseCode != Success {
        outcome := HandleReceivedReconnectFailure();
      } else if !reconnectResponseData.sequenceCode.Some? {
      } else {
        sequenceCode.value := reconnectResponseData.sequenceCode.value;
        watchdogConnectionState.SetConnectionStateAndNotify(Connected);
      }
    }

    method HandleReceivedReconnectFailure() returns (outcome: Outcome)
      ensures outcome == if WantsRetry(reconnectResponseData) then Threw(ResendReconnectRequest) else Handled
      ensures outcome ==
              if reconnectResponseData.responseCode == InvalidConnectionState
                 && reconnectResponseData.connectionState in {Some(RegisteredState), Some(DisconnectedState)}
              then Threw(ResendReconnectRequest) else Handled
    {
      outcome := Handled;
      match reconnectResponseData.responseCode {
        case InvalidConnectionState => outcome := HandleResponseInvalidReconnectionState();
        case _ =>
      }
    }

    method HandleResponseInvalidReconnectionState() returns (outcome: Outcome)
      requires reconnectResponseData.responseCode.InvalidConnectionState?
      ensures outcome == if WantsRetry(reconnectResponseData) then Threw(ResendReconnectRequest) else Handled
      ensures outcome == if reconnectResponseData.connectionState in {Some(RegisteredState), Some(DisconnectedState)}
                         then Threw(ResendReconnectRequest) else Handled
    {
      outcome := Handled;
      if reconnectResponseData.connectionState.Some? {
        match reconnectResponseData.connectionState.value {
          case RegisteredState => outcome := Threw(ResendReconnectRequest);
          case ConnectedState =>
          case DisconnectedState => outcome := Threw(ResendReconnectRequest);
          case OtherState =>
        }
      }
    }
  }

  /** The ping handler, with its timer callback split off: `arm` says whether the
      callback is made. */
  class WatchdogPingResponseHandler {
    const sequenceCode: SequenceCode

    constructor (sequenceCode: SequenceCode)
      ensures this.sequenceCode == sequenceCode
    {
      this.sequenceCode := sequenceCode;
    }

    /** `parsed` is the sequence code of the parsed ping response. */
    method HandleResponse(parsed: Option<Uint32>) returns (outcome: Outcome, arm: bool)
      ensures arm <==> parsed == Some(sequenceCode.value)
      ensures outcome == if parsed.None? then Threw(FailedToParse)
                         else if arm then Handled else Threw(ResendPingRequest)
    {
      arm := false;
      if parsed.None? {
        outcome := Threw(FailedToParse);
      } else if sequenceCode.value == parsed.value {
        arm := true;
        outcome := Handled;
      } else {
        outcome := Threw(ResendPingRequest);
      }
    }
  }
}
