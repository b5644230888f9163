/** Client and watchdog together: the main thread, the receive loop, the timer
    handlers and whatever the watchdog sends, in any interleaving
    (ServiceBase.cpp:41-60, ServiceWatchdogConnection.cpp:10-104,
    ServiceWatchdogResponseHandlers.cpp, Connection.hpp:63-77, 151, 227-230).
    A grant is handled in three atomic pieces, because the handler stores the
    sequence code and then sets the state while other threads run. */
module WatchdogProtocol {
  import opened Framing
  import opened Wrappers
  import opened ResponseHandlers
  import opened WatchdogClient

  /** Who catches a handler's exception: nobody, so that it ends the process, or
      the wrapper. */
  datatype Dispatcher = Direct | Wrapped

  datatype MainPc = NotStarted | Waiting | Armed | GaveUp

  datatype ReaderPc = Idle | StoringCode(code: Uint32) | SettingState(code: Uint32)

  datatype System = System(
    client: Client,
    main: MainPc,
    reader: ReaderPc,
    unanswered: seq<Request>,
    inbox: seq<Response>,
    accepted: seq<Uint32>,
    halted: bool)

  datatype Event =
    | StartUp(connected: bool)
    | WaitReturns
    | TimerRuns
    | Answer(request: nat, answer: Response)
    | Unsolicited(response: Response)
    | HandleNext
    | ReaderContinues

  function Initial(garbage: Uint32): System {
    System(Client(Handshake(NotConnected, garbage), 0, []), NotStarted, Idle, [], [], [], false)
  }

  predicate Enabled(s: System, e: Event) {
    && !s.halted
    && match e
       case StartUp(_) => s.main.NotStarted?
       case WaitReturns => s.main.Waiting?
       case TimerRuns => s.client.timerWaits > 0
       case Answer(i, _) => i < |s.unanswered|
       case Unsolicited(_) => true
       case HandleNext => !s.main.NotStarted? && s.reader.Idle? && s.inbox != []
       case ReaderContinues => !s.reader.Idle?
  }

  predicate IsGranted(c: Client, r: Response) {
    r.HandshakeResponse? && c.handshake.state.NotConnected? && IsGrant(r.parsed)
  }

  /** The requests that `c'` has sent and `c` had not. */
  function NewRequests(c: Client, c': Client): seq<Request>
    requires c.sent <= c'.sent
  {
    c'.sent[|c.sent|..]
  }

  function Act(s: System, c': Client): System
    requires s.client.sent <= c'.sent
  {
    s.(client := c', unanswered := s.unanswered + NewRequests(s.client, c'))
  }

  function Step(d: Dispatcher, s: System, e: Event): System
    requires Enabled(s, e)
  {
    match e
    case StartUp(connected) =>
      if connected then Act(s, Send(s.client, ConnectRequest)).(main := Waiting) else s.(main := GaveUp)
    case WaitReturns =>
      if s.client.handshake.state.Connected? then
        s.(client := s.client.(timerWaits := s.client.timerWaits + 1), main := Armed)
      else s.(main := GaveUp)
    case TimerRuns => Act(s, Ping(s.client.(timerWaits := s.client.timerWaits - 1)))
    case Answer(i, r) => s.(unanswered := s.unanswered[..i] + s.unanswered[i + 1..], inbox := s.inbox + [r])
    case Unsolicited(r) => s.(inbox := s.inbox + [r])
    case HandleNext =>
      var r, rest := s.inbox[0], s.(inbox := s.inbox[1..]);
      if IsGranted(s.client, r) then rest.(reader := StoringCode(r.parsed.value.sequenceCode.value))
      else if d.Wrapped? then Act(rest, HandleWrapped(s.client, r))
      else
        var (c', outcome) := Handle(s.client, r);
        Act(rest, c').(halted := outcome.Threw?)
    case ReaderContinues =>
      match s.reader
      case StoringCode(code) =>
        var h := s.client.handshake;
        s.(client := s.client.(handshake := h.(code := code)), reader := SettingState(code))
      case SettingState(code) =>
        var h := s.client.handshake;
        s.(client := s.client.(handshake := h.(state := Connected)), reader := Idle, accepted := s.accepted + [code])
      case Idle => s
  }

  ghost predicate Behavior(d: Dispatcher, states: seq<System>, events: seq<Event>) {
    && |states| == |events| + 1
    && (exists garbage :: states[0] == Initial(garbage))
    && forall i :: 0 <= i < |events| ==> Enabled(states[i], events[i]) && states[i + 1] == Step(d, states[i], events[i])
  }

  /** How many responses answered no request. */
  function CountUnsolicited(events: seq<Event>): nat {
    if events == [] then 0
    else CountUnsolicited(events[..|events| - 1]) + if events[|events| - 1].Unsolicited? then 1 else 0
  }

  /** Some run ends in `s`, with that many responses that answered no request. */
  ghost predicate Reaches(d: Dispatcher, garbage: Uint32, s: System, unsolicited: nat) {
    exists states, events ::
      && Behavior(d, states, events) && states[0] == Initial(garbage) && states[|events|] == s
      && CountUnsolicited(events) == unsolicited
  }

  lemma Longer(d: Dispatcher, states: seq<System>, events: seq<Event>, e: Event)
    requires Behavior(d, states, events) && Enabled(states[|events|], e)
    ensures Behavior(d, states + [Step(d, states[|events|], e)], events + [e])
    ensures CountUnsolicited(events + [e]) == CountUnsolicited(events) + if e.Unsolicited? then 1 else 0
  {
    assert (events + [e])[..|events|] == events;
  }

  lemma Next(d: Dispatcher, garbage: Uint32, s: System, unsolicited: nat, e: Event) returns (s': System)
    requires Reaches(d, garbage, s, unsolicited) && Enabled(s, e)
    ensures s' == Step(d, s, e) && Reaches(d, garbage, s', unsolicited + if e.Unsolicited? then 1 else 0)
  {
    s' := Step(d, s, e);
    var states, events :|
      && Behavior(d, states, events) && states[0] == Initial(garbage) && states[|events|] == s
      && CountUnsolicited(events) == unsolicited;
    Longer(d, states, events, e);
    assert (states + [s'])[|events + [e]|] == s';
  }

  /** The main thread has connected and sent its request. */
  lemma Start(d: Dispatcher, garbage: Uint32) returns (s: System)
    ensures Reaches(d, garbage, s, 0)
    ensures s == System(Client(Handshake(NotConnected, garbage), 0, [ConnectRequest]), Waiting, Idle,
                        [ConnectRequest], [], [], false)
  {
    assert Behavior(d, [Initial(garbage)], []);
    s := Next(d, garbage, Initial(garbage), 0, StartUp(true));
  }

  /** The three pieces of a grant, run without a break, are what the handler does. */
  lemma GrantInPieces(d: Dispatcher, s: System)
    requires Enabled(s, HandleNext) && IsGranted(s.client, s.inbox[0])
    ensures var s' := Step(d, Step(d, Step(d, s, HandleNext), ReaderContinues), ReaderContinues);
            && (s'.client, Handled) == Handle(s.client, s.inbox[0])
            && s'.client == HandleWrapped(s.client, s.inbox[0])
            && s' == s.(client := s'.client, inbox := s.inbox[1..],
                        accepted := s.accepted + [s.inbox[0].parsed.value.sequenceCode.value])
  {
  }

  // ---------------------------------------------------------------------
  // Connection state and sequence code agree (any watchdog)
  // ---------------------------------------------------------------------

  predicate Agreement(s: System) {
    && |s.accepted| <= 1
    && (s.client.handshake.state.NotConnected? <==> s.accepted == [])
    && (s.client.handshake.state.Connected? <==> s.accepted != [])
    && (s.accepted != [] ==> s.client.handshake.code == s.accepted[0] && s.reader.Idle?)
    && (s.reader.SettingState? ==> s.client.handshake.code == s.reader.code)
  }

  lemma StepKeepsAgreement(d: Dispatcher, s: System, e: Event)
    requires Agreement(s) && Enabled(s, e)
    ensures Agreement(Step(d, s, e)) && s.accepted <= Step(d, s, e).accepted
    ensures s.accepted != [] ==> Step(d, s, e).client.handshake == s.client.handshake
  {
  }

  lemma {:induction false} ReachableAgrees(d: Dispatcher, states: seq<System>, events: seq<Event>, n: nat)
    requires Behavior(d, states, events) && n <= |events|
    ensures Agreement(states[n])
  {
    if n > 0 {
      ReachableAgrees(d, states, events, n - 1);
      StepKeepsAgreement(d, states[n - 1], events[n - 1]);
    }
  }

  /** Whatever the watchdog sends, under either dispatcher and at every point where
      another thread may look: at most one response is ever accepted; a thread
      that sees Connected finds its code already stored; and from then on neither
      the state nor the code changes. */
  lemma {:induction false} StateAndCodeAgree(d: Dispatcher, states: seq<System>, events: seq<Event>, i: nat, j: nat)
    requires Behavior(d, states, events) && i <= j <= |events|
    ensures Agreement(states[j])
    ensures states[i].client.handshake.state.Connected? ==>
              && states[i].accepted == [states[i].client.handshake.code] == states[j].accepted
              && states[j].client.handshake == states[i].client.handshake
  {
    ReachableAgrees(d, states, events, j);
    ReachableAgrees(d, states, events, i);
    if i < j {
      StateAndCodeAgree(d, states, events, i, j - 1);
      StepKeepsAgreement(d, states[j - 1], events[j - 1]);
    }
  }

  /** So while one thread waits, the others may only do this to the handshake. */
  lemma HandshakeEvolves(d: Dispatcher, states: seq<System>, events: seq<Event>, i: nat, j: nat)
    requires Behavior(d, states, events) && i <= j <= |events|
    ensures MayBecome(states[i].client.handshake, states[j].client.handshake)
  {
    ReachableAgrees(d, states, events, i);
    StateAndCodeAgree(d, states, events, i, j);
  }

  // ---------------------------------------------------------------------
  // Every ping carries the negotiated code
  // ---------------------------------------------------------------------

  predicate HasPing(sent: seq<Request>) {
    exists r <- sent :: r.PingRequest?
  }

  predicate PingsCarryCode(s: System) {
    && (forall r <- s.client.sent :: r.PingRequest? ==> s.accepted != [] && r.code == s.accepted[0])
    && (s.client.timerWaits > 0 ==> s.accepted != [])
  }

  /** Before anything has been accepted, a ping response is handled that parses
      and, unless the wrapper answers mismatches, equals the code in memory. */
  predicate Premature(d: Dispatcher, s: System, e: Event)
    requires Enabled(s, e)
  {
    && e.HandleNext? && s.accepted == [] && s.inbox[0].PingResponse? && s.inbox[0].pingParsed.Some?
    && (d.Wrapped? || s.inbox[0].pingParsed.value == s.client.handshake.code)
  }

  ghost predicate PrematureBefore(d: Dispatcher, states: seq<System>, events: seq<Event>, n: nat)
    requires Behavior(d, states, events) && n <= |events|
  {
    exists i :: 0 <= i < n && Premature(d, states[i], events[i])
  }

  predicate PingsCarryCodeUpTo(states: seq<System>, n: nat)
    requires n < |states|
  {
    forall j :: 0 <= j <= n ==> PingsCarryCode(states[j])
  }

  lemma UpToStep(states: seq<System>, n: nat)
    requires 0 < n < |states|
    ensures PingsCarryCodeUpTo(states, n) <==> PingsCarryCodeUpTo(states, n - 1) && PingsCarryCode(states[n])
  {
  }

  lemma PrematureBeforeStep(d: Dispatcher, states: seq<System>, events: seq<Event>, n: nat)
    requires Behavior(d, states, events) && 0 < n <= |events|
    ensures PrematureBefore(d, states, events, n) <==>
            PrematureBefore(d, states, events, n - 1) || Premature(d, states[n - 1], events[n - 1])
  {
  }

  /** Handling the next response while nothing has been accepted. */
  lemma PrematureStep(d: Dispatcher, s: System)
    requires Agreement(s) && Enabled(s, HandleNext) && s.accepted == []
    ensures PingsCarryCode(Step(d, s, HandleNext)) <==> PingsCarryCode(s) && !Premature(d, s, HandleNext)
  {
    var c, c' := s.client, Step(d, s, HandleNext).client;
    WrappedEffects(c, s.inbox[0]);
    if c'.sent != c.sent {
      assert c'.sent[..|c.sent|] == c.sent;
      assert c'.sent[|c.sent|] in c'.sent;
    }
  }

  lemma StepKeepsPings(d: Dispatcher, s: System, e: Event)
    requires Agreement(s) && PingsCarryCode(s) && Enabled(s, e)
    ensures PingsCarryCode(Step(d, s, e)) <==> !Premature(d, s, e)
  {
    StepKeepsAgreement(d, s, e);
    if e.HandleNext? {
      if s.accepted == [] {
        PrematureStep(d, s);
      } else {
        WrappedEffects(s.client, s.inbox[0]);
      }
    }
  }

  lemma PingsStep(d: Dispatcher, s: System, e: Event, upTo: bool)
    requires Agreement(s) && Enabled(s, e) && (upTo ==> PingsCarryCode(s))
    ensures upTo && PingsCarryCode(Step(d, s, e)) <==> upTo && !Premature(d, s, e)
  {
    if upTo {
      StepKeepsPings(d, s, e);
    }
  }

  /** In every run, under either dispatcher: every ping sent carries the accepted
      code, and none is sent or scheduled before acceptance, in every state up to
      `n`, if and only if no ping response was handled prematurely. */
  lemma {:induction false} EveryPingCarriesCode(d: Dispatcher, states: seq<System>, events: seq<Event>, n: nat)
    requires Behavior(d, states, events) && n <= |events|
    ensures PingsCarryCodeUpTo(states, n) <==> !PrematureBefore(d, states, events, n)
  {
    if n > 0 {
      EveryPingCarriesCode(d, states, events, n - 1);
      ReachableAgrees(d, states, events, n - 1);
      PrematureBeforeStep(d, states, events, n);
      UpToStep(states, n);
      PingsStep(d, states[n - 1], events[n - 1], PingsCarryCodeUpTo(states, n - 1));
    }
  }

  /** The watchdog sends ping responses only once it has been pinged. */
  predicate PingsFirst(s: System, e: Event) {
    match e
    case Answer(_, r) => r.PingResponse? ==> HasPing(s.client.sent)
    case Unsolicited(r) => r.PingResponse? ==> HasPing(s.client.sent)
    case _ => true
  }

  predicate NoEarlyPingResponse(s: System) {
    s.accepted == [] ==> forall i :: 0 <= i < |s.inbox| ==> !s.inbox[i].PingResponse?
  }

  lemma StepKeepsResponsesLate(d: Dispatcher, s: System, e: Event)
    requires Agreement(s) && PingsCarryCode(s) && NoEarlyPingResponse(s) && Enabled(s, e) && PingsFirst(s, e)
    ensures !Premature(d, s, e)
    ensures var s' := Step(d, s, e); Agreement(s') && PingsCarryCode(s') && NoEarlyPingResponse(s')
  {
    StepKeepsAgreement(d, s, e);
    StepKeepsPings(d, s, e);
  }

  /** A watchdog that is pinged first never causes a premature one. */
  lemma {:induction false} PingsFirstSuffices(d: Dispatcher, states: seq<System>, events: seq<Event>, n: nat)
    requires Behavior(d, states, events) && n <= |events|
    requires forall i :: 0 <= i < n ==> PingsFirst(states[i], events[i])
    ensures Agreement(states[n]) && PingsCarryCode(states[n]) && NoEarlyPingResponse(states[n])
    ensures !PrematureBefore(d, states, events, n)
  {
    if n > 0 {
      PingsFirstSuffices(d, states, events, n - 1);
      StepKeepsResponsesLate(d, states[n - 1], events[n - 1]);
      PrematureBeforeStep(d, states, events, n);
    }
  }

  /** The premature ones exist, in a run that ends with a ping carrying the
      uninitialised code: under the wrapper, for every response that parses. */
  lemma UnsolicitedPingResponse(d: Dispatcher, garbage: Uint32, x: Uint32) returns (s: System)
    requires d.Wrapped? || x == garbage
    ensures Reaches(d, garbage, s, 1)
    ensures s.accepted == [] && s.client.sent == [ConnectRequest, PingRequest(garbage)]
  {
    s := Start(d, garbage);
    s := Next(d, garbage, s, 0, Unsolicited(PingResponse(Some(x))));
    s := Next(d, garbage, s, 1, HandleNext);
    if x == garbage {
      s := Next(d, garbage, s, 1, TimerRuns);
    }
  }

  // ---------------------------------------------------------------------
  // Conservation of tokens
  // ---------------------------------------------------------------------

  /** Everything that can still set off a message. */
  function Tokens(s: System): nat {
    s.client.timerWaits + |s.unanswered| + |s.inbox| + if s.reader.Idle? then 0 else 1
  }

  /** What the main thread may still add. */
  function Owed(s: System): nat {
    if s.main.NotStarted? || (s.main.Waiting? && s.client.handshake.state.Connected?) then 1 else 0
  }

  predicate Quiet(s: System) {
    s.main.NotStarted? ==> s.reader.Idle? && s.client.handshake.state.NotConnected?
  }

  lemma HandlingConserves(d: Dispatcher, s: System)
    requires Agreement(s) && Enabled(s, HandleNext)
    ensures var s' := Step(d, s, HandleNext); Tokens(s') + Owed(s') <= Tokens(s) + Owed(s)
  {
    WrappedEffects(s.client, s.inbox[0]);
  }

  lemma StepConserves(d: Dispatcher, s: System, e: Event)
    requires Agreement(s) && Quiet(s) && Enabled(s, e)
    ensures var s' := Step(d, s, e);
            Quiet(s') && Tokens(s') + Owed(s') <= Tokens(s) + Owed(s) + if e.Unsolicited? then 1 else 0
  {
    if e.HandleNext? {
      HandlingConserves(d, s);
    }
  }

  /** Conservation, in every run, whatever the watchdog answers: timer waits,
      unanswered requests and unhandled responses of every kind together are at
      most one more than the responses that answered no request. */
  lemma {:induction false} Conservation(d: Dispatcher, states: seq<System>, events: seq<Event>, n: nat)
    requires Behavior(d, states, events) && n <= |events|
    ensures Quiet(states[n]) && Tokens(states[n]) + Owed(states[n]) <= 1 + CountUnsolicited(events[..n])
  {
    if n > 0 {
      Conservation(d, states, events, n - 1);
      ReachableAgrees(d, states, events, n - 1);
      StepConserves(d, states[n - 1], events[n - 1]);
      assert events[..n][..n - 1] == events[..n - 1];
    }
  }

  lemma {:induction false} NoneUnsolicited(events: seq<Event>)
    requires forall i :: 0 <= i < |events| ==> !events[i].Unsolicited?
    ensures CountUnsolicited(events) == 0
  {
    if events != [] {
      NoneUnsolicited(events[..|events| - 1]);
    }
  }

  lemma SendsAreUnanswered(d: Dispatcher, s: System, e: Event)
    requires Enabled(s, e) && !e.Answer?
    ensures var s' := Step(d, s, e);
            s.client.sent <= s'.client.sent && s'.unanswered == s.unanswered + s'.client.sent[|s.client.sent|..]
  {
    if e.HandleNext? {
      WrappedEffects(s.client, s.inbox[0]);
    }
  }

  /** If each response answers a request, and each request is answered at most
      once, the heartbeat (waits, pings, ping responses) and the handshake (connect
      and reconnect requests and responses) share a single token: arming the timer
      never cancels a live wait, and a request is sent only when none is
      unanswered. */
  lemma OneConversation(d: Dispatcher, states: seq<System>, events: seq<Event>, n: nat)
    requires Behavior(d, states, events) && n <= |events|
    requires forall i :: 0 <= i < |events| ==> !events[i].Unsolicited?
    ensures Tokens(states[n]) <= 1
    ensures n < |events| && states[n + 1].client.timerWaits > states[n].client.timerWaits ==>
              states[n].client.timerWaits == 0 && states[n + 1].client.timerWaits == 1
    ensures n < |events| && states[n + 1].client.sent != states[n].client.sent ==>
              states[n].unanswered == [] && |states[n + 1].unanswered| == 1
  {
    Conservation(d, states, events, n);
    NoneUnsolicited(events[..n]);
    if n < |events| {
      Conservation(d, states, events, n + 1);
      NoneUnsolicited(events[..n + 1]);
      if !events[n].Answer? {
        SendsAreUnanswered(d, states[n], events[n]);
      }
    }
  }

  const GRANT: Response := HandshakeResponse(ConnectKind, Some(ResponseData(Success, Some(0), None)))

  /** The connect response has been accepted. */
  lemma Accepted(d: Dispatcher, garbage: Uint32) returns (s: System)
    ensures Reaches(d, garbage, s, 0)
    ensures s == System(Client(Handshake(Connected, 0), 0, [ConnectRequest]), Waiting, Idle, [], [], [0], false)
  {
    s := Start(d, garbage);
    s := Next(d, garbage, s, 0, Answer(0, GRANT));
    assert s.unanswered == [] && s.inbox == [GRANT];
    s := Next(d, garbage, s, 0, HandleNext);
    s := Next(d, garbage, s, 0, ReaderContinues);
    s := Next(d, garbage, s, 0, ReaderContinues);
  }

  /** One ping has been sent and answered, and its answer has armed the timer. */
  function Beating(waits: nat): System {
    System(Client(Handshake(Connected, 0), waits, [ConnectRequest, PingRequest(0)]), Armed, Idle, [], [], [0], false)
  }

  lemma FirstPing(d: Dispatcher, garbage: Uint32) returns (s: System)
    ensures Reaches(d, garbage, s, 0)
    ensures s == Beating(0).(unanswered := [PingRequest(0)])
  {
    s := Accepted(d, garbage);
    s := Next(d, garbage, s, 0, WaitReturns);
    s := Next(d, garbage, s, 0, TimerRuns);
  }

  lemma FirstPong(d: Dispatcher, garbage: Uint32)
    ensures Reaches(d, garbage, Beating(1), 0)
  {
    var s := FirstPing(d, garbage);
    s := Next(d, garbage, s, 0, Answer(0, PingResponse(Some(0))));
    assert s.unanswered == [] && s.inbox == [PingResponse(Some(0))];
    s := Next(d, garbage, s, 0, HandleNext);
  }

  /** The bound is reached: each further response to one ping arms one more wait,
      so arming does cancel live ones, whose handlers still run. */
  lemma {:induction false} EachExtraResponseAddsAWait(d: Dispatcher, garbage: Uint32, k: nat)
    ensures Reaches(d, garbage, Beating(1 + k), k)
  {
    if k == 0 {
      FirstPong(d, garbage);
    } else {
      EachExtraResponseAddsAWait(d, garbage, k - 1);
      var s := Next(d, garbage, Beating(k), k - 1, Unsolicited(PingResponse(Some(0))));
      s := Next(d, garbage, s, k, HandleNext);
    }
  }

  // ---------------------------------------------------------------------
  // The two dispatchers
  // ---------------------------------------------------------------------

  /** The responses whose handler throws. */
  predicate Throws(c: Client, r: Response) {
    match r
    case HandshakeResponse(kind, None) => true
    case HandshakeResponse(kind, Some(data)) =>
      c.handshake.state.NotConnected? && !Grants(data) && Retries(kind, data)
    case PingResponse(parsed) => parsed != Some(c.handshake.code)
    case UnknownOperation => false
  }

  predicate ThrowsAt(s: System, e: Event)
    requires Enabled(s, e)
  {
    e.HandleNext? && Throws(s.client, s.inbox[0])
  }

  ghost predicate ThrewBefore(d: Dispatcher, states: seq<System>, events: seq<Event>, n: nat)
    requires Behavior(d, states, events) && n <= |events|
  {
    exists i :: 0 <= i < n && ThrowsAt(states[i], events[i])
  }

  /** Nothing escapes the wrapper; under the direct dispatcher the process ends
      exactly at the first response whose handler throws. */
  lemma {:induction false} HaltsExactlyOnThrow(d: Dispatcher, states: seq<System>, events: seq<Event>, n: nat)
    requires Behavior(d, states, events) && n <= |events|
    ensures states[n].halted <==> d.Direct? && ThrewBefore(d, states, events, n)
  {
    if n > 0 {
      HaltsExactlyOnThrow(d, states, events, n - 1);
      assert Enabled(states[n - 1], events[n - 1]);
    }
  }

  /** One step of the two dispatchers. */
  lemma DispatchersAgree(s: System, e: Event)
    requires Enabled(s, e)
    ensures Step(Direct, s, e) == Step(Wrapped, s, e) <==> !ThrowsAt(s, e)
    ensures !Step(Wrapped, s, e).halted && (Step(Direct, s, e).halted <==> ThrowsAt(s, e))
  {
  }

  /** The dispatcher in use survives exactly the runs of the wrapper in which no
      handler throws: what the wrapper is for never happens in them. */
  lemma DirectRunsAreThrowFree(states: seq<System>, events: seq<Event>)
    ensures Behavior(Direct, states, events) && !states[|events|].halted <==>
            Behavior(Wrapped, states, events) && !ThrewBefore(Wrapped, states, events, |events|)
  {
    if Behavior(Direct, states, events) && !states[|events|].halted {
      HaltsExactlyOnThrow(Direct, states, events, |events|);
      forall i | 0 <= i < |events|
        ensures states[i + 1] == Step(Wrapped, states[i], events[i]) && !ThrowsAt(states[i], events[i])
      {
        DispatchersAgree(states[i], events[i]);
      }
    }
    if Behavior(Wrapped, states, events) && !ThrewBefore(Wrapped, states, events, |events|) {
      HaltsExactlyOnThrow(Wrapped, states, events, |events|);
      forall i | 0 <= i < |events| ensures states[i + 1] == Step(Direct, states[i], events[i]) {
        DispatchersAgree(states[i], events[i]);
      }
    }
  }

  /** What the wrapper does instead, on each response that the direct dispatcher would
      not survive: it sends the request of that kind again, which is then unanswered,
      or nothing if the response did not parse. */
  lemma WrapperResends(s: System)
    requires Enabled(s, HandleNext) && Throws(s.client, s.inbox[0])
    ensures var again := match s.inbox[0]
                         case HandshakeResponse(_, None) => []
                         case HandshakeResponse(ConnectKind, Some(_)) => [ConnectRequest]
                         case HandshakeResponse(ReconnectKind, Some(_)) => [ReconnectRequest]
                         case PingResponse(None) => []
                         case PingResponse(Some(_)) => [PingRequest(s.client.handshake.code)]
                         case UnknownOperation => [];
            Step(Wrapped, s, HandleNext) ==
            s.(inbox := s.inbox[1..], unanswered := s.unanswered + again,
               client := s.client.(sent := s.client.sent + again))
  {
    var c, s' := s.client, Step(Wrapped, s, HandleNext);
    assert c.sent + [] == c.sent && s.unanswered + [] == s.unanswered;
    assert s'.unanswered == s.unanswered + s'.client.sent[|c.sent|..];
  }

  // -- responses in order ------------------------------------------------------

  function Arrivals(events: seq<Event>): seq<Response> {
    if events == [] then []
    else
      var n := |events| - 1;
      Arrivals(events[..n]) + match events[n]
                              case Answer(_, r) => [r]
                              case Unsolicited(r) => [r]
                              case _ => []
  }

  function HandledBefore(d: Dispatcher, states: seq<System>, events: seq<Event>, n: nat): seq<Response>
    requires n <= |events| && |states| == |events| + 1
    requires forall i :: 0 <= i < |events| ==> Enabled(states[i], events[i])
  {
    if n == 0 then []
    else HandledBefore(d, states, events, n - 1) + if events[n - 1].HandleNext? then [states[n - 1].inbox[0]] else []
  }

  lemma InboxStep(d: Dispatcher, s: System, e: Event)
    requires Enabled(s, e)
    ensures (if e.HandleNext? then [s.inbox[0]] else []) + Step(d, s, e).inbox == s.inbox + Arrivals([e])
  {
    assert [e][..0] == [];
    if e.HandleNext? {
      assert s.inbox == [s.inbox[0]] + s.inbox[1..];
      WrappedEffects(s.client, s.inbox[0]);
    }
  }

  lemma ArrivalsAppend(events: seq<Event>, e: Event)
    ensures Arrivals(events + [e]) == Arrivals(events) + Arrivals([e])
  {
    assert (events + [e])[..|events|] == events && [e][..0] == [];
  }

  lemma QueueMoves<T>(handled: seq<T>, head: seq<T>, rest: seq<T>, queue: seq<T>, arrived: seq<T>, later: seq<T>)
    requires handled + queue == arrived && head + rest == queue + later
    ensures (handled + head) + rest == arrived + later
  {
    assert (handled + head) + rest == handled + (head + rest);
    assert handled + (queue + later) == (handled + queue) + later;
  }

  /** Every response is handled once, in the order in which they arrived. */
  lemma {:induction false} ResponsesInOrder(d: Dispatcher, states: seq<System>, events: seq<Event>, n: nat)
    requires Behavior(d, states, events) && n <= |events|
    ensures HandledBefore(d, states, events, n) + states[n].inbox == Arrivals(events[..n])
  {
    if n > 0 {
      var s, e := states[n - 1], events[n - 1];
      ResponsesInOrder(d, states, events, n - 1);
      InboxStep(d, s, e);
      QueueMoves(HandledBefore(d, states, events, n - 1), if e.HandleNext? then [s.inbox[0]] else [],
                 states[n].inbox, s.inbox, Arrivals(events[..n - 1]), Arrivals([e]));
      ArrivalsAppend(events[..n - 1], e);
      assert events[..n] == events[..n - 1] + [e];
    }
  }

  // -- which answers make a handler throw ------------------------------------

  /** Ping responses answer pings, and handshake responses handshake requests. */
  predicate Matches(q: Request, r: Response) {
    match r
    case HandshakeResponse(_, _) => !q.PingRequest?
    case PingResponse(_) => q.PingRequest?
    case UnknownOperation => true
  }

  /** Each response answers one request, with a response of its kind. */
  predicate Disciplined(s: System, e: Event) {
    && !e.Unsolicited?
    && (e.Answer? && e.request < |s.unanswered| ==> Matches(s.unanswered[e.request], e.answer))
  }

  /** A ping that is not answered with its own code, a handshake request that is
      answered by a retryable refusal, or a handshake response that does not parse. */
  predicate Discourteous(q: Request, r: Response) {
    match r
    case HandshakeResponse(_, None) => true
    case HandshakeResponse(kind, Some(data)) => Retries(kind, data)
    case PingResponse(parsed) => !(q.PingRequest? && parsed == Some(q.code))
    case UnknownOperation => false
  }

  predicate DiscourteousAt(s: System, e: Event)
    requires Enabled(s, e)
  {
    e.Answer? && Discourteous(s.unanswered[e.request], e.answer)
  }

  predicate IsPending(c: Client, q: Request) {
    if q.PingRequest? then c.handshake == Handshake(Connected, q.code) else c.handshake.state.NotConnected?
  }

  /** Who is in the conversation knows where the handshake stands. */
  predicate InStep(s: System) {
    && Quiet(s) && Tokens(s) + Owed(s) <= 1
    && (s.client.timerWaits > 0 ==> s.client.handshake.state.Connected?)
    && (forall i :: 0 <= i < |s.unanswered| ==> IsPending(s.client, s.unanswered[i]))
    && (s.inbox != [] ==>
          match s.inbox[0]
          case HandshakeResponse(_, _) => s.client.handshake.state.NotConnected?
          case PingResponse(_) => s.client.handshake.state.Connected?
          case UnknownOperation => true)
  }

  predicate WillThrow(s: System) {
    s.inbox != [] && Throws(s.client, s.inbox[0])
  }

  lemma HandlingKeepsInStep(d: Dispatcher, s: System)
    requires Agreement(s) && InStep(s) && Enabled(s, HandleNext)
    ensures InStep(Step(d, s, HandleNext)) && !WillThrow(Step(d, s, HandleNext))
  {
    assert s.inbox == [s.inbox[0]] && s.unanswered == [] && s.client.timerWaits == 0;
    HandlingConserves(d, s);
    WrappedEffects(s.client, s.inbox[0]);
  }

  lemma StepKeepsInStep(d: Dispatcher, s: System, e: Event)
    requires Agreement(s) && InStep(s) && Enabled(s, e) && Disciplined(s, e)
    ensures InStep(Step(d, s, e))
    ensures WillThrow(Step(d, s, e)) <==> DiscourteousAt(s, e) || (!e.HandleNext? && WillThrow(s))
  {
    if e.HandleNext? {
      HandlingKeepsInStep(d, s);
    } else {
      StepConserves(d, s, e);
    }
  }

  /** A discourteous answer was given before `n` and has not been handled yet. */
  ghost predicate AnswerWaits(d: Dispatcher, states: seq<System>, events: seq<Event>, n: nat)
    requires Behavior(d, states, events) && n <= |events|
  {
    exists j :: 0 <= j < n && DiscourteousAt(states[j], events[j]) && NoneHandled(events, j + 1, n)
  }

  predicate NoneHandled(events: seq<Event>, from: nat, to: nat)
    requires to <= |events|
  {
    forall k :: from <= k < to ==> !events[k].HandleNext?
  }

  lemma AnswerWaitsStep(d: Dispatcher, states: seq<System>, events: seq<Event>, n: nat)
    requires Behavior(d, states, events) && 0 < n <= |events|
    ensures AnswerWaits(d, states, events, n) <==>
            DiscourteousAt(states[n - 1], events[n - 1])
            || (!events[n - 1].HandleNext? && AnswerWaits(d, states, events, n - 1))
  {
    if DiscourteousAt(states[n - 1], events[n - 1]) {
      assert NoneHandled(events, n, n);
    } else if !events[n - 1].HandleNext? && AnswerWaits(d, states, events, n - 1) {
      var j :| 0 <= j < n - 1 && DiscourteousAt(states[j], events[j]) && NoneHandled(events, j + 1, n - 1);
      assert NoneHandled(events, j + 1, n);
    } else if AnswerWaits(d, states, events, n) {
      var j :| 0 <= j < n && DiscourteousAt(states[j], events[j]) && NoneHandled(events, j + 1, n);
      assert NoneHandled(events, j + 1, n - 1);
    }
  }

  lemma {:induction false} ReachableInStep(d: Dispatcher, states: seq<System>, events: seq<Event>, n: nat)
    requires Behavior(d, states, events) && n <= |events|
    requires forall i :: 0 <= i < |events| ==> Disciplined(states[i], events[i])
    ensures InStep(states[n])
    ensures WillThrow(states[n]) <==> AnswerWaits(d, states, events, n)
  {
    if n > 0 {
      ReachableInStep(d, states, events, n - 1);
      ReachableAgrees(d, states, events, n - 1);
      StepKeepsInStep(d, states[n - 1], events[n - 1]);
      AnswerWaitsStep(d, states, events, n);
    }
  }

  /** Some discourteous answer given before `n` has been handled before `n`. */
  ghost predicate DiscourtesyHandled(d: Dispatcher, states: seq<System>, events: seq<Event>, n: nat)
    requires Behavior(d, states, events) && n <= |events|
  {
    exists j, k :: 0 <= j < k < n && DiscourteousAt(states[j], events[j]) && events[k].HandleNext?
  }

  lemma HandledAfter(d: Dispatcher, states: seq<System>, events: seq<Event>, j: nat, n: nat)
    requires Behavior(d, states, events) && j < n <= |events| && DiscourteousAt(states[j], events[j])
    ensures AnswerWaits(d, states, events, n) || DiscourtesyHandled(d, states, events, n)
  {
    if !NoneHandled(events, j + 1, n) {
      var k :| j + 1 <= k < n && events[k].HandleNext?;
      assert DiscourteousAt(states[j], events[j]) && events[k].HandleNext?;
    }
  }

  lemma DiscourtesyHandledStep(d: Dispatcher, states: seq<System>, events: seq<Event>, n: nat)
    requires Behavior(d, states, events) && 0 < n <= |events|
    ensures DiscourtesyHandled(d, states, events, n) <==>
            DiscourtesyHandled(d, states, events, n - 1)
            || (events[n - 1].HandleNext? && AnswerWaits(d, states, events, n - 1))
  {
    if events[n - 1].HandleNext? && AnswerWaits(d, states, events, n - 1) {
      var j :| 0 <= j < n - 1 && DiscourteousAt(states[j], events[j]) && NoneHandled(events, j + 1, n - 1);
      assert DiscourteousAt(states[j], events[j]) && events[n - 1].HandleNext?;
    } else if DiscourtesyHandled(d, states, events, n) {
      var j, k :| 0 <= j < k < n && DiscourteousAt(states[j], events[j]) && events[k].HandleNext?;
      if k == n - 1 {
        HandledAfter(d, states, events, j, n - 1);
      }
    }
  }

  lemma ThrewBeforeStep(d: Dispatcher, states: seq<System>, events: seq<Event>, n: nat)
    requires Behavior(d, states, events) && 0 < n <= |events|
    ensures ThrewBefore(d, states, events, n) <==>
            ThrewBefore(d, states, events, n - 1) || ThrowsAt(states[n - 1], events[n - 1])
  {
  }

  /** With a disciplined watchdog, under either dispatcher, a handler has thrown if
      and only if a discourteous answer has been handled; whether one is can be
      told from the request and the answer alone. */
  lemma {:induction false} ThrowsIffDiscourteous(d: Dispatcher, states: seq<System>, events: seq<Event>, n: nat)
    requires Behavior(d, states, events) && n <= |events|
    requires forall i :: 0 <= i < |events| ==> Disciplined(states[i], events[i])
    ensures ThrewBefore(d, states, events, n) <==> DiscourtesyHandled(d, states, events, n)
  {
    if n > 0 {
      ThrowsIffDiscourteous(d, states, events, n - 1);
      ReachableInStep(d, states, events, n - 1);
      ThrewBeforeStep(d, states, events, n);
      DiscourtesyHandledStep(d, states, events, n);
    }
  }

  /** So the dispatcher in use survives a disciplined watchdog exactly as long as no
      discourteous answer has been handled. */
  lemma HaltsIffDiscourteous(states: seq<System>, events: seq<Event>, n: nat)
    requires Behavior(Direct, states, events) && n <= |events|
    requires forall i :: 0 <= i < |events| ==> Disciplined(states[i], events[i])
    ensures states[n].halted <==> DiscourtesyHandled(Direct, states, events, n)
  {
    HaltsExactlyOnThrow(Direct, states, events, n);
    ThrowsIffDiscourteous(Direct, states, events, n);
  }

  /** It does happen: every discourteous response to the connect request, once
      handled, ends the process. */
  lemma DiscourtesyEndsProcess(garbage: Uint32, r: Response) returns (s: System)
    requires Matches(ConnectRequest, r) && Discourteous(ConnectRequest, r)
    ensures Reaches(Direct, garbage, s, 0) && s.halted
  {
    s := Start(Direct, garbage);
    s := Next(Direct, garbage, s, 0, Answer(0, r));
    s := Next(Direct, garbage, s, 0, HandleNext);
  }

  // ---------------------------------------------------------------------
  // The heartbeat
  // ---------------------------------------------------------------------

  /** Exactly one token is going round: a timer wait, a ping with the accepted code,
      or its answer. */
  predicate Beats(s: System) {
    && !s.halted && s.main.Armed? && s.reader.Idle? && s.client.handshake.state.Connected? && Tokens(s) == 1
    && (s.unanswered != [] ==> s.unanswered == [PingRequest(s.client.handshake.code)])
    && (s.inbox != [] ==> s.inbox == [PingResponse(Some(s.client.handshake.code))])
  }

  /** Each response answers one request, and a ping is answered with its own code. */
  predicate Courteous(s: System, e: Event) {
    && !e.Unsolicited?
    && (e.Answer? && e.request < |s.unanswered| && s.unanswered[e.request].PingRequest? ==>
          e.answer == PingResponse(Some(s.unanswered[e.request].code)))
  }

  lemma WaitStartsHeartbeat(d: Dispatcher, s: System)
    requires Agreement(s) && Tokens(s) + Owed(s) <= 1 && Enabled(s, WaitReturns)
    ensures if s.client.handshake.state.Connected? then Beats(Step(d, s, WaitReturns))
            else Step(d, s, WaitReturns) == s.(main := GaveUp)
  {
  }

  lemma BeatStep(d: Dispatcher, s: System, e: Event)
    requires Beats(s) && Enabled(s, e) && Courteous(s, e)
    ensures Beats(Step(d, s, e)) && Step(d, s, e).client.handshake == s.client.handshake
  {
  }

  /** The heartbeat never stops and never doubles, under either dispatcher, as long as
      every ping is answered at most once and with its own code. */
  lemma {:induction false} HeartbeatGoesOn(d: Dispatcher, states: seq<System>, events: seq<Event>, i: nat, n: nat)
    requires Behavior(d, states, events) && i <= n <= |events| && Beats(states[i])
    requires forall k :: i <= k < n ==> Courteous(states[k], events[k])
    ensures Beats(states[n]) && states[n].client.handshake == states[i].client.handshake
  {
    if i < n {
      HeartbeatGoesOn(d, states, events, i, n - 1);
      BeatStep(d, states[n - 1], events[n - 1]);
    }
  }

  /** One beat: the timer handler pings with the accepted code, the ping is answered,
      and the answer arms the timer again. Nothing else has changed by then. */
  lemma OneBeat(d: Dispatcher, s: System)
    requires Beats(s) && s.client.timerWaits == 1
    ensures var ping := PingRequest(s.client.handshake.code);
            var pong := Answer(0, PingResponse(Some(s.client.handshake.code)));
            var pinged := Step(d, s, TimerRuns);
            && pinged.client.sent == s.client.sent + [ping] && pinged.unanswered == [ping]
            && Enabled(pinged, pong) && Enabled(Step(d, pinged, pong), HandleNext)
            && Step(d, Step(d, pinged, pong), HandleNext) == s.(client := s.client.(sent := s.client.sent + [ping]))
  {
    var ping := PingRequest(s.client.handshake.code);
    var pinged := Step(d, s, TimerRuns);
    assert s.unanswered == [] && s.inbox == [];
    assert pinged.client.sent[|s.client.sent|..] == [ping];
    assert pinged.unanswered == [ping];
  }

  /** Without a token nothing is ever said again. */
  lemma {:induction false} SilenceIsForEver(d: Dispatcher, states: seq<System>, events: seq<Event>, i: nat, n: nat)
    requires Behavior(d, states, events) && i <= n <= |events| && Tokens(states[i]) + Owed(states[i]) == 0
    requires forall k :: i <= k < n ==> !events[k].Unsolicited?
    ensures Tokens(states[n]) + Owed(states[n]) == 0 && states[n].client == states[i].client
  {
    if i < n {
      SilenceIsForEver(d, states, events, i, n - 1);
      ReachableAgrees(d, states, events, n - 1);
      assert Enabled(states[n - 1], events[n - 1]);
    }
  }

  /** So a client that cannot connect sends nothing. */
  lemma FailedStartIsSilent(d: Dispatcher, states: seq<System>, events: seq<Event>, n: nat)
    requires Behavior(d, states, events) && 0 < n <= |events| && events[0] == StartUp(false)
    requires forall k :: 0 <= k < n ==> !events[k].Unsolicited?
    ensures states[n].client.sent == [] && states[n].client.timerWaits == 0
  {
    assert states[1] == Step(d, states[0], StartUp(false));
    SilenceIsForEver(d, states, events, 1, n);
  }
}
