/** Runs of the client in which a call of sendMessage does go wrong although the
    watchdog is disciplined: the call finds the chain of the previous request still
    at work. */
module ClientSendRuns {
  import opened Framing
  import opened Wrappers
  import opened ResponseHandlers
  import opened WatchdogClient
  import opened ClientSends
  import P = WatchdogProtocol
  import R = SendRace
  import O = SendOvertaken

  /** Some run with two timer threads and a disciplined watchdog ends in `s`. */
  ghost predicate Reaches(d: P.Dispatcher, codec: Codec, garbage: Uint32, s: State) {
    exists states, events ::
      && Behavior(d, codec, states, events) && states[0] == Initial(garbage, 2) && states[|events|] == s
      && forall i :: 0 <= i < |events| ==> Disciplined(states[i], events[i])
  }

  lemma Longer(d: P.Dispatcher, codec: Codec, states: seq<State>, events: seq<Event>, e: Event)
    requires Behavior(d, codec, states, events)
    requires forall i :: 0 <= i < |events| ==> Disciplined(states[i], events[i])
    requires Enabled(d, states[|events|], e) && Disciplined(states[|events|], e)
    ensures var states', events' := states + [Step(d, codec, states[|events|], e)], events + [e];
            && Behavior(d, codec, states', events')
            && forall i :: 0 <= i < |events'| ==> Disciplined(states'[i], events'[i])
  {
  }

  lemma Next(d: P.Dispatcher, codec: Codec, garbage: Uint32, s: State, e: Event) returns (s': State)
    requires Reaches(d, codec, garbage, s) && Enabled(d, s, e) && Disciplined(s, e)
    ensures s' == Step(d, codec, s, e) && Reaches(d, codec, garbage, s')
  {
    s' := Step(d, codec, s, e);
    var states, events :|
      && Behavior(d, codec, states, events) && states[0] == Initial(garbage, 2) && states[|events|] == s
      && forall i :: 0 <= i < |events| ==> Disciplined(states[i], events[i]);
    Longer(d, codec, states, events, e);
    assert (states + [s'])[|events + [e]|] == s';
  }

  ghost predicate RaceRun(races: seq<R.State>, actions: seq<R.Action>) {
    && |races| == |actions| + 1
    && forall i :: 0 <= i < |actions| ==>
         && R.Enabled(races[i], actions[i]) && R.Orderly(races[i], actions[i])
         && (actions[i].Sender? ==> !races[i].senders[actions[i].thread].Ready?)
         && races[i + 1] == R.Step(races[i], actions[i])
  }

  lemma Extend(races: seq<R.State>, actions: seq<R.Action>, a: R.Action)
    returns (races': seq<R.State>, actions': seq<R.Action>)
    requires RaceRun(races, actions)
    requires var race := races[|actions|];
             R.Enabled(race, a) && R.Orderly(race, a) && (a.Sender? ==> !race.senders[a.thread].Ready?)
    ensures RaceRun(races', actions') && races'[0] == races[0]
    ensures races'[|actions'|] == R.Step(races[|actions|], a)
  {
    races', actions' := races + [R.Step(races[|actions|], a)], actions + [a];
  }

  lemma {:induction false} NextRace(d: P.Dispatcher, codec: Codec, garbage: Uint32, s: State,
                                    races: seq<R.State>, actions: seq<R.Action>, n: nat)
    requires Reaches(d, codec, garbage, s) && RaceRun(races, actions) && races[0] == s.race && n <= |actions|
    ensures Reaches(d, codec, garbage, s.(race := races[n]))
  {
    if n == 0 {
      assert s.(race := races[0]) == s;
    } else {
      NextRace(d, codec, garbage, s, races, actions, n - 1);
      var s' := Next(d, codec, garbage, s.(race := races[n - 1]), Race(actions[n - 1]));
    }
  }

  // -- the race, phase by phase ------------------------------------------------

  /** The thread passes its tests and starts the front's header. */
  lemma Starting(race: R.State, t: nat) returns (races: seq<R.State>, actions: seq<R.Action>)
    requires !race.crashed && race.open && !race.flag && race.queue != []
    requires t < |race.senders| && race.senders[t].Pushed?
    ensures RaceRun(races, actions) && races[0] == race
    ensures races[|actions|] == race.(flag := true, senders := race.senders[t := R.Ready],
                                      chains := race.chains + [R.HeaderOut(race.queue[0])])
  {
    var m := race.queue[0];
    races, actions := Extend([race], [], R.Sender(t, m));
    races, actions := Extend(races, actions, R.Sender(t, m));
    races, actions := Extend(races, actions, R.Sender(t, m));
    races, actions := Extend(races, actions, R.Sender(t, m));
    assert race.senders[t := R.OpenChecked][t := R.FlagLoadedClear][t := R.FlagSet][t := R.Ready]
        == race.senders[t := R.Ready];
  }

  function Transmitted(race: R.State): R.State
    requires race.queue != []
  {
    var m := race.queue[0];
    var frame := [R.HeaderOf(m, race.connection), R.BodyOf(m, race.connection)];
    race.(chains := [R.Popping(true)], wire := race.wire + frame)
  }

  /** The chain puts the front's frame on the wire. */
  lemma Transmitting(race: R.State) returns (races: seq<R.State>, actions: seq<R.Action>)
    requires !race.crashed && race.open && race.queue != [] && race.queue[0].body != []
    requires race.chains == [R.HeaderOut(race.queue[0])]
    ensures RaceRun(races, actions) && races[0] == race && races[|actions|] == Transmitted(race)
  {
    var m := race.queue[0];
    var header := race.wire + [R.HeaderOf(m, race.connection)];
    races, actions := Extend([race], [], R.Chain(0, true));
    races, actions := Extend(races, actions, R.Chain(0, true));
    assert races[|actions|] == race.(chains := [R.BodyReady], wire := header);
    races, actions := Extend(races, actions, R.Chain(0, true));
    races, actions := Extend(races, actions, R.Chain(0, true));
    assert header + [R.BodyOf(m, race.connection)] == Transmitted(race).wire;
  }

  /** The chain pops the front and goes on with the next. */
  lemma Restarting(race: R.State) returns (races: seq<R.State>, actions: seq<R.Action>)
    requires !race.crashed && |race.queue| > 1 && race.chains == [R.Popping(true)]
    ensures RaceRun(races, actions) && races[0] == race
    ensures races[|actions|] == race.(queue := race.queue[1..], popped := race.popped + [race.queue[0]],
                                      chains := [R.HeaderOut(race.queue[1])])
  {
    races, actions := Extend([race], [], R.Chain(0, true));
    races, actions := Extend(races, actions, R.Chain(0, true));
    races, actions := Extend(races, actions, R.Chain(0, true));
  }

  /** The chain pops the last message and clears the flag. */
  lemma Finishing(race: R.State) returns (races: seq<R.State>, actions: seq<R.Action>)
    requires !race.crashed && |race.queue| == 1 && race.chains == [R.Popping(true)]
    ensures RaceRun(races, actions) && races[0] == race
    ensures races[|actions|] == race.(queue := [], popped := race.popped + race.queue, flag := false,
                                      chains := [R.Ended])
  {
    races, actions := Extend([race], [], R.Chain(0, true));
    races, actions := Extend(races, actions, R.Chain(0, true));
    races, actions := Extend(races, actions, R.Chain(0, true));
    assert race.queue == [race.queue[0]];
  }

  /** Two threads load the clear flag before either sets it. */
  lemma BothStarting(race: R.State) returns (races: seq<R.State>, actions: seq<R.Action>)
    requires !race.crashed && race.open && !race.flag && race.queue != []
    requires race.senders == [R.Ready, R.Ready, R.OpenChecked, R.Pushed]
    ensures RaceRun(races, actions) && races[0] == race
    ensures var m := race.queue[0];
            races[|actions|] == race.(flag := true, senders := [R.Ready, R.Ready, R.Ready, R.Ready],
                                      chains := race.chains + [R.HeaderOut(m)] + [R.HeaderOut(m)])
  {
    var m := race.queue[0];
    races, actions := Extend([race], [], R.Sender(3, m));
    races, actions := Extend(races, actions, R.Sender(3, m));
    races, actions := Extend(races, actions, R.Sender(2, m));
    assert races[|actions|].senders == [R.Ready, R.Ready, R.FlagLoadedClear, R.FlagLoadedClear];
    races, actions := Extend(races, actions, R.Sender(2, m));
    races, actions := Extend(races, actions, R.Sender(2, m));
    races, actions := Extend(races, actions, R.Sender(3, m));
    races, actions := Extend(races, actions, R.Sender(3, m));
  }

  // -- the protocol, one kind of step at a time --------------------------------

  lemma NextSilent(d: P.Dispatcher, codec: Codec, garbage: Uint32, s: State, e: P.Event, protocol: P.System)
    requires Reaches(d, codec, garbage, s) && !s.race.crashed && IsReady(s.race, 0) && IsReady(s.race, 1)
    requires P.Enabled(s.protocol, e) && !e.Answer? && !e.Unsolicited?
    requires protocol == P.Step(d, s.protocol, e) && protocol.client.sent == s.protocol.client.sent
    ensures Reaches(d, codec, garbage, s.(protocol := protocol))
  {
    var s' := Next(d, codec, garbage, s, Protocol(e, 0));
  }

  lemma NextAnswer(d: P.Dispatcher, codec: Codec, garbage: Uint32, s: State, q: Request, r: Response)
    requires Reaches(d, codec, garbage, s) && !s.race.crashed && !s.protocol.halted
    requires s.protocol.unanswered == [q] && P.Matches(q, r)
    requires |s.places| == 1 && s.places[0] < |R.Completed(s.race.wire)|
    ensures Reaches(d, codec, garbage,
                    State(s.protocol.(unanswered := [], inbox := s.protocol.inbox + [r]), s.race, []))
  {
    var s' := Next(d, codec, garbage, s, Protocol(P.Answer(0, r), 0));
    assert s'.protocol.unanswered == [] && s'.places == [];
  }

  lemma NextCall(d: P.Dispatcher, codec: Codec, garbage: Uint32, s: State, e: P.Event, thread: nat,
                 protocol: P.System, q: Request)
    requires Reaches(d, codec, garbage, s) && !s.race.crashed
    requires P.Enabled(s.protocol, e) && (e.StartUp? || e.TimerRuns?)
    requires MayCall(e, thread) && IsReady(s.race, thread)
    requires protocol == P.Step(d, s.protocol, e) && protocol.client.sent == s.protocol.client.sent + [q]
    ensures Reaches(d, codec, garbage,
                    State(protocol, R.SenderStep(s.race, thread, RequestMessage(codec, q)),
                          s.places + [|s.race.pushed|]))
  {
    var s' := Next(d, codec, garbage, s, Protocol(e, thread));
  }

  /** The client once its code is 0, with nothing under way. */
  function Client0(main: P.MainPc, waits: nat, sent: seq<Request>): P.System {
    P.System(Client(Handshake(Connected, 0), waits, sent), main, P.Idle, [], [], [0], false)
  }

  function Greeting(garbage: Uint32): P.System {
    P.System(Client(Handshake(NotConnected, garbage), 0, [ConnectRequest]), P.Waiting, P.Idle, [ConnectRequest],
             [], [], false)
  }

  lemma StartUpStep(d: P.Dispatcher, garbage: Uint32)
    ensures P.Step(d, P.Initial(garbage), P.StartUp(true)) == Greeting(garbage)
  {
  }

  lemma GrantSteps(d: P.Dispatcher, garbage: Uint32)
    ensures var granted := Greeting(garbage).(unanswered := [], inbox := [P.GRANT]);
            var storing := granted.(inbox := [], reader := P.StoringCode(0));
            var setting := storing.(client := storing.client.(handshake := Handshake(NotConnected, 0)),
                                    reader := P.SettingState(0));
            && P.Step(d, granted, P.HandleNext) == storing
            && P.Step(d, storing, P.ReaderContinues) == setting
            && P.Step(d, setting, P.ReaderContinues) == Client0(P.Waiting, 0, [ConnectRequest])
  {
  }

  lemma BeatSteps(d: P.Dispatcher, sent: seq<Request>)
    ensures var pong := PingResponse(Some(0));
            && P.Step(d, Client0(P.Waiting, 0, sent), P.WaitReturns) == Client0(P.Armed, 1, sent)
            && P.Step(d, Client0(P.Armed, 1, sent), P.TimerRuns) ==
               Client0(P.Armed, 0, sent + [PingRequest(0)]).(unanswered := [PingRequest(0)])
            && P.Step(d, Client0(P.Armed, 0, sent).(inbox := [pong]), P.HandleNext) == Client0(P.Armed, 1, sent)
  {
    var pinged := P.Step(d, Client0(P.Armed, 1, sent), P.TimerRuns);
    assert pinged.client.sent[|sent|..] == [PingRequest(0)];
  }

  // -- both together ----------------------------------------------------------

  /** Messages have bodies, as every request of the protocol does. */
  ghost predicate HasBodies(codec: Codec) {
    forall r :: codec.serialize(r) != []
  }

  function FramePieces(m: Message): seq<R.Piece> {
    [R.HeaderOf(m, 0), R.BodyOf(m, 0)]
  }

  lemma FrameCompletes(wire: seq<R.Piece>, m: Message)
    requires m.body != []
    ensures R.Completed(wire + FramePieces(m)) == R.Completed(wire) + [m]
  {
    var header := wire + [R.HeaderOf(m, 0)];
    assert header[..|wire|] == wire;
    assert (wire + FramePieces(m))[..|header|] == header;
  }

  function Race0(queue: seq<Message>, pushed: seq<Message>, popped: seq<Message>, wire: seq<R.Piece>,
                 senders: seq<R.SenderPc>, chains: seq<R.ChainPc>): R.State {
    R.State(queue, pushed, popped, wire, chains != [] && !chains[|chains| - 1].Ended?, true, 0, false, senders, chains)
  }

  const READY: seq<R.SenderPc> := [R.Ready, R.Ready, R.Ready, R.Ready]

  /** The connect request has gone out, and its completion handler has not run. */
  function ConnectOut(codec: Codec): R.State {
    var m := RequestMessage(codec, ConnectRequest);
    Race0([m], [m], [], FramePieces(m), READY, [R.Popping(true)])
  }

  lemma ConnectGoesOut(d: P.Dispatcher, codec: Codec, garbage: Uint32)
    requires HasBodies(codec)
    ensures Reaches(d, codec, garbage, State(Greeting(garbage), ConnectOut(codec), [0]))
  {
    var m := RequestMessage(codec, ConnectRequest);
    var start := Initial(garbage, 2);
    assert start.race == Race0([], [], [], [], READY, []);
    assert Behavior(d, codec, [start], []);
    StartUpStep(d, garbage);
    NextCall(d, codec, garbage, start, P.StartUp(true), 0, Greeting(garbage), ConnectRequest);
    var pushed := Race0([m], [m], [], [], [R.Pushed, R.Ready, R.Ready, R.Ready], []);
    assert R.SenderStep(start.race, 0, m) == pushed;
    var s := State(Greeting(garbage), pushed, [0]);
    ConnectIsWritten(d, codec, garbage, s);
  }

  lemma ConnectIsWritten(d: P.Dispatcher, codec: Codec, garbage: Uint32, s: State)
    requires Reaches(d, codec, garbage, s) && HasBodies(codec)
    requires var m := RequestMessage(codec, ConnectRequest);
             s.race == Race0([m], [m], [], [], [R.Pushed, R.Ready, R.Ready, R.Ready], [])
    ensures Reaches(d, codec, garbage, s.(race := ConnectOut(codec)))
  {
    var m := RequestMessage(codec, ConnectRequest);
    var races, actions := Starting(s.race, 0);
    NextRace(d, codec, garbage, s, races, actions, |actions|);
    var started := Race0([m], [m], [], [], READY, [R.HeaderOut(m)]);
    assert races[|actions|] == started;
    races, actions := Transmitting(started);
    NextRace(d, codec, garbage, s.(race := started), races, actions, |actions|);
    assert races[|actions|] == ConnectOut(codec);
  }

  /** The connect request has been granted and the first timer wait armed, while its
      completion handler has still not run. */
  function FirstWait(codec: Codec): State {
    State(Client0(P.Armed, 1, [ConnectRequest]), ConnectOut(codec), [])
  }

  lemma FirstWaitIsReached(d: P.Dispatcher, codec: Codec, garbage: Uint32)
    requires HasBodies(codec)
    ensures Reaches(d, codec, garbage, FirstWait(codec))
  {
    var race, granted := ConnectOut(codec), Greeting(garbage).(unanswered := [], inbox := [P.GRANT]);
    ConnectGoesOut(d, codec, garbage);
    FrameCompletes([], RequestMessage(codec, ConnectRequest));
    assert [] + FramePieces(RequestMessage(codec, ConnectRequest)) == race.wire;
    NextAnswer(d, codec, garbage, State(Greeting(garbage), race, [0]), ConnectRequest, P.GRANT);
    GrantSteps(d, garbage);
    var storing := P.Step(d, granted, P.HandleNext);
    NextSilent(d, codec, garbage, State(granted, race, []), P.HandleNext, storing);
    var setting := P.Step(d, storing, P.ReaderContinues);
    NextSilent(d, codec, garbage, State(storing, race, []), P.ReaderContinues, setting);
    var waiting := Client0(P.Waiting, 0, [ConnectRequest]);
    NextSilent(d, codec, garbage, State(setting, race, []), P.ReaderContinues, waiting);
    BeatSteps(d, [ConnectRequest]);
    NextSilent(d, codec, garbage, State(waiting, race, []), P.WaitReturns, FirstWait(codec).protocol);
  }

  lemma ConnectOutInv(codec: Codec)
    requires HasBodies(codec)
    ensures R.Inv(Only(ConnectOut(codec), 2)) && O.CanDrain(Only(ConnectOut(codec), 2))
  {
    var only, m := Only(ConnectOut(codec), 2), RequestMessage(codec, ConnectRequest);
    FrameCompletes([], m);
    assert [] + FramePieces(m) == only.wire && [] + [m] == [m];
    assert R.Unpopped(only) == [m];
  }

  function Pinged(sent: seq<Request>): P.System {
    Client0(P.Armed, 0, sent + [PingRequest(0)]).(unanswered := [PingRequest(0)])
  }

  /** A timer handler runs and enters sendMessage. */
  function Called(codec: Codec, race: R.State, sent: seq<Request>, thread: nat): State
    requires thread < |race.senders|
  {
    State(Pinged(sent), R.SenderStep(race, thread, RequestMessage(codec, PingRequest(0))), [|race.pushed|])
  }

  lemma TimerCalls(d: P.Dispatcher, codec: Codec, garbage: Uint32, race: R.State, sent: seq<Request>, thread: nat)
    requires var s := State(Client0(P.Armed, 1, sent), race, []); Reaches(d, codec, garbage, s)
    requires thread >= 2 && IsReady(race, thread) && !race.crashed
    ensures Reaches(d, codec, garbage, Called(codec, race, sent, thread))
  {
    BeatSteps(d, sent);
    NextCall(d, codec, garbage, State(Client0(P.Armed, 1, sent), race, []), P.TimerRuns, thread, Pinged(sent),
             PingRequest(0));
    assert [] + [|race.pushed|] == [|race.pushed|];
  }

  lemma PongArms(d: P.Dispatcher, codec: Codec, garbage: Uint32, race: R.State, sent: seq<Request>, place: nat)
    requires Reaches(d, codec, garbage, State(Pinged(sent), race, [place]))
    requires place < |R.Completed(race.wire)| && !race.crashed && IsReady(race, 0) && IsReady(race, 1)
    ensures Reaches(d, codec, garbage, State(Client0(P.Armed, 1, sent + [PingRequest(0)]), race, []))
  {
    var pinged, pong := Client0(P.Armed, 0, sent + [PingRequest(0)]), PingResponse(Some(0));
    NextAnswer(d, codec, garbage, State(Pinged(sent), race, [place]), PingRequest(0), pong);
    BeatSteps(d, sent + [PingRequest(0)]);
    NextSilent(d, codec, garbage, State(pinged.(inbox := [pong]), race, []), P.HandleNext,
               Client0(P.Armed, 1, sent + [PingRequest(0)]));
  }

  /** The first ping can be overtaken: its timer handler may call sendMessage now,
      and a schedule of that call ends with front on an empty queue. */
  lemma FirstPingCanCrash(d: P.Dispatcher, codec: Codec, garbage: Uint32)
    requires HasBodies(codec)
    ensures var s, ping := FirstWait(codec), RequestMessage(codec, PingRequest(0));
            && Reaches(d, codec, garbage, s) && P.Enabled(s.protocol, P.TimerRuns) && IsReady(s.race, 2)
            && O.CanCrash(Only(s.race, 2), ping)
  {
    FirstWaitIsReached(d, codec, garbage);
    ConnectOutInv(codec);
    O.CallCanCrashIffChainCanDrain(Only(ConnectOut(codec), 2), RequestMessage(codec, PingRequest(0)));
  }

  /** The state of the one thread, put back among the others. */
  function Among(race: R.State, senders: seq<R.SenderPc>): R.State
    requires |race.senders| == 1 && |senders| > 2
  {
    race.(senders := senders[2 := race.senders[0]])
  }

  function AsThread2(a: R.Action): R.Action {
    if a.Sender? then R.Sender(2, a.message) else a
  }

  lemma StepAmong(race: R.State, a: R.Action, senders: seq<R.SenderPc>)
    requires |race.senders| == 1 && |senders| > 2 && R.Enabled(race, a) && R.Orderly(race, a)
    ensures var others, a' := Among(race, senders), AsThread2(a);
            && R.Enabled(others, a') && R.Orderly(others, a')
            && |R.Step(race, a).senders| == 1
            && R.Step(others, a') == Among(R.Step(race, a), senders)
  {
    var others := Among(race, senders);
    assert R.Exposed(others) == R.Exposed(race) && Only(others, 2) == race;
    match a
    case Sender(t, m) =>
      SenderIsTheSame(others, 2, m);
      assert R.SenderStep(others, 2, m).senders == Among(R.SenderStep(race, 0, m), senders).senders;
    case Chain(c, ok) =>
      ChainIsTheSame(others, 2, c, ok);
    case SetOpen(open) =>
  }

  lemma {:induction false} CallAmong(d: P.Dispatcher, codec: Codec, garbage: Uint32, s: State,
                                     race: R.State, m: Message, states: seq<R.State>,
                                     actions: seq<R.Action>, n: nat)
    requires |race.senders| > 2 && O.CallRun(states, actions, Only(race, 2), m) && 0 < n <= |actions|
    requires Reaches(d, codec, garbage, s) && s.race == R.SenderStep(race, 2, m) && !race.crashed
    ensures |states[n].senders| == 1
    ensures Reaches(d, codec, garbage, s.(race := Among(states[n], race.senders)))
  {
    if n == 1 {
      StepAmong(Only(race, 2), actions[0], race.senders);
      assert Among(Only(race, 2), race.senders) == race;
      assert Among(states[1], race.senders) == s.race;
      assert s.(race := s.race) == s;
    } else {
      CallAmong(d, codec, garbage, s, race, m, states, actions, n - 1);
      StepAmong(states[n - 1], actions[n - 1], race.senders);
      var before := s.(race := Among(states[n - 1], race.senders));
      var s' := Next(d, codec, garbage, before, Race(AsThread2(actions[n - 1])));
    }
  }

  lemma CrashAmong(d: P.Dispatcher, codec: Codec, garbage: Uint32, s: State, race: R.State, m: Message)
    returns (s': State)
    requires |race.senders| > 2 && !race.crashed && O.CanCrash(Only(race, 2), m)
    requires Reaches(d, codec, garbage, s) && s.race == R.SenderStep(race, 2, m)
    ensures Reaches(d, codec, garbage, s') && s'.race.crashed
  {
    var states: seq<R.State>, actions :| O.CallRun(states, actions, Only(race, 2), m) && states[|actions|].crashed;
    CallAmong(d, codec, garbage, s, race, m, states, actions, |actions|);
    s' := s.(race := Among(states[|actions|], race.senders));
  }

  /** And so the process can crash, whatever the dispatcher, with a watchdog that
      does all that is asked of it. */
  lemma DisciplinedClientCanCrash(d: P.Dispatcher, codec: Codec, garbage: Uint32) returns (s: State)
    requires HasBodies(codec)
    ensures Reaches(d, codec, garbage, s) && s.race.crashed
  {
    var race := ConnectOut(codec);
    FirstPingCanCrash(d, codec, garbage);
    TimerCalls(d, codec, garbage, race, [ConnectRequest], 2);
    s := CrashAmong(d, codec, garbage, Called(codec, race, [ConnectRequest], 2), race,
                    RequestMessage(codec, PingRequest(0)));
  }

  /** The first ping has gone out and the chain has ended, while the thread that sent
      it still stands between its open test and its flag load. */
  function PingOvertaken(codec: Codec): R.State {
    var m, ping := RequestMessage(codec, ConnectRequest), RequestMessage(codec, PingRequest(0));
    Race0([], [m, ping], [m, ping], FramePieces(m) + FramePieces(ping), [R.Ready, R.Ready, R.OpenChecked, R.Ready],
          [R.Ended])
  }

  lemma PingIsOvertaken(d: P.Dispatcher, codec: Codec, garbage: Uint32, s: State)
    requires Reaches(d, codec, garbage, s) && HasBodies(codec)
    requires s.race == R.SenderStep(ConnectOut(codec), 2, RequestMessage(codec, PingRequest(0)))
    ensures Reaches(d, codec, garbage, s.(race := PingOvertaken(codec)))
  {
    var m, ping := RequestMessage(codec, ConnectRequest), RequestMessage(codec, PingRequest(0));
    var inside := [R.Ready, R.Ready, R.OpenChecked, R.Ready];
    var tested := Race0([m, ping], [m, ping], [], FramePieces(m), inside, [R.Popping(true)]);
    var races, actions := Extend([s.race], [], R.Sender(2, ping));
    NextRace(d, codec, garbage, s, races, actions, |actions|);
    assert races[|actions|] == tested;
    races, actions := Restarting(tested);
    NextRace(d, codec, garbage, s.(race := tested), races, actions, |actions|);
    var restarted := Race0([ping], [m, ping], [m], FramePieces(m), inside, [R.HeaderOut(ping)]);
    assert races[|actions|] == restarted;
    PingIsWritten(d, codec, garbage, s.(race := restarted));
  }

  lemma PingIsWritten(d: P.Dispatcher, codec: Codec, garbage: Uint32, s: State)
    requires Reaches(d, codec, garbage, s) && HasBodies(codec)
    requires var m, ping := RequestMessage(codec, ConnectRequest), RequestMessage(codec, PingRequest(0));
             s.race == Race0([ping], [m, ping], [m], FramePieces(m), [R.Ready, R.Ready, R.OpenChecked, R.Ready],
                             [R.HeaderOut(ping)])
    ensures Reaches(d, codec, garbage, s.(race := PingOvertaken(codec)))
  {
    var races, actions := Transmitting(s.race);
    NextRace(d, codec, garbage, s, races, actions, |actions|);
    var written := Transmitted(s.race);
    races, actions := Finishing(written);
    NextRace(d, codec, garbage, s.(race := written), races, actions, |actions|);
    assert races[|actions|] == PingOvertaken(codec);
  }

  /** The chain has found the queue empty and not yet cleared the flag. */
  lemma ChainIsClearing(d: P.Dispatcher, codec: Codec, garbage: Uint32) returns (race: R.State)
    requires HasBodies(codec)
    ensures Reaches(d, codec, garbage, FirstWait(codec).(race := race))
    ensures var m := RequestMessage(codec, ConnectRequest);
            race == Race0([], [m], [m], FramePieces(m), READY, [R.Clearing])
  {
    var races, actions := Extend([ConnectOut(codec)], [], R.Chain(0, true));
    races, actions := Extend(races, actions, R.Chain(0, true));
    FirstWaitIsReached(d, codec, garbage);
    NextRace(d, codec, garbage, FirstWait(codec), races, actions, |actions|);
    race := races[|actions|];
  }

  lemma PingIsStranded(race: R.State, ping: Message) returns (races: seq<R.State>, actions: seq<R.Action>)
    requires !race.crashed && race.open && race.flag && race.chains == [R.Clearing]
    requires race.senders == [R.Ready, R.Ready, R.Pushed, R.Ready]
    ensures RaceRun(races, actions) && races[0] == race
    ensures races[|actions|] == race.(flag := false, senders := READY, chains := [R.Ended])
  {
    races, actions := Extend([race], [], R.Sender(2, ping));
    races, actions := Extend(races, actions, R.Sender(2, ping));
    races, actions := Extend(races, actions, R.Chain(0, true));
  }

  /** The first ping has been pushed in that window, and everything has come to rest. */
  function Stranded(codec: Codec): State {
    var m, ping := RequestMessage(codec, ConnectRequest), RequestMessage(codec, PingRequest(0));
    State(Pinged([ConnectRequest]), Race0([ping], [m, ping], [m], FramePieces(m), READY, [R.Ended]), [1])
  }

  lemma StrandedIsStuck(codec: Codec)
    requires HasBodies(codec)
    ensures Stuck(Stranded(codec))
  {
    var m := RequestMessage(codec, ConnectRequest);
    FrameCompletes([], m);
    assert [] + FramePieces(m) == FramePieces(m) && R.Completed(FramePieces(m)) == [m];
  }

  /** It does happen: the heartbeat stops although no write failed and the watchdog did
      all that is asked of it. */
  lemma HeartbeatCanStop(d: P.Dispatcher, codec: Codec, garbage: Uint32) returns (s: State)
    requires HasBodies(codec)
    ensures Reaches(d, codec, garbage, s) && Stuck(s)
    ensures s.protocol.unanswered == [PingRequest(0)] && s.race.open
  {
    var ping := RequestMessage(codec, PingRequest(0));
    var race := ChainIsClearing(d, codec, garbage);
    TimerCalls(d, codec, garbage, race, [ConnectRequest], 2);
    s := Called(codec, race, [ConnectRequest], 2);
    assert s.race.senders == [R.Ready, R.Ready, R.Pushed, R.Ready];
    var races, actions := PingIsStranded(s.race, ping);
    NextRace(d, codec, garbage, s, races, actions, |actions|);
    s := s.(race := races[|actions|]);
    assert s == Stranded(codec);
    StrandedIsStuck(codec);
  }

  lemma PingOvertakenOut(codec: Codec)
    requires HasBodies(codec)
    ensures |R.Completed(PingOvertaken(codec).wire)| == 2
  {
    var m, ping := RequestMessage(codec, ConnectRequest), RequestMessage(codec, PingRequest(0));
    FrameCompletes([], m);
    FrameCompletes(FramePieces(m), ping);
    assert [] + FramePieces(m) == FramePieces(m);
  }

  lemma PingIsAnswered(d: P.Dispatcher, codec: Codec, garbage: Uint32, sent: seq<Request>)
    requires HasBodies(codec) && sent == [ConnectRequest]
    ensures Reaches(d, codec, garbage,
                    State(Client0(P.Armed, 1, sent + [PingRequest(0)]), PingOvertaken(codec), []))
  {
    FirstWaitIsReached(d, codec, garbage);
    TimerCalls(d, codec, garbage, ConnectOut(codec), sent, 2);
    PingIsOvertaken(d, codec, garbage, Called(codec, ConnectOut(codec), sent, 2));
    PingOvertakenOut(codec);
    PongArms(d, codec, garbage, PingOvertaken(codec), sent, 1);
  }

  /** The ping is answered, and the next timer handler enters sendMessage while the
      first is still inside. */
  lemma CallsCanOverlap(d: P.Dispatcher, codec: Codec, garbage: Uint32) returns (s: State)
    requires HasBodies(codec)
    ensures Reaches(d, codec, garbage, s) && !OneInside(s.race)
    ensures s == Called(codec, PingOvertaken(codec), [ConnectRequest] + [PingRequest(0)], 3)
  {
    var race := PingOvertaken(codec);
    PingIsAnswered(d, codec, garbage, [ConnectRequest]);
    TimerCalls(d, codec, garbage, race, [ConnectRequest] + [PingRequest(0)], 3);
    s := Called(codec, race, [ConnectRequest] + [PingRequest(0)], 3);
    assert s.race.senders[2].OpenChecked? && s.race.senders[3].Pushed?;
  }

  /** Two of the client's threads can become writers at once, although each request
      was sent only when the one before had gone out and been answered. */
  lemma DisciplinedClientCanHaveTwoWriters(d: P.Dispatcher, codec: Codec, garbage: Uint32) returns (s: State)
    requires HasBodies(codec)
    ensures Reaches(d, codec, garbage, s) && !R.SingleWriter(s.race)
  {
    s := CallsCanOverlap(d, codec, garbage);
    assert s.race.senders == [R.Ready, R.Ready, R.OpenChecked, R.Pushed];
    var races, actions := BothStarting(s.race);
    NextRace(d, codec, garbage, s, races, actions, |actions|);
    s := s.(race := races[|actions|]);
    assert R.IsWrite(s.race.chains[1]) && R.IsWrite(s.race.chains[2]);
  }
}
