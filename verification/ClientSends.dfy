/** The client's own calls of sendMessage: the protocol decides when a request is
    sent and by which thread, SendRace what happens inside the call
    (ServiceBase.cpp:41-60, ServiceWatchdogConnection.cpp:24, 62-130,
    Connection.hpp:63-77, 151, 198-210). */
module ClientSends {
  import opened Framing
  import opened Wrappers
  import opened WatchdogClient
  import P = WatchdogProtocol
  import R = SendRace
  import O = SendOvertaken

  /** `places[i]` is where the i-th unanswered request stands among all messages
      pushed. */
  datatype State = State(protocol: P.System, race: R.State, places: seq<nat>)

  /** A step of the protocol, in which `thread` enters sendMessage if a request is
      sent; or a step inside sendMessage, of a handler or of the socket. */
  datatype Event =
    | Protocol(event: P.Event, thread: nat)
    | Race(action: R.Action)

  /** Thread 0 is the main thread, thread 1 the receive loop; the others run timer
      handlers. The socket is the one that start-up connects. */
  function Initial(garbage: Uint32, timers: nat): State {
    State(P.Initial(garbage), R.Init(2 + timers, true), [])
  }

  predicate MayCall(e: P.Event, thread: nat) {
    match e
    case StartUp(_) => thread == 0
    case HandleNext => thread == 1
    case TimerRuns => thread >= 2
    case _ => false
  }

  predicate IsReady(race: R.State, thread: nat) {
    thread < |race.senders| && race.senders[thread].Ready?
  }

  /** The request that a protocol step sends, if it sends one. */
  function Sent(d: P.Dispatcher, s: P.System, e: P.Event): Option<Request>
    requires P.Enabled(s, e)
  {
    var sent := P.Step(d, s, e).client.sent;
    if sent == s.client.sent || sent == [] then None else Some(sent[|sent| - 1])
  }

  predicate Calls(d: P.Dispatcher, s: State, e: Event) {
    e.Protocol? && P.Enabled(s.protocol, e.event) && Sent(d, s.protocol, e.event).Some?
  }

  /** A request is answered only when all of it has gone out; the main thread goes
      on when its call has returned; and the receive loop is armed after the main
      thread's call, and again after its own. */
  predicate Enabled(d: P.Dispatcher, s: State, e: Event) {
    match e
    case Protocol(pe, thread) =>
      && P.Enabled(s.protocol, pe) && !s.race.crashed
      && (pe.Answer? ==> pe.request < |s.places| && s.places[pe.request] < |R.Completed(s.race.wire)|)
      && (pe.WaitReturns? ==> IsReady(s.race, 0))
      && (pe.HandleNext? ==> IsReady(s.race, 0) && IsReady(s.race, 1))
      && (Calls(d, s, e) ==> MayCall(pe, thread) && IsReady(s.race, thread))
    case Race(a) =>
      && R.Enabled(s.race, a) && R.Orderly(s.race, a)
      && (a.Sender? ==> !s.race.senders[a.thread].Ready?)
  }

  function Step(d: P.Dispatcher, codec: Codec, s: State, e: Event): State
    requires Enabled(d, s, e)
  {
    match e
    case Protocol(pe, thread) =>
      var protocol, sent := P.Step(d, s.protocol, pe), Sent(d, s.protocol, pe);
      if sent.Some? then
        State(protocol, R.SenderStep(s.race, thread, RequestMessage(codec, sent.value)),
              s.places + [|s.race.pushed|])
      else if pe.Answer? then
        State(protocol, s.race, s.places[..pe.request] + s.places[pe.request + 1..])
      else s.(protocol := protocol)
    case Race(a) => s.(race := R.Step(s.race, a))
  }

  ghost predicate Behavior(d: P.Dispatcher, codec: Codec, states: seq<State>, events: seq<Event>) {
    && |states| == |events| + 1
    && forall i :: 0 <= i < |events| ==>
         Enabled(d, states[i], events[i]) && states[i + 1] == Step(d, codec, states[i], events[i])
  }

  /** The watchdog's part: each response answers one request, in kind. */
  predicate Disciplined(s: State, e: Event) {
    e.Protocol? ==> P.Disciplined(s.protocol, e.event)
  }

  // ---------------------------------------------------------------------
  // One request after the other
  // ---------------------------------------------------------------------

  /** Everything pushed has gone out complete. */
  predicate AllOut(race: R.State) {
    |R.Completed(race.wire)| >= |race.pushed|
  }

  predicate Paced(s: State) {
    && P.Agreement(s.protocol) && P.Quiet(s.protocol) && P.Tokens(s.protocol) + P.Owed(s.protocol) <= 1
    && |s.places| == |s.protocol.unanswered|
    && if s.places == [] then AllOut(s.race) else s.places == [|s.race.pushed| - 1]
  }

  lemma SentIsUnanswered(d: P.Dispatcher, s: P.System, e: P.Event)
    requires P.Enabled(s, e)
    ensures var s' := P.Step(d, s, e);
            if Sent(d, s, e).Some? then !e.Answer? && s'.unanswered == s.unanswered + [Sent(d, s, e).value]
            else if e.Answer? then s'.unanswered == s.unanswered[..e.request] + s.unanswered[e.request + 1..]
            else s'.unanswered == s.unanswered
  {
    if !e.Answer? {
      P.SendsAreUnanswered(d, s, e);
      if e.HandleNext? {
        WrappedEffects(s.client, s.inbox[0]);
      }
    }
  }

  lemma CompletedGrows(wire: seq<R.Piece>, p: R.Piece)
    ensures |R.Completed(wire + [p])| >= |R.Completed(wire)|
  {
    assert (wire + [p])[..|wire|] == wire;
  }

  lemma ChainWrites(race: R.State, c: nat, ok: bool)
    requires c < |race.chains|
    ensures var race' := R.ChainStep(race, c, ok);
            && race'.pushed == race.pushed
            && (race'.wire == race.wire || exists p :: race'.wire == race.wire + [p])
  {
  }

  lemma WireGrows(race: R.State, a: R.Action)
    requires R.Enabled(race, a) && (a.Sender? ==> !race.senders[a.thread].Ready?)
    ensures var race' := R.Step(race, a);
            && race'.pushed == race.pushed
            && |R.Completed(race'.wire)| >= |R.Completed(race.wire)|
  {
    if a.Chain? {
      ChainWrites(race, a.chain, a.ok);
      var race' := R.ChainStep(race, a.chain, a.ok);
      if race'.wire != race.wire {
        var p :| race'.wire == race.wire + [p];
        CompletedGrows(race.wire, p);
      }
    }
  }

  lemma StepKeepsPace(d: P.Dispatcher, codec: Codec, s: State, e: Event)
    requires Paced(s) && Enabled(d, s, e) && Disciplined(s, e)
    ensures Paced(Step(d, codec, s, e))
    ensures Calls(d, s, e) ==> AllOut(s.race)
  {
    if e.Race? {
      WireGrows(s.race, e.action);
    } else {
      P.StepKeepsAgreement(d, s.protocol, e.event);
      P.StepConserves(d, s.protocol, e.event);
      SentIsUnanswered(d, s.protocol, e.event);
    }
  }

  lemma {:induction false} ReachablePaced(d: P.Dispatcher, codec: Codec, states: seq<State>, events: seq<Event>,
                                          garbage: Uint32, timers: nat, n: nat)
    requires Behavior(d, codec, states, events) && states[0] == Initial(garbage, timers) && n <= |events|
    requires forall i :: 0 <= i < n ==> Disciplined(states[i], events[i])
    ensures Paced(states[n])
  {
    if n > 0 {
      ReachablePaced(d, codec, states, events, garbage, timers, n - 1);
      StepKeepsPace(d, codec, states[n - 1], events[n - 1]);
    }
  }

  /** With a disciplined watchdog, whichever of the client's threads sends, under
      either dispatcher: a call of sendMessage is made only when every message
      pushed before has gone out complete. */
  lemma CallsArePaced(d: P.Dispatcher, codec: Codec, states: seq<State>, events: seq<Event>,
                      garbage: Uint32, timers: nat, n: nat)
    requires Behavior(d, codec, states, events) && states[0] == Initial(garbage, timers) && n < |events|
    requires forall i :: 0 <= i <= n ==> Disciplined(states[i], events[i])
    ensures Calls(d, states[n], events[n]) ==> AllOut(states[n].race)
  {
    ReachablePaced(d, codec, states, events, garbage, timers, n);
    StepKeepsPace(d, codec, states[n], events[n]);
  }

  // ---------------------------------------------------------------------
  // Calls that find the chain finished
  // ---------------------------------------------------------------------

  /** The completion chain of the previous request has come to its end. */
  predicate Settled(d: P.Dispatcher, s: State, e: Event) {
    Calls(d, s, e) ==> !R.Busy(s.race)
  }

  /** As if `thread` were the only one. */
  function Only(race: R.State, thread: nat): R.State
    requires thread < |race.senders|
  {
    race.(senders := [race.senders[thread]])
  }

  /** No other thread is inside sendMessage; and if this one is, nobody but itself
      can send what it has pushed. */
  predicate Alone(race: R.State, thread: nat) {
    && thread < |race.senders|
    && (forall u :: 0 <= u < |race.senders| && u != thread ==> race.senders[u].Ready?)
    && R.Inv(Only(race, thread)) && !race.crashed
    && (!race.senders[thread].Ready? ==> !R.Busy(race) && race.queue != [])
  }

  predicate OneInside(race: R.State) {
    forall t, u :: 0 <= t < u < |race.senders| ==> race.senders[t].Ready? || race.senders[u].Ready?
  }

  /** A thread inside sendMessage still has something to send. */
  lemma InsideIsNotOut(race: R.State, thread: nat)
    requires Alone(race, thread) && !race.senders[thread].Ready?
    ensures !AllOut(race)
  {
    assert R.Unpopped(Only(race, thread)) == [];
    assert R.Completed(race.wire) == race.popped + [];
  }

  lemma OutMeansReady(race: R.State, thread: nat)
    requires Alone(race, thread) && AllOut(race)
    ensures race.senders[thread].Ready?
  {
    if !race.senders[thread].Ready? {
      InsideIsNotOut(race, thread);
    }
  }

  lemma EntersAlone(race: R.State, thread: nat, t: nat, m: Message)
    requires Alone(race, thread) && AllOut(race) && IsReady(race, t) && !R.Busy(race)
    ensures Alone(R.SenderStep(race, t, m), t)
  {
    OutMeansReady(race, thread);
    assert Only(race, t) == Only(race, thread);
    R.SenderKeepsInv(Only(race, t), m);
    SenderIsTheSame(race, t, m);
  }

  lemma SenderIsTheSame(race: R.State, thread: nat, m: Message)
    requires thread < |race.senders|
    ensures var race' := R.SenderStep(race, thread, m);
            && Only(race', thread) == R.SenderStep(Only(race, thread), 0, m)
            && |race'.senders| == |race.senders|
            && forall u :: 0 <= u < |race.senders| && u != thread ==> race'.senders[u] == race.senders[u]
  {
    match race.senders[thread]
    case Ready =>
    case Pushed =>
    case OpenChecked =>
    case FlagLoadedClear =>
    case FlagSet =>
  }

  lemma SenderStaysAlone(race: R.State, thread: nat, m: Message)
    requires Alone(race, thread) && !race.senders[thread].Ready?
    ensures Alone(R.SenderStep(race, thread, m), thread)
  {
    R.SenderKeepsInv(Only(race, thread), m);
    SenderIsTheSame(race, thread, m);
  }

  lemma WriteIsTheSame(race: R.State, thread: nat, c: nat, ok: bool)
    requires thread < |race.senders| && c < |race.chains|
    requires var pc := race.chains[c]; R.IsWrite(pc)
    ensures var race' := R.ChainStep(race, c, ok);
            race'.senders == race.senders && Only(race', thread) == R.ChainStep(Only(race, thread), c, ok)
  {
  }

  lemma FrontIsTheSame(race: R.State, thread: nat, c: nat, ok: bool)
    requires thread < |race.senders| && c < |race.chains|
    requires var pc := race.chains[c]; pc.HeaderDone? || pc.BodyReady? || pc.Popping? || pc.Restarting?
    ensures var race' := R.ChainStep(race, c, ok);
            race'.senders == race.senders && Only(race', thread) == R.ChainStep(Only(race, thread), c, ok)
  {
  }

  lemma EndIsTheSame(race: R.State, thread: nat, c: nat, ok: bool)
    requires thread < |race.senders| && c < |race.chains|
    requires var pc := race.chains[c]; pc.Testing? || pc.Failing? || pc.Clearing? || pc.Ended?
    ensures var race' := R.ChainStep(race, c, ok);
            race'.senders == race.senders && Only(race', thread) == R.ChainStep(Only(race, thread), c, ok)
  {
  }

  lemma ChainIsTheSame(race: R.State, thread: nat, c: nat, ok: bool)
    requires thread < |race.senders| && c < |race.chains|
    ensures var race' := R.ChainStep(race, c, ok);
            race'.senders == race.senders && Only(race', thread) == R.ChainStep(Only(race, thread), c, ok)
  {
    var pc := race.chains[c];
    if R.IsWrite(pc) {
      WriteIsTheSame(race, thread, c, ok);
    } else if pc.Testing? || pc.Failing? || pc.Clearing? || pc.Ended? {
      EndIsTheSame(race, thread, c, ok);
    } else {
      FrontIsTheSame(race, thread, c, ok);
    }
  }

  lemma ChainStaysAlone(race: R.State, thread: nat, c: nat, ok: bool)
    requires Alone(race, thread) && R.Enabled(race, R.Chain(c, ok))
    ensures Alone(R.ChainStep(race, c, ok), thread)
  {
    R.ChainKeepsInv(Only(race, thread), c, ok);
    ChainIsTheSame(race, thread, c, ok);
    assert race.senders[thread].Ready?;
  }

  lemma SetOpenStaysAlone(race: R.State, thread: nat, open: bool)
    requires Alone(race, thread) && R.Orderly(race, R.SetOpen(open))
    ensures Alone(R.SetOpenStep(race, open), thread)
  {
    assert R.Exposed(Only(race, thread)) == R.Exposed(race);
    R.SetOpenKeepsInv(Only(race, thread), open);
    assert Only(R.SetOpenStep(race, open), thread) == R.SetOpenStep(Only(race, thread), open);
  }

  lemma StaysAlone(race: R.State, thread: nat, a: R.Action)
    requires Alone(race, thread) && R.Enabled(race, a) && R.Orderly(race, a)
    requires a.Sender? ==> !race.senders[a.thread].Ready?
    ensures Alone(R.Step(race, a), thread)
  {
    match a
    case Sender(_, m) => SenderStaysAlone(race, thread, m);
    case Chain(c, ok) => ChainStaysAlone(race, thread, c, ok);
    case SetOpen(open) => SetOpenStaysAlone(race, thread, open);
  }

  lemma {:induction false} SomeoneAlone(d: P.Dispatcher, codec: Codec, states: seq<State>, events: seq<Event>,
                                        garbage: Uint32, timers: nat, n: nat) returns (thread: nat)
    requires Behavior(d, codec, states, events) && states[0] == Initial(garbage, timers) && n <= |events|
    requires forall i :: 0 <= i < n ==> Disciplined(states[i], events[i]) && Settled(d, states[i], events[i])
    ensures Alone(states[n].race, thread)
  {
    if n == 0 {
      thread := 0;
    } else {
      var s, e := states[n - 1], events[n - 1];
      thread := SomeoneAlone(d, codec, states, events, garbage, timers, n - 1);
      if e.Race? {
        StaysAlone(s.race, thread, e.action);
      } else if Calls(d, s, e) {
        CallsArePaced(d, codec, states, events, garbage, timers, n - 1);
        EntersAlone(s.race, thread, e.thread, RequestMessage(codec, Sent(d, s.protocol, e.event).value));
        thread := e.thread;
      }
    }
  }

  /** If moreover each call finds the chain of the previous request finished, then
      with any number of threads no two are ever inside sendMessage, there is no
      crash, and everything that holds with one sending thread holds. */
  lemma SettledCallsAreSafe(d: P.Dispatcher, codec: Codec, states: seq<State>, events: seq<Event>,
                            garbage: Uint32, timers: nat, n: nat)
    requires Behavior(d, codec, states, events) && states[0] == Initial(garbage, timers) && n <= |events|
    requires forall i :: 0 <= i < n ==> Disciplined(states[i], events[i]) && Settled(d, states[i], events[i])
    ensures var race := states[n].race; OneInside(race) && !race.crashed && R.Safe(race)
  {
    var thread := SomeoneAlone(d, codec, states, events, garbage, timers, n);
    R.InvIsSafe(Only(states[n].race, thread));
  }

  /** A paced call can only meet the very end of the previous request's chain. */
  lemma PacedCallCanCrash(race: R.State, m: Message)
    requires R.Inv(race) && race.senders == [R.Ready] && !race.crashed && AllOut(race)
    ensures O.CanCrash(race, m) <==>
            m.body != [] && R.Busy(race) && !R.Active(race).Failing? && !R.Active(race).Clearing?
  {
    O.CallCanCrashIffChainCanDrain(race, m);
    assert |race.queue| <= |R.Unpopped(race)|;
  }

  /** Which call is the first that the overtaking crash can hit: the one that finds
      the chain of the previous request still at work, though that request has been
      answered, and not yet past its empty test. */
  lemma WhichCallsCanCrash(d: P.Dispatcher, codec: Codec, states: seq<State>, events: seq<Event>,
                           garbage: Uint32, timers: nat, n: nat)
    requires Behavior(d, codec, states, events) && states[0] == Initial(garbage, timers) && n < |events|
    requires forall i :: 0 <= i < n ==> Disciplined(states[i], events[i]) && Settled(d, states[i], events[i])
    requires Disciplined(states[n], events[n]) && Calls(d, states[n], events[n])
    ensures var race, thread := states[n].race, events[n].thread;
            var m := RequestMessage(codec, Sent(d, states[n].protocol, events[n].event).value);
            && (forall t :: 0 <= t < |race.senders| ==> race.senders[t].Ready?)
            && (O.CanCrash(Only(race, thread), m) <==>
                m.body != [] && R.Busy(race) && !R.Active(race).Failing? && !R.Active(race).Clearing?)
  {
    var race, thread := states[n].race, events[n].thread;
    var t := SomeoneAlone(d, codec, states, events, garbage, timers, n);
    CallsArePaced(d, codec, states, events, garbage, timers, n);
    OutMeansReady(race, t);
    assert Only(race, thread) == Only(race, t);
    PacedCallCanCrash(Only(race, thread), RequestMessage(codec, Sent(d, states[n].protocol, events[n].event).value));
  }

  // ---------------------------------------------------------------------
  // A message left behind
  // ---------------------------------------------------------------------

  /** A request is in the queue, nobody is inside sendMessage and no chain runs. */
  predicate Stuck(s: State) {
    && Paced(s) && s.places != [] && !AllOut(s.race)
    && (forall t :: 0 <= t < |s.race.senders| ==> s.race.senders[t].Ready?)
    && (forall c :: 0 <= c < |s.race.chains| ==> s.race.chains[c].Ended?)
  }

  lemma StuckStep(d: P.Dispatcher, codec: Codec, s: State, e: Event)
    requires Stuck(s) && Enabled(d, s, e) && Disciplined(s, e)
    ensures var s' := Step(d, codec, s, e);
            && Stuck(s') && s'.race.wire == s.race.wire && s'.protocol.client.sent == s.protocol.client.sent
  {
    StepKeepsPace(d, codec, s, e);
  }

  /** Once a request is left behind, the conversation is over: its answer never
      comes, so nothing is sent any more, and nothing else goes out either. */
  lemma {:induction false} StuckForEver(d: P.Dispatcher, codec: Codec, states: seq<State>, events: seq<Event>, n: nat)
    requires Behavior(d, codec, states, events) && Stuck(states[0]) && n <= |events|
    requires forall i :: 0 <= i < n ==> Disciplined(states[i], events[i])
    ensures Stuck(states[n]) && states[n].race.wire == states[0].race.wire
    ensures states[n].protocol.client.sent == states[0].protocol.client.sent
  {
    if n > 0 {
      StuckForEver(d, codec, states, events, n - 1);
      StuckStep(d, codec, states[n - 1], events[n - 1]);
    }
  }
}
