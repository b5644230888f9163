/** The worker's receive handlers racing each other: several threads run one
    io_context, and all handlers share one buffer and one sender endpoint
    (ServiceContextWorker.cpp:43-73). */
module DatagramRace {
  import opened Framing
  import opened MessageEvents

  datatype Datagram = Datagram(payload: seq<Byte>, from: Endpoint)

  /** A handler has done `done` of its actions. `datagram` is the arrival it was
      started for; `payload` and `from` are its local copies. */
  datatype Task = Task(done: nat, datagram: nat, size: nat, payload: seq<Byte>, from: Endpoint)

  datatype State = State(
    buffer: seq<Byte>,
    endpoint: Endpoint,
    receives: nat,
    arrived: seq<Datagram>,
    tasks: seq<Task>,
    processed: seq<(nat, Datagram)>)

  datatype Event = Arrive(datagram: Datagram) | Run(task: nat)

  datatype Action = CopyPayload | CopyEndpoint | Rearm | Process

  /** The handler's actions in order, if it re-armed after `copies` of its two
      copies; the source has copies == 2. */
  function Program(copies: nat): seq<Action>
    requires copies <= 2
  {
    if copies == 0 then [Rearm, CopyPayload, CopyEndpoint, Process]
    else if copies == 1 then [CopyPayload, Rearm, CopyEndpoint, Process]
    else [CopyPayload, CopyEndpoint, Rearm, Process]
  }

  /** The state after the first startRead. */
  function Initial(buffer: seq<Byte>, endpoint: Endpoint): State {
    State(buffer, endpoint, 1, [], [], [])
  }

  /** What a receive into a buffer of `size` bytes keeps of a payload. */
  function Fit(size: nat, payload: seq<Byte>): seq<Byte> {
    if |payload| <= size then payload else payload[..size]
  }

  predicate Enabled(s: State, e: Event) {
    match e
    case Arrive(_) => s.receives > 0
    case Run(t) => t < |s.tasks| && s.tasks[t].done < 4
  }

  function RunAction(s: State, t: nat, a: Action): State
    requires t < |s.tasks|
  {
    var task := s.tasks[t].(done := s.tasks[t].done + 1);
    match a
    case CopyPayload =>
      var copy := if task.size <= |s.buffer| then s.buffer[..task.size] else s.buffer;
      s.(tasks := s.tasks[t := task.(payload := copy)])
    case CopyEndpoint => s.(tasks := s.tasks[t := task.(from := s.endpoint)])
    case Rearm => s.(tasks := s.tasks[t := task], receives := s.receives + 1)
    case Process =>
      s.(tasks := s.tasks[t := task],
         processed := s.processed + [(task.datagram, Datagram(task.payload, task.from))])
  }

  /** An arrival overwrites the front of the buffer and the endpoint, and starts a
      handler. */
  function Step(copies: nat, s: State, e: Event): State
    requires copies <= 2 && Enabled(s, e)
  {
    match e
    case Arrive(d) =>
      var payload := Fit(|s.buffer|, d.payload);
      s.(buffer := payload + s.buffer[|payload|..], endpoint := d.from, receives := s.receives - 1,
         arrived := s.arrived + [d], tasks := s.tasks + [Task(0, |s.arrived|, |payload|, [], Endpoint("", 0))])
    case Run(t) => RunAction(s, t, Program(copies)[s.tasks[t].done])
  }

  ghost predicate Behavior(copies: nat, states: seq<State>, events: seq<Event>)
    requires copies <= 2
  {
    && |states| == |events| + 1
    && forall i :: 0 <= i < |events| ==>
         Enabled(states[i], events[i]) && states[i + 1] == Step(copies, states[i], events[i])
  }

  /** Each processed pair arrived together, as one datagram cut to the buffer. */
  predicate Paired(s: State) {
    forall k :: 0 <= k < |s.processed| ==>
      && s.processed[k].0 < |s.arrived|
      && var d := s.arrived[s.processed[k].0];
         s.processed[k].1 == Datagram(Fit(|s.buffer|, d.payload), d.from)
  }

  predicate AtMostOnce(s: State) {
    forall j, k :: 0 <= j < k < |s.processed| ==> s.processed[j].0 != s.processed[k].0
  }

  /** Handlers that have not re-armed yet. */
  predicate Holding(t: Task) {
    t.done < 3
  }

  predicate TaskInv(s: State, t: nat)
    requires t < |s.tasks| && t < |s.arrived|
  {
    var task, d := s.tasks[t], s.arrived[t];
    var payload := Fit(|s.buffer|, d.payload);
    && task.done <= 4 && task.datagram == t && task.size == |payload|
    && (task.done >= 1 ==> task.payload == payload)
    && (task.done >= 2 ==> task.from == d.from)
    && (Holding(task) ==> t == |s.tasks| - 1 && s.receives == 0 && s.buffer[..task.size] == payload
                          && s.endpoint == d.from)
  }

  predicate IsProcessed(s: State, t: nat) {
    exists k :: 0 <= k < |s.processed| && s.processed[k].0 == t
  }

  /** Every finished handler has had its datagram processed, and a receive is
      outstanding unless the last handler has not re-armed. */
  predicate Complete(s: State) {
    && (forall t :: 0 <= t < |s.tasks| && s.tasks[t].done == 4 ==> IsProcessed(s, t))
    && s.receives == if s.tasks != [] && Holding(s.tasks[|s.tasks| - 1]) then 0 else 1
  }

  predicate Inv(s: State) {
    && |s.tasks| == |s.arrived|
    && s.receives <= 1
    && (forall t :: 0 <= t < |s.tasks| ==> TaskInv(s, t))
    && Paired(s)
    && AtMostOnce(s)
    && (forall k :: 0 <= k < |s.processed| ==> s.processed[k].0 < |s.tasks| && s.tasks[s.processed[k].0].done == 4)
    && Complete(s)
  }

  /** A receive keeps as much of the payload as the buffer holds, from its start. */
  lemma FitIsLongestPrefix(size: nat, payload: seq<Byte>)
    ensures Fit(size, payload) <= payload
    ensures |Fit(size, payload)| == |payload| <= size || |Fit(size, payload)| == size < |payload|
  {
    assert payload[..|payload|] == payload;
  }

  lemma ArriveKeepsInv(s: State, d: Datagram)
    requires Inv(s) && Enabled(s, Arrive(d))
    ensures Inv(Step(2, s, Arrive(d)))
  {
    var s' := Step(2, s, Arrive(d));
    assert |s'.buffer| == |s.buffer|;
    forall t | 0 <= t < |s'.tasks| ensures TaskInv(s', t) {
      if t < |s.tasks| {
        assert TaskInv(s, t);
      }
    }
  }

  lemma RunKeepsComplete(s: State, t: nat)
    requires Inv(s) && Enabled(s, Run(t))
    ensures Complete(Step(2, s, Run(t)))
  {
    var s' := Step(2, s, Run(t));
    assert TaskInv(s, t);
    forall u | 0 <= u < |s'.tasks| && s'.tasks[u].done == 4 ensures IsProcessed(s', u) {
      if s.tasks[u].done == 4 {
        var k :| 0 <= k < |s.processed| && s.processed[k].0 == u;
        assert s'.processed[k].0 == u;
      } else {
        assert s'.processed[|s.processed|].0 == u;
      }
    }
  }

  lemma RunKeepsTasks(s: State, t: nat)
    requires Inv(s) && Enabled(s, Run(t))
    ensures var s' := Step(2, s, Run(t));
            |s'.tasks| == |s'.arrived| && forall u :: 0 <= u < |s'.tasks| ==> TaskInv(s', u)
  {
    var s' := Step(2, s, Run(t));
    assert TaskInv(s, t);
    forall u | 0 <= u < |s'.tasks| ensures TaskInv(s', u) {
      assert TaskInv(s, u);
    }
  }

  lemma RunKeepsInv(s: State, t: nat)
    requires Inv(s) && Enabled(s, Run(t))
    ensures Inv(Step(2, s, Run(t)))
  {
    assert TaskInv(s, t);
    RunKeepsTasks(s, t);
    RunKeepsComplete(s, t);
  }

  lemma {:induction false} Reachable(states: seq<State>, events: seq<Event>,
                                     buffer: seq<Byte>, endpoint: Endpoint, n: nat)
    requires Behavior(2, states, events) && states[0] == Initial(buffer, endpoint) && n <= |events|
    ensures Inv(states[n])
  {
    if n > 0 {
      Reachable(states, events, buffer, endpoint, n - 1);
      match events[n - 1]
      case Arrive(d) => ArriveKeepsInv(states[n - 1], d);
      case Run(t) => RunKeepsInv(states[n - 1], t);
    }
  }

  ghost predicate AlwaysPaired(copies: nat, buffer: seq<Byte>)
    requires copies <= 2
  {
    forall states, events, endpoint ::
      Behavior(copies, states, events) && states[0] == Initial(buffer, endpoint) ==> Paired(states[|events|])
  }

  /** Whatever the threads and the network do: at most one receive is outstanding,
      every datagram is processed at most once, and every processed payload and
      endpoint arrived together. */
  lemma PairingUnderConcurrency(states: seq<State>, events: seq<Event>, buffer: seq<Byte>, endpoint: Endpoint)
    requires Behavior(2, states, events) && states[0] == Initial(buffer, endpoint)
    ensures var s := states[|events|]; s.receives <= 1 && AtMostOnce(s) && Paired(s)
  {
    Reachable(states, events, buffer, endpoint, |events|);
  }

  /** A handler does each of its four things exactly once, wherever it re-arms. */
  lemma ProgramIsComplete(copies: nat)
    requires copies <= 2
    ensures multiset(Program(copies)) == multiset{CopyPayload, CopyEndpoint, Rearm, Process}
  {
  }

  /** Nothing is dropped and reading never stops: a receive is outstanding unless a
      handler is about to arm it, and every handler that has run to its end has had
      its datagram processed. */
  lemma NothingDropped(states: seq<State>, events: seq<Event>, buffer: seq<Byte>, endpoint: Endpoint)
    requires Behavior(2, states, events) && states[0] == Initial(buffer, endpoint)
    ensures var s := states[|events|];
            && |s.tasks| == |s.arrived|
            && (s.receives == 1 <==> forall t :: 0 <= t < |s.tasks| ==> s.tasks[t].done >= 3)
            && forall t :: 0 <= t < |s.tasks| && s.tasks[t].done == 4 ==> IsProcessed(s, t)
  {
    Reachable(states, events, buffer, endpoint, |events|);
    var s := states[|events|];
    forall t | 0 <= t < |s.tasks| && s.receives == 1 ensures s.tasks[t].done >= 3 {
      assert TaskInv(s, t);
    }
  }

  lemma Extend(copies: nat, states: seq<State>, events: seq<Event>, e: Event)
    returns (states': seq<State>, events': seq<Event>)
    requires copies <= 2 && Behavior(copies, states, events) && Enabled(states[|events|], e)
    ensures Behavior(copies, states', events') && states'[0] == states[0]
    ensures states'[|events'|] == Step(copies, states[|events|], e)
  {
    states', events' := states + [Step(copies, states[|events|], e)], events + [e];
  }

  /** Re-arming before both copies lets the next arrival in between. */
  lemma EarlyRearmMixes(copies: nat, buffer: seq<Byte>) returns (states: seq<State>, events: seq<Event>)
    requires copies < 2
    ensures Behavior(copies, states, events) && states[0] == Initial(buffer, Endpoint("a", 0))
    ensures !Paired(states[|events|])
  {
    var first, second := Datagram([], Endpoint("a", 0)), Datagram([], Endpoint("b", 0));
    states, events := [Initial(buffer, first.from)], [];
    states, events := Extend(copies, states, events, Arrive(first));
    states, events := Extend(copies, states, events, Run(0));
    if copies == 1 {
      states, events := Extend(copies, states, events, Run(0));
    }
    states, events := Extend(copies, states, events, Arrive(second));
    states, events := Extend(copies, states, events, Run(0));
    if copies == 0 {
      states, events := Extend(copies, states, events, Run(0));
    }
    states, events := Extend(copies, states, events, Run(0));
    var s := states[|events|];
    assert s.arrived[0] == first && s.processed[0].0 == 0 && s.processed[0].1.from == second.from;
  }

  /** Copying both before re-arming is exactly what it takes. */
  lemma PairedIffCopiedFirst(copies: nat, buffer: seq<Byte>)
    requires copies <= 2
    ensures AlwaysPaired(copies, buffer) <==> copies == 2
  {
    if copies == 2 {
      forall states, events, endpoint |
        Behavior(copies, states, events) && states[0] == Initial(buffer, endpoint)
        ensures Paired(states[|events|])
      {
        Reachable(states, events, buffer, endpoint, |events|);
      }
    } else {
      var states, events := EarlyRearmMixes(copies, buffer);
    }
  }
}
