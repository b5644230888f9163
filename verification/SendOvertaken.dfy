/** The one way in which a single sending thread goes wrong: the completion chain
    overtakes it inside sendMessage, and it calls front on an empty queue
    (Connection.hpp:199-208, 79-87). */
module SendOvertaken {
  import opened Framing
  import opened SendRace

  // ---------------------------------------------------------------------
  // In the middle of the call
  // ---------------------------------------------------------------------

  /** The thread loads a clear flag after the chain has already sent and popped
      everything, the thread's own message included. */
  predicate Overtaken(s: State, a: Action)
    requires Enabled(s, a)
  {
    a.Sender? && s.senders[a.thread].OpenChecked? && !s.flag && s.queue == []
  }

  ghost predicate OvertakenBefore(states: seq<State>, actions: seq<Action>, n: nat)
    requires Behavior(states, actions) && n <= |actions|
  {
    exists i :: 0 <= i < n && Overtaken(states[i], actions[i])
  }

  lemma OvertakenStep(states: seq<State>, actions: seq<Action>, n: nat)
    requires Behavior(states, actions) && 0 < n <= |actions|
    ensures OvertakenBefore(states, actions, n) <==>
            OvertakenBefore(states, actions, n - 1) || Overtaken(states[n - 1], actions[n - 1])
  {
  }

  /** The thread is past its flag test and there is nothing left to send. */
  predicate Doomed(s: State) {
    (Pc(s).FlagLoadedClear? || Pc(s).FlagSet?) && s.queue == []
  }

  lemma SenderDooms(s: State, m: Message)
    requires Inv(s) && s.senders == [Pc(s)] && !s.crashed
    ensures var s' := SenderStep(s, 0, m);
            && (Doomed(s') <==> Doomed(s) || (Pc(s).OpenChecked? && !s.flag && s.queue == []))
            && (s'.crashed ==> Doomed(s))
  {
  }

  lemma ChainDoesNotDoom(s: State, c: nat, ok: bool)
    requires Inv(s) && Enabled(s, Chain(c, ok))
    ensures var s' := ChainStep(s, c, ok); !Doomed(s) && !Doomed(s') && !s'.crashed
  {
    InvHasFront(s);
    assert Pc(ChainStep(s, c, ok)) == Pc(s);
  }

  lemma DoomedStep(s: State, a: Action)
    requires Inv(s) && Enabled(s, a)
    ensures Doomed(Step(s, a)) <==> Doomed(s) || Overtaken(s, a)
    ensures Step(s, a).crashed ==> Doomed(s)
  {
    if a.Sender? {
      SenderDooms(s, a.message);
    } else if a.Chain? {
      ChainDoesNotDoom(s, a.chain, a.ok);
    }
  }

  lemma CrashStep(s: State, a: Action, overtaken: bool)
    requires Inv(s) && Enabled(s, a) && Orderly(s, a) && (Doomed(s) <==> overtaken)
    ensures var s' := Step(s, a);
            && Inv(s') && (Doomed(s') <==> overtaken || Overtaken(s, a)) && (s'.crashed ==> Doomed(s'))
  {
    StepKeepsInv(s, a);
    DoomedStep(s, a);
  }

  /** With one sending thread, front or pop meets an empty queue only after the
      thread has been overtaken. */
  lemma {:induction false} CrashOnlyIfOvertaken(states: seq<State>, actions: seq<Action>,
                                                threads: nat, open: bool, n: nat)
    requires Behavior(states, actions) && states[0] == Init(threads, open) && n <= |actions|
    requires threads <= 1
    ensures Doomed(states[n]) <==> OvertakenBefore(states, actions, n)
    ensures Inv(states[n]) && (states[n].crashed ==> Doomed(states[n]))
  {
    if n > 0 {
      CrashOnlyIfOvertaken(states, actions, threads, open, n - 1);
      OvertakenStep(states, actions, n);
      CrashStep(states[n - 1], actions[n - 1], OvertakenBefore(states, actions, n - 1));
    }
  }

  /** And once overtaken, a thread can do nothing else: its next two steps store
      the flag and crash, whatever happens in between. */
  lemma OvertakenMustCrash(s: State, a: Action)
    requires Inv(s) && Doomed(s) && Enabled(s, a)
    ensures Doomed(Step(s, a))
    ensures a.Sender? ==> if Pc(s).FlagSet? then Step(s, a).crashed else Pc(Step(s, a)).FlagSet?
    ensures !a.Sender? ==> Pc(Step(s, a)) == Pc(s)
  {
    DoomedStep(s, a);
    if a.Sender? {
      assert s.senders == [Pc(s)];
    }
  }

  // ---------------------------------------------------------------------
  // At the call
  // ---------------------------------------------------------------------

  /** The chain can still send and pop whatever is put behind the queue now: it has
      not met an error or found the queue empty, and it is not stuck in the middle
      of a frame on a closed socket. */
  predicate CanDrain(s: State) {
    && Busy(s) && !Active(s).Failing? && !Active(s).Clearing?
    && (MidFrame(s, Active(s)) ==> s.open)
  }

  /** A schedule of one call of sendMessage(m) from `s`, not returned from yet. */
  ghost predicate CallRun(states: seq<State>, actions: seq<Action>, s: State, m: Message) {
    && Behavior(states, actions) && |actions| > 0
    && states[0] == s && actions[0] == Sender(0, m)
    && forall i :: 0 < i < |states| ==> !Pc(states[i]).Ready?
  }

  /** Some schedule of the call ends with front called on an empty queue. */
  ghost predicate CanCrash(s: State, m: Message) {
    exists states: seq<State>, actions :: CallRun(states, actions, s, m) && states[|actions|].crashed
  }

  /** Exactly when one call of sendMessage can go wrong, told from the state in
      which it is made: if the message has a body and the chain is still working
      its way through the queue. */
  lemma CallCanCrashIffChainCanDrain(s: State, m: Message)
    requires Inv(s) && s.senders == [Ready] && !s.crashed
    ensures CanCrash(s, m) <==> m.body != [] && CanDrain(s)
  {
    if m.body != [] && CanDrain(s) {
      var states, actions := Crash(s, m);
    } else {
      forall states: seq<State>, actions | CallRun(states, actions, s, m) ensures !states[|actions|].crashed {
        SafeCall(states, actions, s, m, |actions|);
      }
    }
  }

  /** In particular a call made with the flag clear is safe. */
  lemma ClearFlagIsSafe(s: State, m: Message)
    requires Inv(s) && s.senders == [Ready] && !s.crashed && !s.flag
    ensures !CanCrash(s, m)
  {
    CallCanCrashIffChainCanDrain(s, m);
  }

  // -- why no other call can crash -------------------------------------------

  /** Why `m` has not been overtaken: it is still in the queue and the chain cannot
      get to it, or it has no body and so the flag stays set. */
  predicate NotOvertaken(s: State, m: Message) {
    if m.body != [] then s.queue != [] && !CanDrain(s)
    else if s.queue != [] then s.queue[|s.queue| - 1] == m
    else s.flag && (Pc(s).Pushed? || Pc(s).OpenChecked?) && (Busy(s) ==> Active(s) == Testing(false))
  }

  predicate SafeInCall(s: State, m: Message) {
    Inv(s) && |s.senders| == 1 && !Pc(s).Ready? && !s.crashed && NotOvertaken(s, m)
  }

  lemma PushIsSafe(s: State, m: Message)
    requires Inv(s) && s.senders == [Ready] && !s.crashed && !(m.body != [] && CanDrain(s))
    ensures SafeInCall(SenderStep(s, 0, m), m)
  {
    SenderKeepsInv(s, m);
    assert Busy(SenderStep(s, 0, m)) == Busy(s);
  }

  lemma SenderStaysSafe(s: State, m: Message, m': Message)
    requires SafeInCall(s, m) && !Pc(SenderStep(s, 0, m')).Ready?
    ensures SafeInCall(SenderStep(s, 0, m'), m)
  {
    SenderKeepsInv(s, m');
    assert s.senders == [Pc(s)];
    assert Busy(SenderStep(s, 0, m')) == Busy(s);
  }

  /** The chain cannot reach a message behind which it will stop. */
  lemma StoppedChainMoves(s: State, ok: bool)
    requires Busy(s) && !CanDrain(s) && s.queue != [] && Enabled(s, Chain(|s.chains| - 1, ok))
    ensures var s' := ChainStep(s, |s.chains| - 1, ok); !CanDrain(s') && s'.queue == s.queue
  {
  }

  lemma LastIsPopped(s: State, m: Message, ok: bool)
    requires Busy(s) && s.flag && FrontThere(s) && m.body == [] && NotOvertaken(s, m) && Active(s).Popping?
    requires Pc(s).Pushed? || Pc(s).OpenChecked?
    ensures NotOvertaken(ChainStep(s, |s.chains| - 1, ok), m)
  {
    var rest := s.queue[1..];
    assert s.queue == [s.queue[0]] + rest;
    if rest != [] {
      assert rest[|rest| - 1] == m;
    } else {
      assert s.queue[0] == m && !Active(s).hadBody;
    }
  }

  /** The chain pops a message without a body like any other, but leaves the flag set. */
  lemma EmptyBodyKeepsFlag(s: State, m: Message, ok: bool)
    requires Busy(s) && s.flag && FrontThere(s) && m.body == [] && NotOvertaken(s, m)
    requires Pc(s).Pushed? || Pc(s).OpenChecked?
    ensures NotOvertaken(ChainStep(s, |s.chains| - 1, ok), m)
  {
    if Active(s).Popping? {
      LastIsPopped(s, m, ok);
    } else {
      assert ChainStep(s, |s.chains| - 1, ok).queue == s.queue;
    }
  }

  lemma ChainStaysSafe(s: State, m: Message, c: nat, ok: bool)
    requires SafeInCall(s, m) && Enabled(s, Chain(c, ok))
    ensures SafeInCall(ChainStep(s, c, ok), m)
  {
    ChainKeepsInv(s, c, ok);
    InvHasFront(s);
    if m.body != [] {
      StoppedChainMoves(s, ok);
    } else {
      EmptyBodyKeepsFlag(s, m, ok);
    }
  }

  lemma SetOpenStaysSafe(s: State, m: Message, open: bool)
    requires SafeInCall(s, m) && Orderly(s, SetOpen(open))
    ensures SafeInCall(SetOpenStep(s, open), m)
  {
    SetOpenKeepsInv(s, open);
    ExposedIsMidFrame(s);
    assert Busy(SetOpenStep(s, open)) == Busy(s);
  }

  lemma {:induction false} SafeCall(states: seq<State>, actions: seq<Action>, s: State, m: Message, n: nat)
    requires CallRun(states, actions, s, m) && 0 < n <= |actions|
    requires Inv(s) && s.senders == [Ready] && !s.crashed && !(m.body != [] && CanDrain(s))
    ensures SafeInCall(states[n], m)
  {
    if n == 1 {
      PushIsSafe(s, m);
    } else {
      SafeCall(states, actions, s, m, n - 1);
      match actions[n - 1]
      case Sender(t, m') =>
        assert states[n] == SenderStep(states[n - 1], 0, m');
        SenderStaysSafe(states[n - 1], m, m');
      case Chain(c, ok) => ChainStaysSafe(states[n - 1], m, c, ok);
      case SetOpen(open) => SetOpenStaysSafe(states[n - 1], m, open);
    }
  }

  // -- the schedule that crashes ---------------------------------------------

  lemma Continue(states: seq<State>, actions: seq<Action>, s: State, m: Message, a: Action)
    returns (states': seq<State>, actions': seq<Action>)
    requires CallRun(states, actions, s, m)
    requires Enabled(states[|actions|], a) && Orderly(states[|actions|], a)
    requires !Pc(Step(states[|actions|], a)).Ready?
    ensures CallRun(states', actions', s, m) && states'[|actions'|] == Step(states[|actions|], a)
  {
    states', actions' := states + [Step(states[|actions|], a)], actions + [a];
  }

  /** The thread stands between its open test and its flag load, and the chain has
      nothing in its way. */
  predicate Racing(s: State) {
    && s.senders == [OpenChecked] && !s.crashed && s.open
    && Busy(s) && !Active(s).Failing?
    && (s.queue != [] ==> s.queue[|s.queue| - 1].body != [] && !Active(s).Clearing?)
    && (s.queue == [] ==> Active(s) == Testing(true) || Active(s).Clearing?)
  }

  predicate Overtaking(s: State) {
    Inv(s) && Racing(s)
  }

  /** Steps still to go. */
  function Distance(s: State): nat
    requires Busy(s)
  {
    var q := 8 * |s.queue|;
    match Active(s)
    case HeaderOut(_) => q + 6
    case HeaderDone => q + 5
    case BodyReady => q + 4
    case BodyOut(_) => q + 3
    case Popping(_) => q + 2
    case Testing(_) => q + 8
    case Restarting => q + 7
    case _ => 0
  }

  lemma SendingStep(s: State)
    requires Racing(s) && FrontThere(s) && !Active(s).Popping? && !Active(s).Testing? && !Active(s).Clearing?
    ensures var s' := ChainStep(s, |s.chains| - 1, true); Racing(s') && Distance(s') < Distance(s)
  {
  }

  lemma PoppingStep(s: State)
    requires Racing(s) && FrontThere(s) && (Active(s).Popping? || Active(s).Testing?)
    ensures var s' := ChainStep(s, |s.chains| - 1, true); Racing(s') && Distance(s') < Distance(s)
  {
  }

  lemma OvertakingStep(s: State)
    requires Overtaking(s) && !Active(s).Clearing?
    ensures var a := Chain(|s.chains| - 1, true);
            && Enabled(s, a) && Overtaking(Step(s, a)) && Distance(Step(s, a)) < Distance(s)
  {
    ChainKeepsInv(s, |s.chains| - 1, true);
    InvHasFront(s);
    if Active(s).Popping? || Active(s).Testing? {
      PoppingStep(s);
    } else {
      SendingStep(s);
    }
  }

  lemma {:induction false} Drain(states: seq<State>, actions: seq<Action>, s: State, m: Message)
    returns (states': seq<State>, actions': seq<Action>)
    requires CallRun(states, actions, s, m) && Overtaking(states[|actions|])
    ensures CallRun(states', actions', s, m)
    ensures var s' := states'[|actions'|]; Overtaking(s') && Active(s').Clearing?
    decreases Distance(states[|actions|])
  {
    var now := states[|actions|];
    if Active(now).Clearing? {
      states', actions' := states, actions;
    } else {
      OvertakingStep(now);
      states', actions' := Continue(states, actions, s, m, Chain(|now.chains| - 1, true));
      states', actions' := Drain(states', actions', s, m);
    }
  }

  /** The push, and the open test on an open socket. */
  lemma Enter(s: State, m: Message) returns (states: seq<State>, actions: seq<Action>)
    requires Inv(s) && s.senders == [Ready] && !s.crashed && m.body != [] && CanDrain(s)
    ensures CallRun(states, actions, s, m) && Overtaking(states[|actions|])
  {
    var s' := SenderStep(s, 0, m);
    SenderKeepsInv(s, m);
    ExposedIsMidFrame(s');
    states, actions := [s, s'], [Sender(0, m)];
    if !s'.open {
      states, actions := Continue(states, actions, s, m, SetOpen(true));
      SetOpenKeepsInv(s', true);
    }
    SenderKeepsInv(states[|actions|], m);
    states, actions := Continue(states, actions, s, m, Sender(0, m));
  }

  lemma Crash(s: State, m: Message) returns (states: seq<State>, actions: seq<Action>)
    requires Inv(s) && s.senders == [Ready] && !s.crashed && m.body != [] && CanDrain(s)
    ensures CallRun(states, actions, s, m) && states[|actions|].crashed
  {
    states, actions := Enter(s, m);
    states, actions := Drain(states, actions, s, m);
    states, actions := Continue(states, actions, s, m, Chain(|states[|actions|].chains| - 1, true));
    states, actions := Continue(states, actions, s, m, Sender(0, m));
    states, actions := Continue(states, actions, s, m, Sender(0, m));
    states, actions := Continue(states, actions, s, m, Sender(0, m));
  }

  lemma Join(states: seq<State>, actions: seq<Action>, more: seq<State>, moreActions: seq<Action>)
    returns (states': seq<State>, actions': seq<Action>)
    requires Behavior(states, actions) && Behavior(more, moreActions) && more[0] == states[|actions|]
    ensures Behavior(states', actions') && states'[0] == states[0]
    ensures states'[|actions'|] == more[|moreActions|]
  {
    states', actions' := states[..|actions|] + more, actions + moreActions;
    forall i | 0 <= i < |actions'|
      ensures && Enabled(states'[i], actions'[i]) && Orderly(states'[i], actions'[i])
              && states'[i + 1] == Step(states'[i], actions'[i])
    {
      if i >= |actions| {
        assert states'[i] == more[i - |actions|] && states'[i + 1] == more[i - |actions| + 1];
      }
    }
  }

  /** The first call has started its write and returned. */
  function AfterFirstCall(m: Message): State {
    State([m], [m], [], [], true, true, 0, false, [Ready], [HeaderOut(m)])
  }

  lemma FirstCall(m: Message) returns (states: seq<State>, actions: seq<Action>)
    ensures Behavior(states, actions) && states[0] == Init(1, true)
    ensures states[|actions|] == AfterFirstCall(m)
  {
    states, actions := [Init(1, true)], [];
    states, actions := LoadClear(states, actions, 0, m);
    states, actions := StartWriting(states, actions, 0, m);
  }

  lemma FirstCallKeepsInv(m: Message)
    ensures Inv(AfterFirstCall(m)) && CanDrain(AfterFirstCall(m))
  {
    assert Completed([]) == [] == [] + Unpopped(AfterFirstCall(m));
  }

  /** The crash does happen: in the second of two calls in a row. */
  lemma OneSenderCanCrash(m: Message) returns (states: seq<State>, actions: seq<Action>)
    requires m.body != []
    ensures Behavior(states, actions) && states[0] == Init(1, true)
    ensures states[|actions|].crashed
  {
    states, actions := FirstCall(m);
    FirstCallKeepsInv(m);
    var more, moreActions := Crash(states[|actions|], m);
    states, actions := Join(states, actions, more, moreActions);
  }
}
