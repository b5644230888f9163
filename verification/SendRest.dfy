/** What a single sending thread leaves behind when everything has come to rest, and
    that its next call makes up for it (Connection.hpp:79-149, 198-210). */
module SendRest {
  import opened Framing
  import opened Sequences
  import opened SendRace

  /** Nothing is going on, though messages may have been left in the queue: by the
      window between the empty test and the flag clear, or by an error. */
  predicate AtRest(s: State) {
    |s.senders| == 1 && s.senders[0].Ready? && !Busy(s) && !s.flag && s.open && !s.crashed
  }

  // ---------------------------------------------------------------------
  // Messages left behind
  // ---------------------------------------------------------------------

  /** Messages have bodies, writes succeed, and nobody touches the socket. */
  predicate Smooth(s: State, a: Action) {
    match a
    case Sender(_, m) => Pc(s).Ready? ==> m.body != []
    case Chain(_, ok) => ok
    case SetOpen(_) => false
  }

  ghost predicate SmoothRun(states: seq<State>, actions: seq<Action>) {
    && Behavior(states, actions) && states[0] == Init(1, true)
    && forall i :: 0 <= i < |actions| ==> Smooth(states[i], actions[i])
  }

  predicate LoadsFlag(s: State, a: Action) {
    a.Sender? && Pc(s).OpenChecked?
  }

  /** The thread trusts a chain that has already found the queue empty. */
  predicate Strands(s: State) {
    s.flag && Busy(s) && Active(s).Clearing? && s.queue != []
  }

  /** The last flag load before `n` saw the flag set by a chain that was about to
      clear it, with something in the queue. */
  predicate LastLoadStrands(states: seq<State>, actions: seq<Action>, n: nat)
    requires n <= |actions| <= |states|
  {
    if n == 0 then false
    else if LoadsFlag(states[n - 1], actions[n - 1]) then Strands(states[n - 1])
    else LastLoadStrands(states, actions, n - 1)
  }

  /** How the threads stand in a smooth run; `stranded` is what the last load saw. */
  predicate Standing(s: State, stranded: bool) {
    && |s.senders| == 1 && s.open && AllNonEmpty(s.queue)
    && (!Busy(s) && !Pc(s).FlagSet? ==> !s.flag)
    && (Busy(s) ==> !Active(s).Failing? && Active(s) != Popping(false) && Active(s) != Testing(false))
    && (stranded ==> s.queue != [] && !Pc(s).FlagLoadedClear? && !Pc(s).FlagSet?)
    && (stranded && Busy(s) ==> Active(s).Clearing?)
    && (Pc(s).Ready? && s.queue != [] && (!Busy(s) || Active(s).Clearing?) ==> stranded)
  }

  lemma SenderStands(s: State, m: Message, stranded: bool)
    requires Inv(s) && Standing(s, stranded) && !s.crashed && (Pc(s).Ready? ==> m.body != [])
    ensures Standing(SenderStep(s, 0, m), if Pc(s).OpenChecked? then Strands(s) else stranded)
  {
    assert s.senders == [Pc(s)];
    if !Pc(s).FlagSet? {
      assert Busy(SenderStep(s, 0, m)) == Busy(s);
    }
  }

  lemma ChainStands(s: State, stranded: bool)
    requires Standing(s, stranded) && Busy(s) && FrontThere(s)
    ensures Standing(ChainStep(s, |s.chains| - 1, true), stranded)
  {
  }

  lemma StepStands(s: State, a: Action, stranded: bool)
    requires Inv(s) && Standing(s, stranded) && Enabled(s, a) && Smooth(s, a)
    ensures Standing(Step(s, a), if LoadsFlag(s, a) then Strands(s) else stranded)
  {
    if a.Sender? {
      assert a.thread == 0;
      SenderStands(s, a.message, stranded);
    } else {
      ChainKeepsInv(s, a.chain, a.ok);
      InvHasFront(s);
      ChainStands(s, stranded);
    }
  }

  lemma SmoothStep(s: State, a: Action, stranded: bool)
    requires Inv(s) && Standing(s, stranded) && Enabled(s, a) && Orderly(s, a) && Smooth(s, a)
    ensures Inv(Step(s, a)) && Standing(Step(s, a), if LoadsFlag(s, a) then Strands(s) else stranded)
  {
    StepKeepsInv(s, a);
    StepStands(s, a, stranded);
  }

  lemma {:induction false} SmoothReachable(states: seq<State>, actions: seq<Action>, n: nat)
    requires SmoothRun(states, actions) && n <= |actions|
    ensures Inv(states[n]) && Standing(states[n], LastLoadStrands(states, actions, n))
  {
    if n > 0 {
      SmoothReachable(states, actions, n - 1);
      SmoothStep(states[n - 1], actions[n - 1], LastLoadStrands(states, actions, n - 1));
    }
  }

  /** Without any error a message can still be left behind, and exactly so: when
      everything has come to rest, something is in the queue if and only if the last
      flag load found the flag set by a chain that had already found the queue
      empty. */
  lemma {:induction false} LeftBehindIffLastLoadStrands(states: seq<State>, actions: seq<Action>, n: nat)
    requires SmoothRun(states, actions) && n <= |actions|
    ensures AtRest(states[n]) ==> (states[n].queue != [] <==> LastLoadStrands(states, actions, n))
  {
    SmoothReachable(states, actions, n);
  }

  // -- told from the state at the call -----------------------------------------

  /** A smooth schedule of one call of sendMessage(m) from `s`, and of whatever the
      chain does during it and afterwards. */
  ghost predicate OneCall(states: seq<State>, actions: seq<Action>, s: State, m: Message) {
    && Behavior(states, actions) && |actions| > 0
    && states[0] == s && actions[0] == Sender(0, m)
    && (forall i :: 0 <= i < |actions| ==> Smooth(states[i], actions[i]))
    && (forall i :: 0 < i < |actions| && actions[i].Sender? ==> !Pc(states[i]).Ready?)
  }

  predicate LeftBehind(s: State, m: Message) {
    AtRest(s) && s.queue != [] && s.queue[|s.queue| - 1] == m
  }

  /** Some such schedule comes to rest with the message still in the queue. */
  ghost predicate CanLeaveBehind(s: State, m: Message) {
    exists states: seq<State>, actions :: OneCall(states, actions, s, m) && LeftBehind(states[|actions|], m)
  }

  /** Nobody trusts a chain that has found the queue empty. */
  predicate NotStranding(s: State) {
    Standing(s, false) && (Busy(s) && Active(s).Clearing? ==> s.queue == [])
  }

  lemma PushDoesNotStrand(s: State, m: Message, stranded: bool)
    requires Inv(s) && Standing(s, stranded) && s.senders == [Ready] && !s.crashed && m.body != []
    requires !(Busy(s) && Active(s).Clearing?)
    ensures Inv(SenderStep(s, 0, m)) && NotStranding(SenderStep(s, 0, m))
  {
    SmoothStep(s, Sender(0, m), stranded);
    assert Busy(SenderStep(s, 0, m)) == Busy(s);
  }

  /** A chain comes to clear the flag only by finding the queue empty. */
  lemma ChainFoundEmpty(s: State, ok: bool)
    requires Busy(s) && (Active(s).Clearing? ==> s.queue == []) && !Active(s).Failing?
    ensures var s' := ChainStep(s, |s.chains| - 1, ok);
            ok && Busy(s') && Active(s').Clearing? ==> s'.queue == []
  {
  }

  lemma NotStrandingStep(s: State, a: Action)
    requires Inv(s) && NotStranding(s) && Enabled(s, a) && Orderly(s, a) && Smooth(s, a)
    requires a.Sender? ==> !Pc(s).Ready?
    ensures Inv(Step(s, a)) && NotStranding(Step(s, a))
  {
    SmoothStep(s, a, false);
    if a.Chain? {
      ChainKeepsInv(s, a.chain, a.ok);
      ChainFoundEmpty(s, a.ok);
    } else {
      assert s.senders == [Pc(s)];
    }
  }

  lemma {:induction false} NothingIsStranded(states: seq<State>, actions: seq<Action>, s: State, m: Message,
                                             stranded: bool, n: nat)
    requires OneCall(states, actions, s, m) && 0 < n <= |actions|
    requires Inv(s) && Standing(s, stranded) && s.senders == [Ready] && !(Busy(s) && Active(s).Clearing?)
    ensures Inv(states[n]) && NotStranding(states[n])
  {
    if n == 1 {
      PushDoesNotStrand(s, m, stranded);
    } else {
      NothingIsStranded(states, actions, s, m, stranded, n - 1);
      NotStrandingStep(states[n - 1], actions[n - 1]);
    }
  }

  lemma Continue(states: seq<State>, actions: seq<Action>, s: State, m: Message, a: Action)
    returns (states': seq<State>, actions': seq<Action>)
    requires OneCall(states, actions, s, m)
    requires var now := states[|actions|];
             && Enabled(now, a) && Orderly(now, a) && Smooth(now, a) && (a.Sender? ==> !Pc(now).Ready?)
    ensures OneCall(states', actions', s, m) && states'[|actions'|] == Step(states[|actions|], a)
  {
    states', actions' := states + [Step(states[|actions|], a)], actions + [a];
  }

  lemma ClearingStrands(s: State, m: Message) returns (states: seq<State>, actions: seq<Action>)
    requires Inv(s) && s.senders == [Ready] && s.open && !s.crashed && m.body != []
    requires Busy(s) && Active(s).Clearing?
    ensures OneCall(states, actions, s, m) && LeftBehind(states[|actions|], m)
  {
    states, actions := [s, SenderStep(s, 0, m)], [Sender(0, m)];
    states, actions := Continue(states, actions, s, m, Sender(0, m));
    states, actions := Continue(states, actions, s, m, Sender(0, m));
    states, actions := Continue(states, actions, s, m, Chain(|s.chains| - 1, true));
  }

  /** Exactly when one call can leave its message behind, told from the state in
      which it is made, in every smooth run: if the chain has found the queue empty
      and is about to clear the flag. */
  lemma CallCanLeaveBehindIffClearing(states: seq<State>, actions: seq<Action>, n: nat, m: Message)
    requires SmoothRun(states, actions) && n <= |actions|
    requires states[n].senders == [Ready] && !states[n].crashed && m.body != []
    ensures CanLeaveBehind(states[n], m) <==> Busy(states[n]) && Active(states[n]).Clearing?
  {
    var s := states[n];
    SmoothReachable(states, actions, n);
    if Busy(s) && Active(s).Clearing? {
      var states', actions' := ClearingStrands(s, m);
    } else {
      forall states': seq<State>, actions' | OneCall(states', actions', s, m)
        ensures !LeftBehind(states'[|actions'|], m)
      {
        NothingIsStranded(states', actions', s, m, LastLoadStrands(states, actions, n), |actions'|);
      }
    }
  }

  // -- it does happen ------------------------------------------------------------

  /** One call and its chain, step by step, up to the flag clear. */
  function Stage(m: Message, k: nat): State {
    var header, body := HeaderOf(m, 0), BodyOf(m, 0);
    var sent := State([m], [m], [], [], true, true, 0, false, [Ready], []);
    if k == 0 then Init(1, true)
    else if k == 1 then sent.(flag := false, senders := [Pushed])
    else if k == 2 then sent.(flag := false, senders := [OpenChecked])
    else if k == 3 then sent.(flag := false, senders := [FlagLoadedClear])
    else if k == 4 then sent.(senders := [FlagSet])
    else if k == 5 then sent.(chains := [HeaderOut(m)])
    else if k == 6 then sent.(chains := [HeaderDone], wire := [header])
    else if k == 7 then sent.(chains := [BodyReady], wire := [header])
    else if k == 8 then sent.(chains := [BodyOut(m)], wire := [header])
    else if k == 9 then sent.(chains := [Popping(true)], wire := [header, body])
    else if k == 10 then sent.(chains := [Testing(true)], wire := [header, body], queue := [], popped := [m])
    else sent.(chains := [Clearing], wire := [header, body], queue := [], popped := [m])
  }

  function StageAction(m: Message, k: nat): Action {
    if k < 5 then Sender(0, m) else Chain(0, true)
  }

  lemma ThreadStageStep(m: Message, k: nat)
    requires m.body != [] && k < 5
    ensures var s, a := Stage(m, k), StageAction(m, k);
            Enabled(s, a) && Orderly(s, a) && Smooth(s, a) && Step(s, a) == Stage(m, k + 1)
  {
  }

  lemma ChainStageStep(m: Message, k: nat)
    requires m.body != [] && 5 <= k < 11
    ensures var s, a := Stage(m, k), StageAction(m, k);
            Enabled(s, a) && Orderly(s, a) && Smooth(s, a) && Step(s, a) == Stage(m, k + 1)
  {
  }

  lemma Extend(states: seq<State>, actions: seq<Action>, a: Action) returns (states': seq<State>, actions': seq<Action>)
    requires SmoothRun(states, actions)
    requires var s := states[|actions|]; Enabled(s, a) && Orderly(s, a) && Smooth(s, a)
    ensures SmoothRun(states', actions') && states'[|actions'|] == Step(states[|actions|], a)
  {
    states', actions' := states + [Step(states[|actions|], a)], actions + [a];
  }

  lemma {:induction false} StageIsReached(m: Message, k: nat) returns (states: seq<State>, actions: seq<Action>)
    requires m.body != [] && k <= 11
    ensures SmoothRun(states, actions) && states[|actions|] == Stage(m, k)
  {
    if k == 0 {
      states, actions := [Init(1, true)], [];
    } else {
      states, actions := StageIsReached(m, k - 1);
      if k <= 5 {
        ThreadStageStep(m, k - 1);
      } else {
        ChainStageStep(m, k - 1);
      }
      states, actions := Extend(states, actions, StageAction(m, k - 1));
    }
  }

  /** Without any error a message stays in the queue: it is pushed between the
      chain's empty test and its flag clear. */
  lemma {:induction false} MessageCanBeLeftBehind(m: Message) returns (states: seq<State>, actions: seq<Action>)
    requires m.body != []
    ensures SmoothRun(states, actions)
    ensures AtRest(states[|actions|]) && states[|actions|].queue == [m]
    ensures LastLoadStrands(states, actions, |actions|)
  {
    states, actions := StageIsReached(m, 11);
    states, actions := Extend(states, actions, Sender(0, m));
    states, actions := Extend(states, actions, Sender(0, m));
    states, actions := Extend(states, actions, Sender(0, m));
    states, actions := Extend(states, actions, Chain(0, true));
    LeftBehindIffLastLoadStrands(states, actions, |actions|);
  }

  // ---------------------------------------------------------------------
  // The next call
  // ---------------------------------------------------------------------

  function Pieces(ms: seq<Message>, connection: nat): seq<Piece> {
    if ms == [] then []
    else
      var m := ms[|ms| - 1];
      Pieces(ms[..|ms| - 1], connection) + [HeaderOf(m, connection), BodyOf(m, connection)]
  }

  /** The only push is of `m`, from the state in which `pushed` had been pushed;
      no write fails. */
  predicate Calm(s: State, a: Action, pushed: seq<Message>, m: Message) {
    match a
    case Sender(_, m') => Pc(s).Ready? ==> m' == m && s.pushed == pushed
    case Chain(_, ok) => ok
    case SetOpen(_) => false
  }

  /** One thread, at rest first, sends `m` once, and no write fails. */
  ghost predicate SendsOnce(states: seq<State>, actions: seq<Action>, m: Message) {
    && Behavior(states, actions)
    && Inv(states[0]) && AtRest(states[0]) && AllNonEmpty(states[0].queue) && m.body != []
    && forall i :: 0 <= i < |actions| ==> Calm(states[i], actions[i], states[0].pushed, m)
  }

  /** The pieces of the active message that are already on the wire. */
  function Begun(s: State): seq<Piece> {
    if Busy(s) && s.queue != [] && (Active(s).HeaderDone? || Active(s).BodyReady? || Active(s).BodyOut?) then
      [HeaderOf(s.queue[0], s.connection)]
    else if Busy(s) && s.queue != [] && Active(s).Popping? then
      [HeaderOf(s.queue[0], s.connection), BodyOf(s.queue[0], s.connection)]
    else []
  }

  predicate OnWire(s0: State, s: State) {
    && s.connection == s0.connection
    && |s0.popped| <= |s.popped|
    && s.wire == s0.wire + Pieces(s.popped[|s0.popped|..], s0.connection) + Begun(s)
  }

  predicate Progressing(s: State) {
    && |s.senders| == 1 && s.open && !s.crashed && AllNonEmpty(s.queue)
    && if !Pc(s).Ready? then !Busy(s) && s.queue != [] && s.flag == Pc(s).FlagSet?
       else if Busy(s) then
         match Active(s)
         case Popping(hadBody) => hadBody
         case Testing(hadBody) => hadBody
         case Failing => false
         case Clearing => s.queue == []
         case _ => true
       else s.queue == [] && !s.flag
  }

  predicate Draining(s0: State, m: Message, s: State) {
    Inv(s) && Progressing(s) && s.pushed == s0.pushed + [m] && OnWire(s0, s)
  }

  /** Steps still to go. */
  function Rank(s: State): nat {
    var q := 7 * |s.queue|;
    match Pc(s)
    case Pushed => q + 4
    case OpenChecked => q + 3
    case FlagLoadedClear => q + 2
    case FlagSet => q + 1
    case Ready =>
      if !Busy(s) then q
      else
        match Active(s)
        case HeaderOut(_) => q
        case HeaderDone => if q == 0 then 0 else q - 1
        case BodyReady => if q == 0 then 0 else q - 2
        case BodyOut(_) => if q == 0 then 0 else q - 3
        case Popping(_) => if q == 0 then 0 else q - 4
        case Testing(_) => q + 2
        case _ => q + 1
  }

  lemma PiecesPopped(popped: seq<Message>, from: nat, m: Message, connection: nat)
    requires from <= |popped|
    ensures Pieces((popped + [m])[from..], connection) ==
            Pieces(popped[from..], connection) + [HeaderOf(m, connection), BodyOf(m, connection)]
  {
    assert (popped + [m])[from..] == popped[from..] + [m];
  }

  lemma PushStartsDraining(s0: State, m: Message)
    requires Inv(s0) && AtRest(s0) && m.body != []
    requires AllNonEmpty(s0.queue)
    ensures Draining(s0, m, SenderStep(s0, 0, m))
    ensures Rank(SenderStep(s0, 0, m)) == 7 * |s0.queue| + 11
  {
    SenderKeepsInv(s0, m);
    assert s0.popped[|s0.popped|..] == [];
  }

  lemma SenderDrains(s0: State, m: Message, s: State, m': Message)
    requires Draining(s0, m, s) && !Pc(s).Ready?
    ensures Draining(s0, m, SenderStep(s, 0, m')) && Rank(SenderStep(s, 0, m')) == Rank(s) - 1
  {
    SenderKeepsInv(s, m');
  }

  lemma ChainProgresses(s: State)
    requires Progressing(s) && Busy(s) && FrontThere(s)
    ensures var s' := ChainStep(s, |s.chains| - 1, true);
            !s'.crashed ==> Progressing(s') && s'.pushed == s.pushed && Rank(s') == Rank(s) - 1
  {
  }

  lemma FrameIsPieces(start: seq<Piece>, popped: seq<Message>, from: nat, m: Message, connection: nat)
    requires from <= |popped|
    ensures start + Pieces(popped[from..], connection) + [HeaderOf(m, connection), BodyOf(m, connection)] ==
            start + Pieces((popped + [m])[from..], connection) + []
  {
    PiecesPopped(popped, from, m, connection);
    AppendIsAssociative(start, Pieces(popped[from..], connection), [HeaderOf(m, connection), BodyOf(m, connection)]);
  }

  lemma PopOnWire(s0: State, s: State)
    requires OnWire(s0, s) && Busy(s) && Active(s).Popping? && s.queue != []
    ensures OnWire(s0, ChainStep(s, |s.chains| - 1, true))
  {
    var s', m := ChainStep(s, |s.chains| - 1, true), s.queue[0];
    assert Begun(s) == [HeaderOf(m, s0.connection), BodyOf(m, s0.connection)] && Begun(s') == [];
    FrameIsPieces(s0.wire, s.popped, |s0.popped|, m, s0.connection);
    assert s'.popped == s.popped + [m] && s'.wire == s.wire;
  }

  lemma WriteOnWire(s0: State, s: State)
    requires OnWire(s0, s) && Busy(s) && IsWrite(Active(s)) && s.queue != [] && Active(s).m == s.queue[0]
    ensures OnWire(s0, ChainStep(s, |s.chains| - 1, true))
  {
    var s' := ChainStep(s, |s.chains| - 1, true);
    var before, p := s0.wire + Pieces(s.popped[|s0.popped|..], s0.connection), s'.wire[|s.wire|];
    assert s'.wire == s.wire + [p];
    AppendIsAssociative(before, Begun(s), [p]);
    assert Begun(s') == Begun(s) + [p];
  }

  lemma SameOnWire(s0: State, s: State, s': State)
    requires OnWire(s0, s) && s'.wire == s.wire && s'.popped == s.popped && s'.connection == s.connection
    requires Begun(s') == Begun(s)
    ensures OnWire(s0, s')
  {
  }

  lemma HandlerOnWire(s0: State, s: State)
    requires OnWire(s0, s) && Busy(s) && !IsWrite(Active(s)) && !Active(s).Popping? && FrontThere(s)
    requires Active(s).HeaderDone? ==> s.queue[0].body != []
    ensures OnWire(s0, ChainStep(s, |s.chains| - 1, true))
  {
    SameOnWire(s0, s, ChainStep(s, |s.chains| - 1, true));
  }

  lemma ChainDrains(s0: State, m: Message, s: State, c: nat)
    requires Draining(s0, m, s) && Enabled(s, Chain(c, true))
    ensures Draining(s0, m, ChainStep(s, c, true)) && Rank(ChainStep(s, c, true)) == Rank(s) - 1
  {
    ChainKeepsInv(s, c, true);
    InvHasFront(s);
    ChainProgresses(s);
    if Active(s).Popping? {
      PopOnWire(s0, s);
    } else if IsWrite(Active(s)) {
      WriteOnWire(s0, s);
    } else {
      HandlerOnWire(s0, s);
    }
  }

  lemma DrainStep(s0: State, m: Message, s: State, a: Action)
    requires Draining(s0, m, s) && Enabled(s, a) && Calm(s, a, s0.pushed, m)
    ensures Draining(s0, m, Step(s, a)) && Rank(Step(s, a)) == Rank(s) - 1
  {
    if a.Sender? {
      assert Step(s, a) == SenderStep(s, 0, a.message);
      SenderDrains(s0, m, s, a.message);
    } else {
      assert Step(s, a) == ChainStep(s, a.chain, true);
      ChainDrains(s0, m, s, a.chain);
    }
  }

  lemma FirstStepIsThePush(s: State, a: Action, m: Message)
    requires Inv(s) && AtRest(s) && AllNonEmpty(s.queue) && m.body != []
    requires Enabled(s, a) && Calm(s, a, s.pushed, m)
    ensures Draining(s, m, Step(s, a)) && Rank(Step(s, a)) == 7 * |s.queue| + 11
  {
    assert a == Sender(0, m);
    PushStartsDraining(s, m);
  }

  lemma {:induction false} DrainingReachable(states: seq<State>, actions: seq<Action>, m: Message, n: nat)
    requires SendsOnce(states, actions, m) && n <= |actions|
    requires n > 0
    ensures Draining(states[0], m, states[n]) && Rank(states[n]) + n == 7 * |states[0].queue| + 12
  {
    if n == 1 {
      FirstStepIsThePush(states[0], actions[0], m);
    } else {
      DrainingReachable(states, actions, m, n - 1);
      DrainStep(states[0], m, states[n - 1], actions[n - 1]);
    }
  }

  lemma RestIsDrained(s0: State, m: Message, s: State)
    requires OnWire(s0, s) && Progressing(s) && AtRest(s)
    requires s.popped + s.queue == s0.popped + s0.queue + [m]
    ensures s.queue == [] && s.popped == s0.popped + s0.queue + [m]
    ensures s.wire == s0.wire + Pieces(s0.queue + [m], s0.connection)
  {
    assert s.popped + s.queue == s.popped;
    assert s.popped[|s0.popped|..] == s0.queue + [m];
    assert s.wire + Begun(s) == s.wire;
  }

  /** Messages left in the queue are sent by the next call, in order and before its
      own message: with non-empty bodies and no write error, every schedule has the
      queue drained, and the flag clear, after the same number of steps, and no
      schedule gets stuck before. */
  lemma NextSendDrainsTheQueue(states: seq<State>, actions: seq<Action>, m: Message)
    requires SendsOnce(states, actions, m) && |actions| > 0
    ensures var s0, s := states[0], states[|actions|]; var total := 7 * |s0.queue| + 12;
            && !s.crashed && |actions| <= total
            && (|actions| == total <==> AtRest(s))
            && (AtRest(s) ==>
                  && s.queue == [] && s.popped == s0.popped + s0.queue + [m]
                  && s.wire == s0.wire + Pieces(s0.queue + [m], s0.connection))
            && (!AtRest(s) ==>
                  if Pc(s).Ready? then Busy(s) && Enabled(s, Chain(|s.chains| - 1, true)) else Enabled(s, Sender(0, m)))
  {
    DrainingReachable(states, actions, m, |actions|);
    var s0, s := states[0], states[|actions|];
    if AtRest(s) {
      RestIsDrained(s0, m, s);
    }
  }
}
