/** sendMessage racing with the completion handlers and with the socket being closed
    and reopened, interleaved at every queue operation and every load or store of
    sendingInProgress (Connection.hpp:79-149, 186-210; MessageQueue.hpp:15-41). */
module SendRace {
  import opened Framing
  import opened Sequences

  /** Where a thread is inside sendMessage. */
  datatype SenderPc = Ready | Pushed | OpenChecked | FlagLoadedClear | FlagSet

  /** One chain of writes and completion handlers. `HeaderOut` and `BodyOut` are
      outstanding writes of a buffer inside message `m`; `HeaderDone` is a finished
      header whose handler has still to look at the front. */
  datatype ChainPc =
    | HeaderOut(m: Message)
    | HeaderDone
    | BodyReady
    | BodyOut(m: Message)
    | Popping(hadBody: bool)
    | Testing(hadBody: bool)
    | Restarting
    | Failing
    | Clearing
    | Ended

  /** What has gone out, and on which connection. */
  datatype Piece = HeaderOf(m: Message, connection: nat) | BodyOf(m: Message, connection: nat)

  /** `connection` counts how often the socket has been reopened. `crashed` records
      a call of front or pop on an empty queue, which is undefined behaviour;
      nothing happens after it. */
  datatype State = State(
    queue: seq<Message>,
    pushed: seq<Message>,
    popped: seq<Message>,
    wire: seq<Piece>,
    flag: bool,
    open: bool,
    connection: nat,
    crashed: bool,
    senders: seq<SenderPc>,
    chains: seq<ChainPc>)

  datatype Action =
    | Sender(thread: nat, message: Message)
    | Chain(chain: nat, ok: bool)
    | SetOpen(open: bool)

  function Init(threads: nat, open: bool): State {
    State([], [], [], [], false, open, 0, false, seq(threads, _ => Ready), [])
  }

  predicate IsWrite(c: ChainPc) {
    c.HeaderOut? || c.BodyOut?
  }

  /** A write succeeds only on an open socket. */
  predicate Enabled(s: State, a: Action) {
    && !s.crashed
    && match a
       case Sender(t, _) => t < |s.senders|
       case Chain(c, ok) => c < |s.chains| && !s.chains[c].Ended? && (ok && IsWrite(s.chains[c]) ==> s.open)
       case SetOpen(_) => true
  }

  function SenderAt(s: State, t: nat, pc: SenderPc): State
    requires t < |s.senders|
  {
    s.(senders := s.senders[t := pc])
  }

  function ChainAt(s: State, c: nat, pc: ChainPc): State
    requires c < |s.chains|
  {
    s.(chains := s.chains[c := pc])
  }

  function SenderStep(s: State, t: nat, m: Message): State
    requires t < |s.senders|
  {
    match s.senders[t]
    case Ready => SenderAt(s, t, Pushed).(queue := s.queue + [m], pushed := s.pushed + [m])
    case Pushed => SenderAt(s, t, if s.open then OpenChecked else Ready)
    case OpenChecked => SenderAt(s, t, if s.flag then Ready else FlagLoadedClear)
    case FlagLoadedClear => SenderAt(s, t, FlagSet).(flag := true)
    case FlagSet =>
      if s.queue == [] then s.(crashed := true)
      else SenderAt(s, t, Ready).(chains := s.chains + [HeaderOut(s.queue[0])])
  }

  function ChainStep(s: State, c: nat, ok: bool): State
    requires c < |s.chains|
  {
    match s.chains[c]
    case HeaderOut(m) =>
      if ok then ChainAt(s, c, HeaderDone).(wire := s.wire + [HeaderOf(m, s.connection)])
      else ChainAt(s, c, Failing)
    case HeaderDone =>
      if s.queue == [] then s.(crashed := true)
      else ChainAt(s, c, if s.queue[0].body != [] then BodyReady else Popping(false))
    case BodyReady =>
      if s.queue == [] then s.(crashed := true) else ChainAt(s, c, BodyOut(s.queue[0]))
    case BodyOut(m) =>
      if ok then ChainAt(s, c, Popping(true)).(wire := s.wire + [BodyOf(m, s.connection)])
      else ChainAt(s, c, Failing)
    case Popping(hadBody) =>
      if s.queue == [] then s.(crashed := true)
      else ChainAt(s, c, Testing(hadBody)).(popped := s.popped + [s.queue[0]], queue := s.queue[1..])
    case Testing(hadBody) =>
      ChainAt(s, c, if s.queue != [] then Restarting else if hadBody then Clearing else Ended)
    case Restarting =>
      if s.queue == [] then s.(crashed := true) else ChainAt(s, c, HeaderOut(s.queue[0]))
    case Failing => ChainAt(s, c, Clearing).(open := false)
    case Clearing => ChainAt(s, c, Ended).(flag := false)
    case Ended => s
  }

  function SetOpenStep(s: State, open: bool): State {
    s.(open := open, connection := s.connection + if open && !s.open then 1 else 0)
  }

  function Step(s: State, a: Action): State
    requires Enabled(s, a)
  {
    match a
    case Sender(t, m) => SenderStep(s, t, m)
    case Chain(c, ok) => ChainStep(s, c, ok)
    case SetOpen(open) => SetOpenStep(s, open)
  }

  /** A chain between a header and its body. */
  predicate MidFrame(s: State, pc: ChainPc) {
    || (pc.HeaderDone? && s.queue != [] && s.queue[0].body != [])
    || pc.BodyReady?
    || pc.BodyOut?
  }

  predicate Exposed(s: State) {
    exists i :: 0 <= i < |s.chains| && MidFrame(s, s.chains[i])
  }

  /** The one thing callers must respect when they reopen the socket. */
  predicate Orderly(s: State, a: Action) {
    a.SetOpen? && a.open && !s.open ==> !Exposed(s)
  }

  ghost predicate Behavior(states: seq<State>, actions: seq<Action>) {
    && |states| == |actions| + 1
    && forall i :: 0 <= i < |actions| ==>
         && Enabled(states[i], actions[i]) && Orderly(states[i], actions[i])
         && states[i + 1] == Step(states[i], actions[i])
  }

  // ---------------------------------------------------------------------
  // Safety
  // ---------------------------------------------------------------------

  /** At most one async_write is outstanding. */
  predicate SingleWriter(s: State) {
    forall i, j :: 0 <= i < j < |s.chains| ==> !(IsWrite(s.chains[i]) && IsWrite(s.chains[j]))
  }

  /** The outstanding write's buffer lies inside the current front. */
  predicate BufferIsFront(s: State) {
    forall i :: 0 <= i < |s.chains| && IsWrite(s.chains[i]) ==> s.queue != [] && s.chains[i].m == s.queue[0]
  }

  /** `q` may come right after `p`: a body after its own header on the same
      connection; a header after a complete frame, or on a later connection. */
  predicate Follows(p: Piece, q: Piece) {
    if q.BodyOf? then p == HeaderOf(q.m, q.connection)
    else p.connection <= q.connection && (p.HeaderOf? && p.m.body != [] ==> p.connection < q.connection)
  }

  /** Every connection carries whole frames and at its end at most a bare header. */
  predicate FramesIntact(wire: seq<Piece>) {
    && (wire != [] ==> wire[0].HeaderOf?)
    && forall k :: 0 < k < |wire| ==> Follows(wire[k - 1], wire[k])
  }

  /** The messages whose last piece has gone out, in that order. */
  function Completed(wire: seq<Piece>): seq<Message> {
    if wire == [] then []
    else
      var p := wire[|wire| - 1];
      Completed(wire[..|wire| - 1]) + if p.BodyOf? || p.m.body == [] then [p.m] else []
  }

  /** Every popped message has gone out complete, once, in the order pushed, and
      no other has, but perhaps the front. */
  predicate NothingLost(s: State) {
    && s.popped + s.queue == s.pushed
    && (Completed(s.wire) == s.popped || (s.queue != [] && Completed(s.wire) == s.popped + [s.queue[0]]))
  }

  predicate Safe(s: State) {
    SingleWriter(s) && BufferIsFront(s) && FramesIntact(s.wire) && NothingLost(s)
  }

  /** The only sender, if there is one. */
  function Pc(s: State): SenderPc {
    if s.senders == [] then Ready else s.senders[0]
  }

  predicate Busy(s: State) {
    s.chains != [] && !s.chains[|s.chains| - 1].Ended?
  }

  function Active(s: State): ChainPc
    requires Busy(s)
  {
    s.chains[|s.chains| - 1]
  }

  /** The last piece is the front's header, on the open connection if its body is
      still to come. */
  predicate HeaderSent(s: State) {
    && s.queue != [] && s.wire != []
    && var p := s.wire[|s.wire| - 1];
       p.HeaderOf? && p.m == s.queue[0] && (s.open && p.m.body != [] ==> p.connection == s.connection)
  }

  predicate ChainInv(s: State)
    requires Busy(s)
  {
    match Active(s)
    case HeaderOut(m) => s.queue != [] && m == s.queue[0]
    case HeaderDone => HeaderSent(s)
    case BodyReady => HeaderSent(s) && s.queue[0].body != []
    case BodyOut(m) => HeaderSent(s) && s.queue[0].body != [] && m == s.queue[0]
    case Popping(hadBody) => s.queue != [] && hadBody == (s.queue[0].body != [])
    case Restarting => s.queue != []
    case _ => true
  }

  /** The open connection ends in a header whose body is missing. */
  predicate Dangling(s: State) {
    && s.open && s.wire != []
    && var p := s.wire[|s.wire| - 1]; p.HeaderOf? && p.m.body != [] && p.connection == s.connection
  }

  /** Gone out complete but not popped yet. */
  function Unpopped(s: State): seq<Message> {
    if Busy(s) && s.queue != [] && (Active(s).Popping? || (Active(s).HeaderDone? && s.queue[0].body == [])) then
      [s.queue[0]]
    else []
  }

  predicate WireInv(s: State) {
    && FramesIntact(s.wire)
    && (s.wire != [] ==> s.wire[|s.wire| - 1].connection <= s.connection)
    && (Dangling(s) ==> Busy(s) && (MidFrame(s, Active(s)) || Active(s).Failing?))
    && Completed(s.wire) == s.popped + Unpopped(s)
  }

  predicate Inv(s: State) {
    && |s.senders| <= 1
    && (forall i :: 0 <= i < |s.chains| - 1 ==> s.chains[i].Ended?)
    && (Busy(s) ==> s.flag && !Pc(s).FlagLoadedClear? && !Pc(s).FlagSet? && ChainInv(s))
    && (Pc(s).FlagLoadedClear? ==> !s.flag)
    && (Pc(s).FlagSet? ==> s.flag)
    && (s.crashed ==> Pc(s).FlagSet? && s.queue == [])
    && WireInv(s)
    && s.popped + s.queue == s.pushed
  }

  lemma InvIsSafe(s: State)
    requires Inv(s)
    ensures Safe(s)
  {
    assert Unpopped(s) == [] ==> s.popped + Unpopped(s) == s.popped;
  }

  /** What the chain finds in the queue: all of Inv that matters to its progress. */
  predicate FrontThere(s: State)
    requires Busy(s)
  {
    match Active(s)
    case Popping(hadBody) => s.queue != [] && hadBody == (s.queue[0].body != [])
    case Testing(_) => true
    case Failing => true
    case Clearing => true
    case _ => s.queue != []
  }

  lemma InvHasFront(s: State)
    requires Inv(s) && Busy(s)
    ensures FrontThere(s)
  {
  }

  lemma PushKeepsInv(s: State, m: Message)
    requires Inv(s) && !s.crashed && s.senders == [Ready]
    ensures Inv(SenderStep(s, 0, m))
  {
    var s' := SenderStep(s, 0, m);
    AppendIsAssociative(s.popped, s.queue, [m]);
    assert Busy(s') == Busy(s) && Dangling(s') == Dangling(s);
    assert Unpopped(s') == Unpopped(s);
  }

  /** Nothing is half sent, before and after. */
  lemma BetweenFrames(s: State, s': State)
    requires WireInv(s) && s' == s.(chains := s'.chains, senders := s'.senders, flag := s'.flag)
    requires !Dangling(s) && Unpopped(s) == [] && Unpopped(s') == []
    ensures WireInv(s')
  {
    assert Dangling(s') == Dangling(s);
  }

  lemma StartKeepsInv(s: State, m: Message)
    requires Inv(s) && !s.crashed && s.senders == [FlagSet]
    ensures Inv(SenderStep(s, 0, m))
  {
    assert !Busy(s);
    if s.queue != [] {
      var s' := SenderStep(s, 0, m);
      assert Busy(s') && Active(s') == HeaderOut(s.queue[0]) && s'.senders == [Ready];
      BetweenFrames(s, s');
    }
  }

  lemma ThreadMovesOn(s: State, s': State)
    requires WireInv(s) && s' == s.(senders := s'.senders, flag := s'.flag)
    ensures WireInv(s') && Busy(s') == Busy(s) && (Busy(s) ==> ChainInv(s) == ChainInv(s'))
  {
    assert Dangling(s') == Dangling(s) && Unpopped(s') == Unpopped(s);
  }

  lemma TestKeepsInv(s: State, m: Message)
    requires Inv(s) && !s.crashed && |s.senders| == 1 && !Pc(s).Ready? && !Pc(s).FlagSet?
    ensures Inv(SenderStep(s, 0, m))
  {
    ThreadMovesOn(s, SenderStep(s, 0, m));
  }

  lemma SenderKeepsInv(s: State, m: Message)
    requires Inv(s) && Enabled(s, Sender(0, m))
    ensures Inv(SenderStep(s, 0, m))
  {
    assert s.senders == [Pc(s)];
    match Pc(s)
    case Ready => PushKeepsInv(s, m);
    case FlagSet => StartKeepsInv(s, m);
    case _ => TestKeepsInv(s, m);
  }

  lemma WireAppend(wire: seq<Piece>, p: Piece)
    requires FramesIntact(wire) && if wire == [] then p.HeaderOf? else Follows(wire[|wire| - 1], p)
    ensures FramesIntact(wire + [p])
    ensures Completed(wire + [p]) == Completed(wire) + if p.BodyOf? || p.m.body == [] then [p.m] else []
  {
    assert (wire + [p])[..|wire|] == wire;
  }

  /** Moving the active chain on, with everything it needs at its new place. */
  lemma ChainAtKeepsInv(s: State, s': State, pc: ChainPc)
    requires Inv(s) && Busy(s) && !s.crashed
    requires s' == ChainAt(s, |s.chains| - 1, pc).(
                     queue := s'.queue, popped := s'.popped, wire := s'.wire, open := s'.open, flag := s'.flag)
    requires s'.popped + s'.queue == s.pushed
    requires WireInv(s')
    requires pc.Ended? || (s'.flag && ChainInv(s'))
    ensures Inv(s') && !s'.crashed
  {
  }

  lemma FailedWriteKeepsInv(s: State)
    requires Inv(s) && Busy(s) && !s.crashed && IsWrite(Active(s))
    ensures Inv(ChainAt(s, |s.chains| - 1, Failing))
  {
    var s' := ChainAt(s, |s.chains| - 1, Failing);
    assert Unpopped(s') == Unpopped(s) == [];
    ChainAtKeepsInv(s, s', Failing);
  }

  lemma HeaderFollows(s: State, m: Message)
    requires WireInv(s) && s.open && !Dangling(s) && s.wire != []
    ensures Follows(s.wire[|s.wire| - 1], HeaderOf(m, s.connection))
  {
  }

  lemma HeaderWrittenKeepsWire(s: State, s': State)
    requires WireInv(s) && s.open && !Dangling(s) && Unpopped(s) == [] && s.queue != []
    requires Busy(s') && Active(s') == HeaderDone
    requires s' == s.(chains := s'.chains, wire := s.wire + [HeaderOf(s.queue[0], s.connection)])
    ensures WireInv(s') && HeaderSent(s')
  {
    var p := HeaderOf(s.queue[0], s.connection);
    if s.wire != [] {
      HeaderFollows(s, p.m);
    }
    WireAppend(s.wire, p);
    assert Completed(s.wire) == s.popped;
    assert Unpopped(s') == if p.m.body == [] then [p.m] else [];
  }

  lemma HeaderWrittenKeepsInv(s: State)
    requires Inv(s) && Busy(s) && !s.crashed && Active(s).HeaderOut? && s.open
    ensures Inv(ChainStep(s, |s.chains| - 1, true)) && !ChainStep(s, |s.chains| - 1, true).crashed
  {
    HeaderWrittenKeepsWire(s, ChainStep(s, |s.chains| - 1, true));
    ChainAtKeepsInv(s, ChainStep(s, |s.chains| - 1, true), HeaderDone);
  }

  lemma BodyWrittenKeepsWire(s: State, s': State)
    requires WireInv(s) && HeaderSent(s) && s.open && s.queue[0].body != [] && Unpopped(s) == []
    requires Busy(s') && Active(s') == Popping(true)
    requires s' == s.(chains := s'.chains, wire := s.wire + [BodyOf(s.queue[0], s.connection)])
    ensures WireInv(s')
  {
    WireAppend(s.wire, BodyOf(s.queue[0], s.connection));
    assert Completed(s.wire) == s.popped;
    assert Unpopped(s') == [s.queue[0]];
  }

  lemma BodyWrittenKeepsInv(s: State)
    requires Inv(s) && Busy(s) && !s.crashed && Active(s).BodyOut? && s.open
    ensures Inv(ChainStep(s, |s.chains| - 1, true)) && !ChainStep(s, |s.chains| - 1, true).crashed
  {
    BodyWrittenKeepsWire(s, ChainStep(s, |s.chains| - 1, true));
    ChainAtKeepsInv(s, ChainStep(s, |s.chains| - 1, true), Popping(true));
  }

  lemma PoppingKeepsInv(s: State, ok: bool)
    requires Inv(s) && Busy(s) && !s.crashed && Active(s).Popping?
    ensures Inv(ChainStep(s, |s.chains| - 1, ok)) && !ChainStep(s, |s.chains| - 1, ok).crashed
  {
    var s' := ChainStep(s, |s.chains| - 1, ok);
    assert Unpopped(s) == [s.queue[0]] && Unpopped(s') == [];
    assert s'.popped + [] == s'.popped;
    assert s'.popped + s'.queue == s.popped + s.queue;
    ChainAtKeepsInv(s, s', Testing(Active(s).hadBody));
  }

  /** The header handler looks at the front, and starts its body if it has one. */
  lemma FrontKeepsWire(s: State, s': State)
    requires WireInv(s) && s.queue != [] && Busy(s) && s' == s.(chains := s'.chains) && Busy(s')
    requires if Active(s).HeaderDone? then Active(s') == (if s.queue[0].body != [] then BodyReady else Popping(false))
             else Active(s).BodyReady? && Active(s').BodyOut?
    ensures WireInv(s')
  {
    assert Unpopped(s') == Unpopped(s) && Dangling(s') == Dangling(s);
  }

  lemma FrontKeepsInv(s: State, ok: bool)
    requires Inv(s) && Busy(s) && !s.crashed && (Active(s).HeaderDone? || Active(s).BodyReady?)
    ensures Inv(ChainStep(s, |s.chains| - 1, ok)) && !ChainStep(s, |s.chains| - 1, ok).crashed
  {
    var s' := ChainStep(s, |s.chains| - 1, ok);
    FrontKeepsWire(s, s');
    ChainAtKeepsInv(s, s', Active(s'));
  }

  lemma TestingKeepsInv(s: State, ok: bool)
    requires Inv(s) && Busy(s) && !s.crashed && Active(s).Testing?
    ensures Inv(ChainStep(s, |s.chains| - 1, ok)) && !ChainStep(s, |s.chains| - 1, ok).crashed
  {
    var s' := ChainStep(s, |s.chains| - 1, ok);
    BetweenFrames(s, s');
    ChainAtKeepsInv(s, s', s'.chains[|s.chains| - 1]);
  }

  lemma RestartingKeepsInv(s: State, ok: bool)
    requires Inv(s) && Busy(s) && !s.crashed && Active(s).Restarting?
    ensures Inv(ChainStep(s, |s.chains| - 1, ok)) && !ChainStep(s, |s.chains| - 1, ok).crashed
  {
    var s' := ChainStep(s, |s.chains| - 1, ok);
    BetweenFrames(s, s');
    ChainAtKeepsInv(s, s', HeaderOut(s.queue[0]));
  }

  lemma FailingKeepsInv(s: State, ok: bool)
    requires Inv(s) && Busy(s) && !s.crashed && Active(s).Failing?
    ensures Inv(ChainStep(s, |s.chains| - 1, ok)) && !ChainStep(s, |s.chains| - 1, ok).crashed
  {
    var s' := ChainStep(s, |s.chains| - 1, ok);
    assert Unpopped(s') == Unpopped(s) == [] && !Dangling(s');
    ChainAtKeepsInv(s, s', Clearing);
  }

  lemma ClearingKeepsInv(s: State, ok: bool)
    requires Inv(s) && Busy(s) && !s.crashed && Active(s).Clearing?
    ensures Inv(ChainStep(s, |s.chains| - 1, ok)) && !ChainStep(s, |s.chains| - 1, ok).crashed
  {
    var s' := ChainStep(s, |s.chains| - 1, ok);
    BetweenFrames(s, s');
    ChainAtKeepsInv(s, s', Ended);
  }

  lemma ChainKeepsInv(s: State, c: nat, ok: bool)
    requires Inv(s) && Enabled(s, Chain(c, ok))
    ensures c == |s.chains| - 1 && Busy(s)
    ensures Inv(ChainStep(s, c, ok)) && !ChainStep(s, c, ok).crashed
  {
    if IsWrite(s.chains[c]) && !ok {
      FailedWriteKeepsInv(s);
    } else {
      match s.chains[c]
      case HeaderOut(_) => HeaderWrittenKeepsInv(s);
      case BodyOut(_) => BodyWrittenKeepsInv(s);
      case Popping(_) => PoppingKeepsInv(s, ok);
      case HeaderDone => FrontKeepsInv(s, ok);
      case BodyReady => FrontKeepsInv(s, ok);
      case Failing => FailingKeepsInv(s, ok);
      case Clearing => ClearingKeepsInv(s, ok);
      case Restarting => RestartingKeepsInv(s, ok);
      case _ => TestingKeepsInv(s, ok);
    }
  }

  lemma SetOpenKeepsInv(s: State, open: bool)
    requires Inv(s) && Orderly(s, SetOpen(open))
    ensures Inv(SetOpenStep(s, open))
  {
    var s' := SetOpenStep(s, open);
    assert Busy(s') == Busy(s) && Unpopped(s') == Unpopped(s);
    if open && !s.open && Busy(s) {
      assert !MidFrame(s, s.chains[|s.chains| - 1]);
    }
  }

  lemma {:induction false} StepKeepsInv(s: State, a: Action)
    requires Inv(s) && Enabled(s, a) && Orderly(s, a)
    ensures Inv(Step(s, a))
  {
    match a
    case Sender(t, m) =>
      assert t == 0;
      SenderKeepsInv(s, m);
    case Chain(c, ok) => ChainKeepsInv(s, c, ok);
    case SetOpen(open) => SetOpenKeepsInv(s, open);
  }

  lemma {:induction false} InvPersists(states: seq<State>, actions: seq<Action>, n: nat)
    requires Behavior(states, actions) && Inv(states[0]) && n <= |actions|
    ensures Inv(states[n])
  {
    if n > 0 {
      InvPersists(states, actions, n - 1);
      StepKeepsInv(states[n - 1], actions[n - 1]);
    }
  }

  ghost predicate AlwaysSafe(threads: nat) {
    forall states, actions, open :: Behavior(states, actions) && states[0] == Init(threads, open) ==>
      Safe(states[|actions|])
  }

  /** With one sending thread, whatever the schedule, the write errors and the
      socket do, as long as it is not reopened in the middle of a frame: one write
      at a time, from the front of the queue, no torn frame on any connection,
      nothing lost, repeated or reordered. With two threads this fails. */
  lemma SafeIffOneSender(threads: nat)
    ensures AlwaysSafe(threads) <==> threads <= 1
  {
    if threads <= 1 {
      forall states, actions, open | Behavior(states, actions) && states[0] == Init(threads, open)
        ensures Safe(states[|actions|])
      {
        InvPersists(states, actions, |actions|);
        InvIsSafe(states[|actions|]);
      }
    } else {
      var states, actions := TwoSenders(threads);
      assert !Safe(states[|actions|]);
    }
  }

  lemma Extend(states: seq<State>, actions: seq<Action>, a: Action) returns (states': seq<State>, actions': seq<Action>)
    requires Behavior(states, actions) && Enabled(states[|actions|], a) && Orderly(states[|actions|], a)
    ensures Behavior(states', actions') && states'[0] == states[0]
    ensures states'[|actions'|] == Step(states[|actions|], a)
  {
    states', actions' := states + [Step(states[|actions|], a)], actions + [a];
  }

  /** A thread that finds the flag clear is about to set it. */
  lemma LoadClear(states: seq<State>, actions: seq<Action>, t: nat, m: Message)
    returns (states': seq<State>, actions': seq<Action>)
    requires Behavior(states, actions)
    requires var s := states[|actions|];
             !s.crashed && !s.flag && s.open && t < |s.senders| && s.senders[t] == Ready
    ensures Behavior(states', actions') && states'[0] == states[0]
    ensures var s := states[|actions|];
            states'[|actions'|] ==
            SenderAt(s, t, FlagLoadedClear).(queue := s.queue + [m], pushed := s.pushed + [m])
  {
    states', actions' := Extend(states, actions, Sender(t, m));
    states', actions' := Extend(states', actions', Sender(t, m));
    states', actions' := Extend(states', actions', Sender(t, m));
    assert states[|actions|].senders[t := Pushed][t := OpenChecked][t := FlagLoadedClear]
        == states[|actions|].senders[t := FlagLoadedClear];
  }

  lemma StartWriting(states: seq<State>, actions: seq<Action>, t: nat, m: Message)
    returns (states': seq<State>, actions': seq<Action>)
    requires Behavior(states, actions)
    requires var s := states[|actions|];
             !s.crashed && t < |s.senders| && s.senders[t] == FlagLoadedClear && s.queue != []
    ensures Behavior(states', actions') && states'[0] == states[0]
    ensures var s := states[|actions|];
            states'[|actions'|] ==
            SenderAt(s, t, Ready).(flag := true, chains := s.chains + [HeaderOut(s.queue[0])])
  {
    states', actions' := Extend(states, actions, Sender(t, m));
    states', actions' := Extend(states', actions', Sender(t, m));
    assert states[|actions|].senders[t := FlagSet][t := Ready] == states[|actions|].senders[t := Ready];
  }

  /** Two threads that both load the flag before either stores it both write. */
  lemma TwoSenders(threads: nat) returns (states: seq<State>, actions: seq<Action>)
    requires threads >= 2
    ensures Behavior(states, actions) && states[0] == Init(threads, true)
    ensures !SingleWriter(states[|actions|])
  {
    var m := Message(Header(1, 1), [0]);
    states, actions := [Init(threads, true)], [];
    states, actions := LoadClear(states, actions, 0, m);
    states, actions := LoadClear(states, actions, 1, m);
    states, actions := StartWriting(states, actions, 0, m);
    states, actions := StartWriting(states, actions, 1, m);
    var s := states[|actions|];
    assert IsWrite(s.chains[0]) && IsWrite(s.chains[1]);
  }

  // ---------------------------------------------------------------------
  // Calls that only queue, and writes that fail
  // ---------------------------------------------------------------------

  /** The whole call as one step, if the socket is closed or the flag set throughout:
      the message is queued and nothing else changes. */
  lemma ClosedOrBusyOnlyQueues(s: State, t: nat, m: Message, m': Message)
    requires t < |s.senders| && s.senders[t].Ready? && (s.open ==> s.flag)
    ensures var pushed := SenderStep(s, t, m);
            var tested := SenderStep(pushed, t, m');
            var returned := if s.open then SenderStep(tested, t, m') else tested;
            returned == s.(queue := s.queue + [m], pushed := s.pushed + [m])
  {
    assert s.senders[t := Pushed][t := Ready] == s.senders[t := Ready] == s.senders;
    assert s.senders[t := Pushed][t := OpenChecked][t := Ready] == s.senders[t := Ready];
  }

  /** And if the socket is open and the flag clear throughout, it becomes a writer of
      the front, with the flag set. */
  lemma OpenAndClearWrites(s: State, t: nat, m: Message, m': Message)
    requires t < |s.senders| && s.senders[t].Ready? && s.open && !s.flag
    ensures var loaded := SenderStep(SenderStep(SenderStep(s, t, m), t, m'), t, m');
            SenderStep(SenderStep(loaded, t, m'), t, m') ==
            s.(queue := s.queue + [m], pushed := s.pushed + [m], flag := true,
               chains := s.chains + [HeaderOut((s.queue + [m])[0])])
  {
    var pushed := s.(queue := s.queue + [m], pushed := s.pushed + [m]);
    assert SenderStep(s, t, m) == SenderAt(pushed, t, Pushed);
    assert s.senders[t := Pushed][t := OpenChecked] == s.senders[t := OpenChecked];
    assert s.senders[t := OpenChecked][t := FlagLoadedClear] == s.senders[t := FlagLoadedClear];
    assert s.senders[t := FlagLoadedClear][t := FlagSet] == s.senders[t := FlagSet];
    assert s.senders[t := FlagSet][t := Ready] == s.senders;
  }

  /** A failed write: the chain closes the socket, clears the flag and ends, leaving
      queue and wire alone. */
  lemma FailedWriteClosesAndClears(s: State, c: nat, ok: bool)
    requires c < |s.chains| && IsWrite(s.chains[c])
    ensures ChainStep(ChainStep(ChainStep(s, c, false), c, ok), c, ok) ==
            s.(chains := s.chains[c := Ended], open := false, flag := false)
  {
    assert s.chains[c := Failing][c := Clearing][c := Ended] == s.chains[c := Ended];
  }

  // ---------------------------------------------------------------------
  // When the socket may be reopened
  // ---------------------------------------------------------------------

  /** Reopening the socket now tears no frame, whatever happens afterwards. */
  ghost predicate HarmlessToReopen(s: State) {
    forall states: seq<State>, actions :: Behavior(states, actions) && states[0] == SetOpenStep(s, true) ==>
      FramesIntact(states[|actions|].wire)
  }

  lemma ExposedIsMidFrame(s: State)
    requires Inv(s)
    ensures Exposed(s) <==> Busy(s) && MidFrame(s, Active(s))
  {
    if Busy(s) && MidFrame(s, Active(s)) {
      assert MidFrame(s, s.chains[|s.chains| - 1]);
    }
  }

  /** With one thread, a closed socket may be reopened without tearing a frame if
      and only if no chain stands between a header and its body. */
  lemma ReopeningIsHarmlessIffNotExposed(s: State)
    requires Inv(s) && !s.open && !s.crashed
    ensures HarmlessToReopen(s) <==> !Exposed(s)
  {
    if !Exposed(s) {
      SetOpenKeepsInv(s, true);
      forall states: seq<State>, actions | Behavior(states, actions) && states[0] == SetOpenStep(s, true)
        ensures FramesIntact(states[|actions|].wire)
      {
        InvPersists(states, actions, |actions|);
      }
    } else {
      ExposedIsMidFrame(s);
      var states, actions := FinishFrame([SetOpenStep(s, true)], []);
    }
  }

  /** The chain goes on and puts the body on the new connection. */
  lemma FinishFrame(states: seq<State>, actions: seq<Action>)
    returns (states': seq<State>, actions': seq<Action>)
    requires Behavior(states, actions)
    requires var s := states[|actions|];
             && s.open && !s.crashed && s.queue != [] && s.wire != []
             && s.wire[|s.wire| - 1].connection < s.connection
             && Busy(s) && MidFrame(s, Active(s))
    ensures Behavior(states', actions') && states'[0] == states[0]
    ensures !FramesIntact(states'[|actions'|].wire)
    decreases var pc := Active(states[|actions|]); if pc.HeaderDone? then 2 else if pc.BodyReady? then 1 else 0
  {
    var s := states[|actions|];
    states', actions' := Extend(states, actions, Chain(|s.chains| - 1, true));
    if Active(s).BodyOut? {
      var wire := states'[|actions'|].wire;
      assert !Follows(wire[|s.wire| - 1], wire[|s.wire|]);
    } else {
      states', actions' := FinishFrame(states', actions');
    }
  }

  /** Such a state is reached by an ordinary run: the header is out, and the read
      side closes the socket before the handler runs. */
  lemma ExposedIsReachable(m: Message) returns (states: seq<State>, actions: seq<Action>)
    requires m.body != []
    ensures Behavior(states, actions) && states[0] == Init(1, true)
    ensures var s := states[|actions|]; Inv(s) && Exposed(s) && !s.open && !s.crashed
  {
    states, actions := [Init(1, true)], [];
    states, actions := LoadClear(states, actions, 0, m);
    states, actions := StartWriting(states, actions, 0, m);
    states, actions := Extend(states, actions, Chain(0, true));
    states, actions := Extend(states, actions, SetOpen(false));
    assert MidFrame(states[|actions|], states[|actions|].chains[0]);
    InvPersists(states, actions, |actions|);
  }
}
