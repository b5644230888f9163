/** The write side of TcpConnection as a state machine over its completion
    handlers (Connection.hpp:79-149, 186-235), and its properties over all runs.
    Each handler is one step; SendRace splits them further. */
module SendChannel {
  import opened Framing
  import opened Wrappers
  import opened Sequences

  /** `Unconnected` is open but has no connection: a connect left it so. */
  datatype Socket = Null | Closed | Unconnected | Connected

  datatype Part = HeaderPart | BodyPart

  /** The outstanding async_write; `done` bytes of its buffer are on the wire. The
      rest goes out on whatever connection the socket has by then. */
  datatype WriteOp = NoWrite | Writing(part: Part, done: nat)

  /** One connection that has been written to: the bytes it has carried, and the
      positions in the log of pushed messages where it started and up to which it
      has completed. */
  datatype Stream = Stream(first: nat, next: nat, bytes: seq<Byte>)

  /** `unwritten` if the socket's connection has carried nothing yet. */
  datatype Channel = Channel(
    popped: seq<Message>,
    queue: seq<Message>,
    sending: bool,
    write: WriteOp,
    socket: Socket,
    unwritten: bool,
    past: seq<Stream>,
    current: Option<Stream>)

  datatype Event =
    | Send(message: Message)
    | Transfer(count: nat)
    | WriteDone(bytes: nat)
    | WriteFailed
    | Disconnect
    | Connect(established: bool, leavesOpen: bool)
    | MakeNewSocket

  const INITIAL: Channel := Channel([], [], false, NoWrite, Closed, false, [], None)

  predicate IsOpen(s: Socket) {
    s.Unconnected? || s.Connected?
  }

  /** Every message ever pushed. */
  function Log(c: Channel): seq<Message> {
    c.popped + c.queue
  }

  /** All connections written to so far, oldest first. */
  function Streams(c: Channel): seq<Stream> {
    c.past + if c.current.Some? then [c.current.value] else []
  }

  function Buffer(c: Channel): seq<Byte>
    requires c.write.Writing? && c.queue != []
  {
    if c.write.part.HeaderPart? then EncodeHeader(c.queue[0].header) else c.queue[0].body
  }

  /** A write always has a front to refer to; Step keeps this. */
  predicate WellFormed(c: Channel) {
    && (c.write.Writing? ==> c.queue != [] && c.write.done <= |Buffer(c)|)
    && (c.write.Writing? && c.write.part.BodyPart? ==> c.queue[0].body != [])
    && (c.socket.Connected? && !c.unwritten ==> c.current.Some?)
  }

  /** A completion handler runs only for an outstanding write. */
  predicate Possible(c: Channel, e: Event)
    requires WellFormed(c)
  {
    match e
    case Transfer(n) => c.write.Writing? && c.socket.Connected? && c.write.done < c.write.done + n <= |Buffer(c)|
    case WriteDone(_) => c.write.Writing?
    case WriteFailed => c.write.Writing?
    case _ => true
  }

  /** async_write completes with all bytes on the wire, or with an error. */
  predicate Enabled(c: Channel, e: Event)
    requires WellFormed(c)
  {
    Possible(c, e) && (e.WriteDone? ==> e.bytes == c.write.done == |Buffer(c)|)
  }

  /** How much of the front's frame the write has put on the wire. */
  function Progress(c: Channel): nat
    requires c.write.Writing?
  {
    if c.write.part.HeaderPart? then c.write.done else HEADER_SIZE + c.write.done
  }

  /** The front's frame has been begun but is not completely on the wire. */
  predicate Exposed(c: Channel) {
    c.write.Writing? && c.queue != [] && 0 < Progress(c) < |Frame(c.queue[0])|
  }

  predicate Opens(c: Channel, e: Event) {
    e.Connect? && e.established && !c.socket.Null? && !c.socket.Connected?
  }

  /** The one thing callers must respect when they open a connection. */
  predicate Orderly(c: Channel, e: Event) {
    Opens(c, e) ==> !Exposed(c)
  }

  function StartHeader(c: Channel): Channel {
    if c.socket.Null? then c else c.(write := Writing(HeaderPart, 0))
  }

  /** The first transfer on a connection opens the record of what it carries. */
  function OnRecord(c: Channel): Channel {
    if c.unwritten then
      c.(unwritten := false, past := Streams(c), current := Some(Stream(|c.popped|, |c.popped|, [])))
    else c
  }

  function Pop(c: Channel): Channel
    requires c.queue != []
  {
    var current := if c.current.Some? then Some(c.current.value.(next := c.current.value.next + 1)) else None;
    c.(popped := c.popped + [c.queue[0]], queue := c.queue[1..], write := NoWrite, current := current)
  }

  function CloseSocket(s: Socket): Socket {
    if IsOpen(s) then Closed else s
  }

  /** The completion handlers, without error: Connection.hpp:103-122, 138-148. */
  function Completed(c: Channel, bytes: nat): (c': Channel)
    requires WellFormed(c) && Possible(c, WriteDone(bytes))
    ensures c.socket != Null ==> WellFormed(c') && c'.socket == c.socket
  {
    if c.write.part.HeaderPart? then
      if bytes != HEADER_SIZE then StartHeader(c.(write := NoWrite))
      else if c.queue[0].body != [] then c.(write := Writing(BodyPart, 0))
      else if |c.queue| > 1 then StartHeader(Pop(c)) else Pop(c)
    else if |c.queue| > 1 then StartHeader(Pop(c)) else Pop(c).(sending := false)
  }

  function Step(c: Channel, e: Event): (c': Channel)
    requires WellFormed(c) && Possible(c, e)
    ensures c.socket != Null ==> WellFormed(c') && c'.socket != Null
  {
    match e
    case Send(m) =>
      var pushed := c.(queue := c.queue + [m]);
      if IsOpen(c.socket) && !c.sending then StartHeader(pushed.(sending := true)) else pushed
    case Transfer(n) =>
      var r, more := OnRecord(c), Buffer(c)[c.write.done..c.write.done + n];
      r.(current := Some(r.current.value.(bytes := r.current.value.bytes + more)),
         write := c.write.(done := c.write.done + n))
    case WriteDone(bytes) => Completed(c, bytes)
    case WriteFailed => c.(write := NoWrite, sending := false, socket := CloseSocket(c.socket))
    case Disconnect => c.(socket := CloseSocket(c.socket))
    case Connect(established, leavesOpen) =>
      if c.socket.Null? || c.socket.Connected? then c
      else if established then c.(socket := Connected, unwritten := true)
      else c.(socket := if leavesOpen then Unconnected else c.socket)
    case MakeNewSocket => c.(socket := Closed)
  }

  ghost predicate Behavior(states: seq<Channel>, events: seq<Event>) {
    && |states| == |events| + 1
    && forall i :: 0 <= i < |events| ==>
         && WellFormed(states[i]) && Enabled(states[i], events[i]) && Orderly(states[i], events[i])
         && states[i + 1] == Step(states[i], events[i])
  }

  function Pushed(events: seq<Event>): seq<Message> {
    if events == [] then []
    else
      var n := |events| - 1;
      Pushed(events[..n]) + if events[n].Send? then [events[n].message] else []
  }

  // ---------------------------------------------------------------------
  // Delivery across reconnects
  // ---------------------------------------------------------------------

  function NextFrame(log: seq<Message>, n: nat): seq<Byte> {
    if n < |log| then Frame(log[n]) else []
  }

  /** How far into the frame of message `next` the stream got. */
  function Partial(log: seq<Message>, s: Stream): int
    requires s.first <= s.next <= |log|
  {
    |s.bytes| - |Frames(log[s.first..s.next])|
  }

  /** `s` carries the complete frames of messages first..next of the log and then
      at most a part of the frame of message `next`. */
  predicate Carries(log: seq<Message>, s: Stream) {
    && s.first <= s.next <= |log|
    && 0 <= Partial(log, s) <= |NextFrame(log, s.next)|
    && s.bytes == Frames(log[s.first..s.next]) + NextFrame(log, s.next)[..Partial(log, s)]
  }

  predicate AllCarry(log: seq<Message>, streams: seq<Stream>) {
    forall s <- streams :: Carries(log, s)
  }

  /** Each stream starts where the one before it stopped; the first at 0. */
  predicate Tile(streams: seq<Stream>, end: nat) {
    if streams == [] then end == 0
    else
      var n := |streams| - 1;
      streams[n].first <= streams[n].next == end && Tile(streams[..n], streams[n].first)
  }

  /** The current stream has got as far into the front's frame as the write says;
      on a connection that has carried nothing yet, no frame is half done. */
  predicate AtProgress(c: Channel, s: Stream) {
    && Carries(Log(c), s)
    && s.next == |c.popped|
    && (c.write.Writing? && Progress(c) > 0 ==> Partial(Log(c), s) == Progress(c))
    && ((c.write.Writing? ==> Progress(c) == 0) && c.socket.Connected? && !c.unwritten ==> Partial(Log(c), s) == 0)
  }

  predicate Inv(c: Channel) {
    && WellFormed(c)
    && c.socket != Null
    && (c.write.Writing? ==> c.sending)
    && (c.write.Writing? && Progress(c) > 0 ==> c.current.Some?)
    && !(Exposed(c) && c.socket.Connected? && c.unwritten)
    && AllCarry(Log(c), c.past)
    && (c.current.Some? ==> AtProgress(c, c.current.value))
    && Tile(Streams(c), |c.popped|)
  }

  lemma CarriesGrows(log: seq<Message>, m: Message, s: Stream)
    requires Carries(log, s)
    ensures Carries(log + [m], s) && Partial(log + [m], s) == Partial(log, s)
  {
    assert (log + [m])[s.first..s.next] == log[s.first..s.next];
  }

  lemma TileLast(streams: seq<Stream>, s: Stream, t: Stream)
    requires Tile(streams + [s], s.next) && t.first == s.first && t.first <= t.next
    ensures Tile(streams + [t], t.next)
  {
    assert (streams + [s])[..|streams|] == streams == (streams + [t])[..|streams|];
  }

  lemma EmptyStreamCarries(log: seq<Message>, n: nat)
    requires n <= |log|
    ensures var s := Stream(n, n, []); Carries(log, s) && Partial(log, s) == 0
  {
  }

  lemma StartHeaderKeepsInv(c: Channel)
    requires Inv(c) && c.write.NoWrite? && c.queue != [] && c.sending
    ensures Inv(StartHeader(c)) && Log(StartHeader(c)) == Log(c)
  {
  }

  lemma OnRecordKeepsInv(c: Channel)
    requires Inv(c) && c.write.Writing? && (c.unwritten ==> Progress(c) == 0)
    ensures Inv(OnRecord(c)) && Log(OnRecord(c)) == Log(c)
  {
    if c.unwritten {
      var c' := OnRecord(c);
      EmptyStreamCarries(Log(c), |c.popped|);
      assert Streams(c')[..|Streams(c)|] == Streams(c);
      assert AllCarry(Log(c), c'.past);
    }
  }

  lemma PushKeepsInv(c: Channel, m: Message)
    requires Inv(c)
    ensures Inv(c.(queue := c.queue + [m])) && Log(c.(queue := c.queue + [m])) == Log(c) + [m]
  {
    var c' := c.(queue := c.queue + [m]);
    AppendIsAssociative(c.popped, c.queue, [m]);
    forall s <- c.past ensures Carries(Log(c'), s) {
      CarriesGrows(Log(c), m, s);
    }
    if c.current.Some? {
      CarriesGrows(Log(c), m, c.current.value);
    }
  }

  lemma SendKeepsInv(c: Channel, m: Message)
    requires Inv(c)
    ensures Inv(Step(c, Send(m))) && Log(Step(c, Send(m))) == Log(c) + [m]
  {
    PushKeepsInv(c, m);
    if IsOpen(c.socket) && !c.sending {
      StartHeaderKeepsInv(c.(queue := c.queue + [m], sending := true));
    }
  }

  lemma FrontInLog(c: Channel)
    requires c.queue != []
    ensures NextFrame(Log(c), |c.popped|) == Frame(c.queue[0])
  {
  }

  lemma BufferContinuesFrame(c: Channel, n: nat)
    requires WellFormed(c) && Enabled(c, Transfer(n))
    ensures var front := Frame(c.queue[0]);
            && Progress(c) + n <= |front|
            && front[..Progress(c)] + Buffer(c)[c.write.done..c.write.done + n] == front[..Progress(c) + n]
  {
  }

  lemma CarriesMore(log: seq<Message>, s: Stream, more: seq<Byte>)
    requires Carries(log, s) && Partial(log, s) + |more| <= |NextFrame(log, s.next)|
    requires var front, p := NextFrame(log, s.next), Partial(log, s); front[..p] + more == front[..p + |more|]
    ensures var s' := s.(bytes := s.bytes + more);
            Carries(log, s') && Partial(log, s') == Partial(log, s) + |more|
  {
    AppendIsAssociative(Frames(log[s.first..s.next]), NextFrame(log, s.next)[..Partial(log, s)], more);
  }

  lemma TransferOnRecordKeepsInv(c: Channel, n: nat)
    requires Inv(c) && Enabled(c, Transfer(n)) && !c.unwritten
    ensures Inv(Step(c, Transfer(n))) && Log(Step(c, Transfer(n))) == Log(c)
  {
    var s, s' := c.current.value, Step(c, Transfer(n)).current.value;
    FrontInLog(c);
    BufferContinuesFrame(c, n);
    CarriesMore(Log(c), s, Buffer(c)[c.write.done..c.write.done + n]);
    TileLast(c.past, s, s');
  }

  lemma TransferKeepsInv(c: Channel, n: nat)
    requires Inv(c) && Enabled(c, Transfer(n))
    ensures Inv(Step(c, Transfer(n))) && Log(Step(c, Transfer(n))) == Log(c)
  {
    OnRecordKeepsInv(c);
    TransferOnRecordKeepsInv(OnRecord(c), n);
  }

  /** Completing the front moves its frame into the finished part. */
  lemma PopKeepsInv(c: Channel)
    requires Inv(c) && c.write.Writing? && Progress(c) == |Frame(c.queue[0])|
    ensures Inv(Pop(c)) && Log(Pop(c)) == Log(c) && Partial(Log(c), Pop(c).current.value) == 0
  {
    var log, s, p := Log(c), c.current.value, |c.popped|;
    var s' := Pop(c).current.value;
    FrontInLog(c);
    assert Log(Pop(c)) == log;
    SliceGrows(log, s.first, p);
    FramesConcat(log[s.first..p], [log[p]]);
    FramesOne(log[p]);
    assert s'.bytes == Frames(log[s.first..p]) + Frame(log[p]);
    TileLast(c.past, s, s');
  }

  lemma PopThenRestartKeepsInv(c: Channel, sending: bool)
    requires Inv(c) && c.write.Writing? && Progress(c) == |Frame(c.queue[0])| && (|c.queue| > 1 ==> sending)
    ensures var popped := Pop(c).(sending := sending);
            var c' := if |c.queue| > 1 then StartHeader(popped) else popped;
            Inv(c') && Log(c') == Log(c)
  {
    PopKeepsInv(c);
    if |c.queue| > 1 {
      StartHeaderKeepsInv(Pop(c));
    }
  }

  lemma StartBodyKeepsInv(c: Channel)
    requires Inv(c) && c.write == Writing(HeaderPart, HEADER_SIZE) && c.queue[0].body != []
    ensures var c' := c.(write := Writing(BodyPart, 0)); Inv(c') && Log(c') == Log(c)
  {
  }

  lemma WriteDoneKeepsInv(c: Channel, bytes: nat)
    requires Inv(c) && Enabled(c, WriteDone(bytes))
    ensures Inv(Step(c, WriteDone(bytes))) && Log(Step(c, WriteDone(bytes))) == Log(c)
  {
    if c.write.part.HeaderPart? && c.queue[0].body != [] {
      StartBodyKeepsInv(c);
    } else {
      PopThenRestartKeepsInv(c, c.write.part.HeaderPart? || |c.queue| > 1);
    }
  }

  lemma ConnectKeepsInv(c: Channel, established: bool, leavesOpen: bool)
    requires Inv(c) && Orderly(c, Connect(established, leavesOpen))
    ensures var c' := Step(c, Connect(established, leavesOpen)); Inv(c') && Log(c') == Log(c)
  {
    assert Streams(Step(c, Connect(established, leavesOpen))) == Streams(c);
  }

  lemma SocketStepKeepsInv(c: Channel, e: Event)
    requires Inv(c) && Enabled(c, e)
    requires e.WriteFailed? || e.Disconnect? || e.MakeNewSocket?
    ensures Inv(Step(c, e)) && Log(Step(c, e)) == Log(c)
  {
    assert Streams(Step(c, e)) == Streams(c);
  }

  lemma {:induction false} StepKeepsInv(c: Channel, e: Event)
    requires Inv(c) && Enabled(c, e) && Orderly(c, e)
    ensures Inv(Step(c, e))
    ensures Log(Step(c, e)) == Log(c) + if e.Send? then [e.message] else []
  {
    match e
    case Send(m) => SendKeepsInv(c, m);
    case WriteDone(bytes) => WriteDoneKeepsInv(c, bytes);
    case Transfer(n) => TransferKeepsInv(c, n);
    case Connect(established, leavesOpen) => ConnectKeepsInv(c, established, leavesOpen);
    case _ => SocketStepKeepsInv(c, e);
  }

  lemma {:induction false} Reachable(states: seq<Channel>, events: seq<Event>, i: nat)
    requires Behavior(states, events) && states[0] == INITIAL && i <= |events|
    ensures Inv(states[i])
    ensures Log(states[i]) == Pushed(events[..i])
  {
    if i > 0 {
      Reachable(states, events, i - 1);
      StepKeepsInv(states[i - 1], events[i - 1]);
      assert events[..i][..i - 1] == events[..i - 1];
    }
  }

  /** Delivery across reconnects, for every interleaving of sends, transfers,
      completions, write errors, disconnects and reconnects that opens no
      connection in the middle of a frame: the connections written to cut
      the completed part of the log of pushed messages into consecutive pieces.
      Each carries its piece completely and then at most part of the frame of the
      message at which the next one starts over. So nothing is skipped, and a
      message appears on a second connection only if its write never completed on
      the first. */
  lemma DeliveryAcrossReconnects(states: seq<Channel>, events: seq<Event>)
    requires Behavior(states, events) && states[0] == INITIAL
    ensures var c := states[|events|];
            && Log(c) == Pushed(events)
            && Tile(Streams(c), |c.popped|)
            && AllCarry(Pushed(events), Streams(c))
            && forall s <- Streams(c) :: s.first <= |Pushed(events)| && s.bytes <= Frames(Pushed(events)[s.first..])
  {
    Reachable(states, events, |events|);
    assert events[..|events|] == events;
    var c := states[|events|];
    forall s <- Streams(c) ensures s.bytes <= Frames(Log(c)[s.first..]) {
      CarriedIsPrefix(Log(c), s);
    }
  }

  lemma CarriedIsPrefix(log: seq<Message>, s: Stream)
    requires Carries(log, s)
    ensures s.bytes <= Frames(log[s.first..])
  {
    assert log[s.first..] == log[s.first..s.next] + log[s.next..];
    FramesConcat(log[s.first..s.next], log[s.next..]);
    if s.next < |log| {
      assert log[s.next..][0] == log[s.next];
      assert NextFrame(log, s.next) <= Frames(log[s.next..]);
    }
  }

  lemma SliceKeeps(log: seq<Message>, lo: nat, hi: nat)
    requires lo <= hi <= |log| && AllWellSized(log) && AllNonEmpty(log)
    ensures AllWellSized(log[lo..hi]) && AllNonEmpty(log[lo..hi])
    ensures lo < hi ==> WellSized(log[lo]) && log[lo].body != []
  {
  }

  lemma PartialFrameDelivers(m: Message, k: nat)
    requires WellSized(m) && m.body != [] && k <= |Frame(m)|
    ensures Deliver(Frame(m)[..k]) == if k < |Frame(m)| then [] else [m]
  {
    if k < |Frame(m)| {
      DeliverPartial(m, k);
    } else {
      SurvivesIffWellSized(m);
      assert Frame(m)[..k] == Frame(m);
    }
  }

  lemma DeliverCarried(log: seq<Message>, s: Stream)
    requires Carries(log, s) && AllWellSized(log) && AllNonEmpty(log)
    ensures Deliver(s.bytes) ==
            log[s.first..s.next] + Deliver(NextFrame(log, s.next)[..Partial(log, s)])
  {
    SliceKeeps(log, s.first, s.next);
    DeliverAfter(log[s.first..s.next], NextFrame(log, s.next)[..Partial(log, s)]);
  }

  /** What the peer of one connection makes of it: exactly the messages completed
      on it, and the next one too if its frame went out whole. */
  lemma PeerReceives(log: seq<Message>, s: Stream)
    requires Carries(log, s) && AllWellSized(log) && AllNonEmpty(log)
    ensures var whole := s.next < |log| && Partial(log, s) == |Frame(log[s.next])|;
            Deliver(s.bytes) == log[s.first..if whole then s.next + 1 else s.next]
  {
    DeliverCarried(log, s);
    if s.next < |log| {
      SliceKeeps(log, s.next, s.next + 1);
      PartialFrameDelivers(log[s.next], Partial(log, s));
      SliceGrows(log, s.first, s.next);
    }
  }

  /** What all the peers receive, connection after connection. */
  function Received(streams: seq<Stream>): seq<Message> {
    if streams == [] then []
    else Received(streams[..|streams| - 1]) + Deliver(streams[|streams| - 1].bytes)
  }

  lemma {:induction false} TiledIsReceived(log: seq<Message>, streams: seq<Stream>, end: nat)
    requires Tile(streams, end) && AllCarry(log, streams) && end <= |log|
    requires AllWellSized(log) && AllNonEmpty(log)
    ensures IsSubsequence(log[..end], Received(streams))
    ensures |Received(streams)| <= end + |streams|
  {
    if streams != [] {
      var n := |streams| - 1;
      var s := streams[n];
      assert Carries(log, s);
      TiledIsReceived(log, streams[..n], s.first);
      PeerReceives(log, s);
      SubsequenceExtend(log[..s.first], Received(streams[..n]), log[s.first..end], Deliver(s.bytes));
      SlicesJoin(log, 0, s.first, end);
    }
  }

  lemma {:induction false} CarrierOf(streams: seq<Stream>, end: nat, i: nat) returns (k: nat)
    requires Tile(streams, end) && i < end
    ensures k < |streams| && streams[k].first <= i < streams[k].next
  {
    var n := |streams| - 1;
    if i >= streams[n].first {
      k := n;
    } else {
      k := CarrierOf(streams[..n], streams[n].first, i);
    }
  }

  /** At least once and in order, over every run: the popped messages, in push
      order, are among those the peers receive, which repeat at most one message
      for each connection; and the peer of the connection on which message i was
      completed has it at its place. */
  lemma EveryPoppedMessageIsDelivered(states: seq<Channel>, events: seq<Event>)
    requires Behavior(states, events) && states[0] == INITIAL
    requires AllWellSized(Pushed(events)) && AllNonEmpty(Pushed(events))
    ensures var c := states[|events|];
            && c.popped <= Pushed(events)
            && IsSubsequence(c.popped, Received(Streams(c)))
            && |Received(Streams(c))| <= |c.popped| + |Streams(c)|
            && forall i :: 0 <= i < |c.popped| ==> DeliveredBySome(Streams(c), i, c.popped[i])
  {
    DeliveryAcrossReconnects(states, events);
    var c := states[|events|];
    TiledIsReceived(Pushed(events), Streams(c), |c.popped|);
    assert Pushed(events)[..|c.popped|] == c.popped;
    forall i | 0 <= i < |c.popped| ensures DeliveredBySome(Streams(c), i, c.popped[i]) {
      var k := CarrierOf(Streams(c), |c.popped|, i);
      PeerReceives(Pushed(events), Streams(c)[k]);
      assert DeliveredAt(Streams(c)[k], i, c.popped[i]);
    }
  }

  predicate DeliveredAt(s: Stream, i: nat, m: Message) {
    && s.first <= i < s.next
    && i - s.first < |Deliver(s.bytes)|
    && Deliver(s.bytes)[i - s.first] == m
  }

  predicate DeliveredBySome(streams: seq<Stream>, i: nat, m: Message) {
    exists k :: 0 <= k < |streams| && DeliveredAt(streams[k], i, m)
  }

  // ---------------------------------------------------------------------
  // When a connection may be opened
  // ---------------------------------------------------------------------

  /** Opening a connection now spoils nothing, whatever happens afterwards. */
  ghost predicate HarmlessToOpen(c: Channel)
    requires WellFormed(c)
  {
    forall states, events :: Behavior(states, events) && states[0] == Step(c, Connect(true, true)) ==>
      AllCarry(Log(states[|events|]), Streams(states[|events|]))
  }

  lemma {:induction false} InvPersists(states: seq<Channel>, events: seq<Event>, n: nat)
    requires Behavior(states, events) && Inv(states[0]) && n <= |events|
    ensures Inv(states[n])
  {
    if n > 0 {
      InvPersists(states, events, n - 1);
      StepKeepsInv(states[n - 1], events[n - 1]);
    }
  }

  /** If the socket is not connected, opening a connection is harmless if and only
      if no frame is half sent. If one is, its rest goes out alone on the new
      connection. */
  lemma OpeningIsHarmlessIffNotExposed(c: Channel)
    requires Inv(c) && !c.socket.Connected?
    ensures HarmlessToOpen(c) <==> !Exposed(c)
  {
    if !Exposed(c) {
      StepKeepsInv(c, Connect(true, true));
      forall states, events | Behavior(states, events) && states[0] == Step(c, Connect(true, true))
        ensures AllCarry(Log(states[|events|]), Streams(states[|events|]))
      {
        InvPersists(states, events, |events|);
      }
    } else {
      var states, events := RestGoesOutAlone(c);
    }
  }

  lemma Extend(states: seq<Channel>, events: seq<Event>, e: Event)
    returns (states': seq<Channel>, events': seq<Event>)
    requires Behavior(states, events)
    requires var c := states[|events|]; WellFormed(c) && Enabled(c, e) && Orderly(c, e)
    ensures Behavior(states', events') && states'[0] == states[0]
    ensures states'[|events'|] == Step(states[|events|], e)
  {
    states', events' := states + [Step(states[|events|], e)], events + [e];
  }

  /** The current connection carries the front's frame from byte `p` on, as far as
      the write has got; the rest of the frame is still to be written. */
  predicate CarriesRest(c: Channel, p: nat) {
    && WellFormed(c) && c.socket.Connected? && c.write.Writing?
    && p <= Progress(c)
    && OnRecord(c).current == Some(Stream(|c.popped|, |c.popped|, Frame(c.queue[0])[p..Progress(c)]))
  }

  lemma TransferRest(c: Channel, p: nat)
    requires CarriesRest(c, p) && c.write.done < |Buffer(c)|
    ensures var n := |Buffer(c)| - c.write.done;
            && Enabled(c, Transfer(n))
            && var c' := Step(c, Transfer(n));
               c' == OnRecord(c).(write := Writing(c.write.part, |Buffer(c)|), current := c'.current)
               && CarriesRest(c', p)
  {
    var front, n := Frame(c.queue[0]), |Buffer(c)| - c.write.done;
    var more := Buffer(c)[c.write.done..c.write.done + n];
    assert more == front[Progress(c)..Progress(c) + n];
    SlicesJoin(front, p, Progress(c), Progress(c) + n);
    assert Step(c, Transfer(n)).current.value.bytes == front[p..Progress(c)] + more;
  }

  lemma RestIsNotCarried(log: seq<Message>, n: nat, p: nat)
    requires n < |log| && 0 < p <= |Frame(log[n])|
    ensures !Carries(log, Stream(n, n + 1, Frame(log[n])[p..]))
  {
    SliceGrows(log, n, n);
    assert log[n..n] == [];
    FramesOne(log[n]);
  }

  lemma CompletionRecordsRest(c: Channel, p: nat)
    requires CarriesRest(c, p) && !c.unwritten && Progress(c) == |Frame(c.queue[0])|
    ensures var c' := Step(c, WriteDone(|Buffer(c)|));
            && Log(c') == Log(c)
            && c'.current == Some(Stream(|c.popped|, |c.popped| + 1, Frame(c.queue[0])[p..]))
  {
    assert Log(Pop(c)) == Log(c);
    assert c.current.value.bytes == Frame(c.queue[0])[p..];
  }

  /** Once the whole frame is out, its completion makes the damage final. */
  lemma CompletedRestIsNotCarried(c: Channel, p: nat)
    requires CarriesRest(c, p) && !c.unwritten && 0 < p < Progress(c) == |Frame(c.queue[0])|
    ensures var c' := Step(c, WriteDone(|Buffer(c)|)); !AllCarry(Log(c'), Streams(c'))
  {
    var c' := Step(c, WriteDone(|Buffer(c)|));
    CompletionRecordsRest(c, p);
    RestIsNotCarried(Log(c), |c.popped|, p);
    assert Streams(c')[|c'.past|] == c'.current.value;
  }

  lemma FinishBody(states: seq<Channel>, events: seq<Event>, p: nat)
    returns (states': seq<Channel>, events': seq<Event>)
    requires Behavior(states, events)
    requires var c := states[|events|];
             CarriesRest(c, p) && 0 < p && c.write.part.BodyPart? && Progress(c) < |Frame(c.queue[0])|
    ensures Behavior(states', events') && states'[0] == states[0]
    ensures var c' := states'[|events'|]; !AllCarry(Log(c'), Streams(c'))
  {
    var c := states[|events|];
    TransferRest(c, p);
    states', events' := Extend(states, events, Transfer(|Buffer(c)| - c.write.done));
    CompletedRestIsNotCarried(states'[|events'|], p);
    states', events' := Extend(states', events', WriteDone(|Buffer(c)|));
  }

  lemma FinishHeader(states: seq<Channel>, events: seq<Event>, p: nat)
    returns (states': seq<Channel>, events': seq<Event>)
    requires Behavior(states, events)
    requires var c := states[|events|];
             && CarriesRest(c, p) && 0 < p < |Frame(c.queue[0])| && c.write == Writing(HeaderPart, HEADER_SIZE)
             && (p == HEADER_SIZE || !c.unwritten)
    ensures Behavior(states', events') && states'[0] == states[0]
    ensures var c' := states'[|events'|]; !AllCarry(Log(c'), Streams(c'))
  {
    var c := states[|events|];
    if c.queue[0].body == [] {
      CompletedRestIsNotCarried(c, p);
      states', events' := Extend(states, events, WriteDone(HEADER_SIZE));
    } else {
      states', events' := Extend(states, events, WriteDone(HEADER_SIZE));
      states', events' := FinishBody(states', events', p);
    }
  }

  lemma RestGoesOutAlone(c: Channel) returns (states: seq<Channel>, events: seq<Event>)
    requires Inv(c) && !c.socket.Connected? && Exposed(c)
    ensures Behavior(states, events) && states[0] == Step(c, Connect(true, true))
    ensures !AllCarry(Log(states[|events|]), Streams(states[|events|]))
  {
    var c', p := Step(c, Connect(true, true)), Progress(c);
    states, events := [c'], [];
    assert Frame(c.queue[0])[p..p] == [];
    if c.write.part.BodyPart? {
      states, events := FinishBody(states, events, p);
    } else {
      if p < HEADER_SIZE {
        TransferRest(c', p);
        states, events := Extend(states, events, Transfer(HEADER_SIZE - p));
      }
      states, events := FinishHeader(states, events, p);
    }
  }

  /** Such a state is reached by an ordinary run: a header is out, and the read side
      closes the connection before the handler runs. */
  lemma ExposedIsReachable(m: Message) returns (states: seq<Channel>, events: seq<Event>)
    requires m.body != []
    ensures Behavior(states, events) && states[0] == INITIAL
    ensures var c := states[|events|]; Inv(c) && Exposed(c) && c.socket.Closed?
  {
    states, events := Extend([INITIAL], [], Connect(true, true));
    states, events := Extend(states, events, Send(m));
    states, events := Extend(states, events, Transfer(HEADER_SIZE));
    states, events := Extend(states, events, Disconnect);
    Reachable(states, events, |events|);
  }

  // ---------------------------------------------------------------------
  // The meaning of sendingInProgress
  // ---------------------------------------------------------------------

  /** The chain ends on an empty-body message with nothing behind it: the branch
      that does not clear the flag. */
  predicate ChainDies(c: Channel, e: Event)
    requires WellFormed(c) && Enabled(c, e)
  {
    e.WriteDone? && c.write.part.HeaderPart? && |c.queue| == 1 && c.queue[0].body == []
  }

  ghost predicate Died(states: seq<Channel>, events: seq<Event>, n: nat)
    requires Behavior(states, events) && n <= |events|
  {
    exists i :: 0 <= i < n && ChainDies(states[i], events[i])
  }

  lemma DiedStep(states: seq<Channel>, events: seq<Event>, n: nat)
    requires Behavior(states, events) && 0 < n <= |events|
    ensures Died(states, events, n) <==> Died(states, events, n - 1) || ChainDies(states[n - 1], events[n - 1])
  {
  }

  lemma FlagMeaningStep(c: Channel, e: Event, died: bool)
    requires WellFormed(c) && c.socket != Null && Enabled(c, e)
    requires c.sending <==> c.write.Writing? || died
    requires died ==> c.write.NoWrite?
    ensures Step(c, e).sending <==> Step(c, e).write.Writing? || died || ChainDies(c, e)
    ensures died || ChainDies(c, e) ==> Step(c, e).write.NoWrite?
  {
  }

  /** The flag is set exactly while a write is outstanding or after the chain
      has died on an empty body. */
  lemma {:induction false} FlagMeaning(states: seq<Channel>, events: seq<Event>, n: nat)
    requires Behavior(states, events) && states[0] == INITIAL && n <= |events|
    ensures states[n].sending <==> states[n].write.Writing? || Died(states, events, n)
    ensures Died(states, events, n) ==> states[n].write.NoWrite?
  {
    if n > 0 {
      FlagMeaning(states, events, n - 1);
      Reachable(states, events, n - 1);
      FlagMeaningStep(states[n - 1], events[n - 1], Died(states, events, n - 1));
      DiedStep(states, events, n);
    }
  }

  predicate IsDead(c: Channel) {
    c.sending && c.write.NoWrite? && c.socket != Null
  }

  lemma DeadStaysDead(c: Channel, e: Event)
    requires WellFormed(c) && Enabled(c, e) && IsDead(c)
    ensures IsDead(Step(c, e)) && Step(c, e).popped == c.popped && Streams(Step(c, e)) == Streams(c)
    ensures Step(c, e).queue == c.queue + if e.Send? then [e.message] else []
  {
  }

  /** Once dead, always dead: whatever is sent, closed or reopened afterwards,
      the flag stays set, nothing leaves the queue and no connection gets a byte. */
  lemma {:induction false} DeadIsAbsorbing(states: seq<Channel>, events: seq<Event>, n: nat)
    requires Behavior(states, events) && n <= |events| && IsDead(states[0])
    ensures var c, c' := states[0], states[n];
            && IsDead(c')
            && c'.popped == c.popped && c'.queue == c.queue + Pushed(events[..n])
            && Streams(c') == Streams(c)
  {
    if n > 0 {
      DeadIsAbsorbing(states, events, n - 1);
      DeadStaysDead(states[n - 1], events[n - 1]);
      assert events[..n][..n - 1] == events[..n - 1];
    } else {
      assert states[0].queue + Pushed(events[..0]) == states[0].queue;
    }
  }

  /** Every message without a body does this: alone on a fresh connection, all of it
      sent, it leaves the channel dead. */
  lemma EmptyBodyIsFatal(m: Message) returns (states: seq<Channel>, events: seq<Event>)
    requires m.body == []
    ensures Behavior(states, events) && states[0] == INITIAL
    ensures Died(states, events, |events|) && IsDead(states[|events|])
    ensures states[|events|].popped == [m] && states[|events|].queue == []
  {
    states, events := Extend([INITIAL], [], Connect(true, true));
    states, events := Extend(states, events, Send(m));
    states, events := Extend(states, events, Transfer(HEADER_SIZE));
    states, events := Extend(states, events, WriteDone(HEADER_SIZE));
    FlagMeaning(states, events, |events|);
  }

  // ---------------------------------------------------------------------
  // After a failed write
  // ---------------------------------------------------------------------

  /** The operating system leaves the socket open, with or without a connection. */
  predicate LeavesOpen(e: Event) {
    e.Connect? && (e.established || e.leavesOpen)
  }

  predicate IsHushed(c: Channel) {
    c.socket.Closed? && !c.sending && c.write.NoWrite?
  }

  lemma HushedStaysHushed(c: Channel, e: Event)
    requires WellFormed(c) && Enabled(c, e) && IsHushed(c) && !LeavesOpen(e)
    ensures IsHushed(Step(c, e)) && Step(c, e).popped == c.popped && Streams(Step(c, e)) == Streams(c)
    ensures Step(c, e).queue == c.queue + if e.Send? then [e.message] else []
  {
  }

  lemma WriteFailedHushes(c: Channel)
    requires WellFormed(c) && c.socket != Null && Enabled(c, WriteFailed)
    ensures var c' := Step(c, WriteFailed);
            IsHushed(c') && c'.popped == c.popped && Streams(c') == Streams(c) && c'.queue == c.queue
  {
  }

  lemma PushedStep(events: seq<Event>, i: nat, n: nat)
    requires i < n <= |events|
    ensures Pushed(events[i..n]) ==
            Pushed(events[i..n - 1]) + if events[n - 1].Send? then [events[n - 1].message] else []
  {
    assert events[i..n][..n - i - 1] == events[i..n - 1];
  }

  lemma {:induction false} HushedRun(states: seq<Channel>, events: seq<Event>, i: nat, n: nat)
    requires Behavior(states, events) && i <= n <= |events| && IsHushed(states[i])
    requires forall k :: i <= k < n ==> !LeavesOpen(events[k])
    ensures IsHushed(states[n]) && states[n].popped == states[i].popped && Streams(states[n]) == Streams(states[i])
    ensures states[n].queue == states[i].queue + Pushed(events[i..n])
  {
    if n == i {
      assert states[n].queue + Pushed(events[n..n]) == states[n].queue;
    } else {
      HushedRun(states, events, i, n - 1);
      HushedStaysHushed(states[n - 1], events[n - 1]);
      PushedStep(events, i, n);
    }
  }

  /** A failed write closes the socket. Until something opens it again no write is
      started and no connection gets a byte; what is sent is only queued, behind the
      message whose write failed. */
  lemma FailedWriteHushes(states: seq<Channel>, events: seq<Event>, i: nat, n: nat)
    requires Behavior(states, events) && states[0] == INITIAL && i < n <= |events|
    requires events[i].WriteFailed? && forall k :: i < k < n ==> !LeavesOpen(events[k])
    ensures var c, c' := states[i], states[n];
            && c'.socket.Closed? && !c'.sending && c'.write.NoWrite?
            && c'.popped == c.popped && Streams(c') == Streams(c)
            && c.queue != [] && c'.queue == c.queue + Pushed(events[i + 1..n])
  {
    Reachable(states, events, i);
    WriteFailedHushes(states[i]);
    HushedRun(states, events, i + 1, n);
  }

  predicate Undisturbed(e: Event) {
    || (e.Send? && e.message.body != [])
    || e.Transfer?
    || e.WriteDone?
  }

  /** The flag says whether there is something in the queue. */
  predicate FlagTellsQueue(c: Channel) {
    && (c.sending <==> c.queue != []) && (c.sending <==> c.write.Writing?)
    && c.socket.Connected? && AllNonEmpty(c.queue)
  }

  lemma UndisturbedStep(c: Channel, e: Event)
    requires WellFormed(c) && Enabled(c, e) && Undisturbed(e) && FlagTellsQueue(c)
    ensures FlagTellsQueue(Step(c, e))
  {
  }

  /** On a socket opened with an empty queue, with only non-empty bodies and no
      error since, the flag is clear exactly when the queue is empty. */
  lemma {:induction false} FlagIffQueueNonEmpty(states: seq<Channel>, events: seq<Event>, n: nat)
    requires Behavior(states, events) && n <= |events|
    requires forall e <- events :: Undisturbed(e)
    requires var c := states[0]; c.socket.Connected? && c.queue == [] && !c.sending && c.write.NoWrite?
    ensures var c := states[n];
            && (c.sending <==> c.queue != []) && (c.sending <==> c.write.Writing?)
            && c.socket.Connected? && AllNonEmpty(c.queue)
  {
    if n > 0 {
      FlagIffQueueNonEmpty(states, events, n - 1);
      UndisturbedStep(states[n - 1], events[n - 1]);
    }
  }
}
