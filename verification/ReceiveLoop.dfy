/** The read side of TcpConnection as a state machine over its completion
    handlers (Connection.hpp:29-77, 165-184). */
module ReceiveLoop {
  import opened Framing
  import opened Wrappers
  import opened Sequences

  datatype Phase =
    | NotReading
    | ReadingHeader
    | ReadingBody(header: Header)
    | EmptyBodyRequested(header: Header)
    | ReadFailed(interrupted: Option<Header>)

  /** `buffered` has arrived but not been read; `delivered` was handed to the
      message handler. */
  datatype Reader = Reader(phase: Phase, buffered: seq<Byte>, delivered: seq<Message>)

  datatype Event =
    | Arrive(bytes: seq<Byte>)
    | HeaderRead(count: nat)
    | BodyRead
    | Fail

  const STARTED: Reader := Reader(ReadingHeader, [], [])

  /** A completion handler runs only for an outstanding read. */
  predicate Possible(r: Reader, e: Event) {
    match e
    case Arrive(_) => true
    case HeaderRead(n) => r.phase.ReadingHeader? && n <= HEADER_SIZE && n <= |r.buffered|
    case BodyRead => r.phase.ReadingBody? && |r.buffered| >= r.phase.header.size
    case Fail => r.phase.ReadingHeader? || r.phase.ReadingBody?
  }

  /** async_read completes with exactly the bytes asked for, or with an error. */
  predicate Enabled(r: Reader, e: Event) {
    Possible(r, e) && (e.HeaderRead? ==> e.count == HEADER_SIZE)
  }

  /** The phase that follows a header: a size of zero ends reading for good. */
  function AfterHeader(h: Header): Phase {
    if h.size == 0 then EmptyBodyRequested(h) else ReadingBody(h)
  }

  function Step(r: Reader, e: Event): Reader
    requires Possible(r, e)
  {
    match e
    case Arrive(bytes) => r.(buffered := r.buffered + bytes)
    case HeaderRead(n) =>
      if n != HEADER_SIZE then r.(phase := NotReading, buffered := r.buffered[n..])
      else
        r.(phase := AfterHeader(DecodeHeader(r.buffered[..HEADER_SIZE])), buffered := r.buffered[HEADER_SIZE..])
    case BodyRead =>
      var n := r.phase.header.size;
      Reader(ReadingHeader, r.buffered[n..], r.delivered + [Message(r.phase.header, r.buffered[..n])])
    case Fail =>
      r.(phase := ReadFailed(if r.phase.ReadingBody? then Some(r.phase.header) else None))
  }

  ghost predicate Behavior(states: seq<Reader>, events: seq<Event>) {
    && |states| == |events| + 1
    && forall i :: 0 <= i < |events| ==> Enabled(states[i], events[i]) && states[i + 1] == Step(states[i], events[i])
  }

  function Arrived(events: seq<Event>): seq<Byte> {
    if events == [] then []
    else
      var n := |events| - 1;
      Arrived(events[..n]) + if events[n].Arrive? then events[n].bytes else []
  }

  /** What has been received but not delivered, as it looked on the wire. */
  function Pending(r: Reader): seq<Byte> {
    match r.phase
    case ReadingBody(h) => EncodeHeader(h) + r.buffered
    case EmptyBodyRequested(h) => EncodeHeader(h) + r.buffered
    case ReadFailed(Some(h)) => EncodeHeader(h) + r.buffered
    case _ => r.buffered
  }

  predicate Inv(r: Reader, arrived: seq<Byte>) {
    && AllWellSized(r.delivered) && AllNonEmpty(r.delivered)
    && !r.phase.NotReading?
    && (r.phase.ReadingBody? ==> r.phase.header.size != 0)
    && (r.phase.EmptyBodyRequested? ==> r.phase.header.size == 0)
    && arrived == Frames(r.delivered) + Pending(r)
  }

  lemma HeaderReadKeepsInv(r: Reader, arrived: seq<Byte>)
    requires Inv(r, arrived) && Enabled(r, HeaderRead(HEADER_SIZE))
    ensures Inv(Step(r, HeaderRead(HEADER_SIZE)), arrived)
  {
    DecodedHeaderRoundTrip(r.buffered[..HEADER_SIZE]);
    assert r.buffered == r.buffered[..HEADER_SIZE] + r.buffered[HEADER_SIZE..];
    assert Pending(Step(r, HeaderRead(HEADER_SIZE))) == Pending(r);
  }

  lemma FrameMoves(delivered: seq<Message>, m: Message, rest: seq<Byte>)
    ensures Frames(delivered) + (EncodeHeader(m.header) + (m.body + rest)) == Frames(delivered + [m]) + rest
  {
    FramesOne(m);
    FramesConcat(delivered, [m]);
    AppendIsAssociative(EncodeHeader(m.header), m.body, rest);
    AppendIsAssociative(Frames(delivered), Frame(m), rest);
  }

  lemma BodyReadKeepsInv(r: Reader, arrived: seq<Byte>)
    requires Inv(r, arrived) && Enabled(r, BodyRead)
    ensures Inv(Step(r, BodyRead), arrived)
  {
    var n := r.phase.header.size;
    var m, rest := Message(r.phase.header, r.buffered[..n]), r.buffered[n..];
    assert r.buffered == m.body + rest;
    FrameMoves(r.delivered, m, rest);
  }

  lemma PendingGrows(r: Reader, bytes: seq<Byte>)
    ensures Pending(r.(buffered := r.buffered + bytes)) == Pending(r) + bytes
  {
    match r.phase
    case ReadingBody(h) => AppendIsAssociative(EncodeHeader(h), r.buffered, bytes);
    case EmptyBodyRequested(h) => AppendIsAssociative(EncodeHeader(h), r.buffered, bytes);
    case ReadFailed(Some(h)) => AppendIsAssociative(EncodeHeader(h), r.buffered, bytes);
    case _ =>
  }

  lemma ArriveKeepsInv(r: Reader, arrived: seq<Byte>, bytes: seq<Byte>)
    requires Inv(r, arrived)
    ensures Inv(Step(r, Arrive(bytes)), arrived + bytes)
  {
    PendingGrows(r, bytes);
    AppendIsAssociative(Frames(r.delivered), Pending(r), bytes);
  }

  lemma StepKeepsInv(r: Reader, arrived: seq<Byte>, e: Event)
    requires Inv(r, arrived) && Enabled(r, e)
    ensures Inv(Step(r, e), arrived + if e.Arrive? then e.bytes else [])
  {
    assert arrived + [] == arrived;
    match e
    case Arrive(bytes) => ArriveKeepsInv(r, arrived, bytes);
    case HeaderRead(_) => HeaderReadKeepsInv(r, arrived);
    case BodyRead => BodyReadKeepsInv(r, arrived);
    case Fail =>
  }

  lemma {:induction false} Reachable(states: seq<Reader>, events: seq<Event>, n: nat)
    requires Behavior(states, events) && states[0] == STARTED && n <= |events|
    ensures Inv(states[n], Arrived(events[..n]))
  {
    if n > 0 {
      Reachable(states, events, n - 1);
      assert events[..n][..n - 1] == events[..n - 1];
      StepKeepsInv(states[n - 1], Arrived(events[..n - 1]), events[n - 1]);
    }
  }

  /** No read handler can run any more, and no read has failed. */
  predicate Quiescent(r: Reader) {
    !Enabled(r, HeaderRead(HEADER_SIZE)) && !Enabled(r, BodyRead) && !r.phase.ReadFailed?
  }

  lemma PendingDeliversNothing(r: Reader)
    requires Quiescent(r) && !r.phase.NotReading? && (r.phase.EmptyBodyRequested? ==> r.phase.header.size == 0)
    ensures Deliver(Pending(r)) == []
  {
    if !r.phase.ReadingHeader? {
      HeaderRoundTrip(r.phase.header);
      assert Pending(r)[..HEADER_SIZE] == EncodeHeader(r.phase.header);
    }
  }

  /** The receive loop computes Deliver: however the bytes are cut into arrivals
      and interleaved with the handlers, the messages handed over are always a
      prefix of Deliver of what has arrived, and all of it once the loop rests. */
  lemma {:induction false} LoopComputesDeliver(states: seq<Reader>, events: seq<Event>)
    requires Behavior(states, events) && states[0] == STARTED
    ensures var r := states[|events|];
            && r.delivered <= Deliver(Arrived(events))
            && (Quiescent(r) ==> r.delivered == Deliver(Arrived(events)))
  {
    Reachable(states, events, |events|);
    assert events[..|events|] == events;
    var r := states[|events|];
    DeliverAfter(r.delivered, Pending(r));
    if Quiescent(r) {
      PendingDeliversNothing(r);
    }
  }

  /** Sender chain to receive loop: if what has arrived is some part of a stream
      of well-sized frames, the loop hands over a prefix of the messages up to
      the first empty body; and exactly the messages whose frames have arrived
      whole, up to the first empty body, once it rests. */
  lemma ReceivesWhatWasFramed(states: seq<Reader>, events: seq<Event>, sent: seq<Message>)
    requires Behavior(states, events) && states[0] == STARTED
    requires AllWellSized(sent) && Arrived(events) <= Frames(sent)
    ensures var r := states[|events|];
            && r.delivered <= NonEmptyPrefix(sent)
            && (Quiescent(r) ==>
                  r.delivered == NonEmptyPrefix(sent[..WholeFrames(sent, |Arrived(events)|)]))
  {
    LoopComputesDeliver(states, events);
    TruncationDeliversPrefix(sent, Arrived(events));
    assert Arrived(events) == Frames(sent)[..|Arrived(events)|];
    TruncatedRoundTrip(sent, |Arrived(events)|);
  }

  predicate NoFailure(events: seq<Event>) {
    forall i :: 0 <= i < |events| ==> !events[i].Fail?
  }

  /** Reading goes on for ever: as long as no read fails, a read is outstanding, or
      an empty body has been asked for. */
  lemma {:induction false} ReadingGoesOn(states: seq<Reader>, events: seq<Event>, n: nat)
    requires Behavior(states, events) && states[0] == STARTED && n <= |events| && NoFailure(events)
    ensures var phase := states[n].phase;
            phase.ReadingHeader? || phase.ReadingBody? || (phase.EmptyBodyRequested? && phase.header.size == 0)
  {
    Reachable(states, events, n);
    if n > 0 {
      ReadingGoesOn(states, events, n - 1);
    }
  }

  lemma Extend(states: seq<Reader>, events: seq<Event>, e: Event)
    returns (states': seq<Reader>, events': seq<Event>)
    requires Behavior(states, events) && Enabled(states[|events|], e)
    ensures Behavior(states', events') && states'[0] == states[0] && events' == events + [e]
    ensures states'[|events'|] == Step(states[|events|], e)
  {
    states', events' := states + [Step(states[|events|], e)], events + [e];
  }

  lemma ArrivedSame(events: seq<Event>, e: Event)
    requires !e.Arrive?
    ensures Arrived(events + [e]) == Arrived(events)
  {
    assert (events + [e])[..|events|] == events;
  }

  predicate ExtendsByReads(events: seq<Event>, events': seq<Event>) {
    events <= events' && forall i :: |events| <= i < |events'| ==> events'[i].HeaderRead? || events'[i].BodyRead?
  }

  /** And it keeps up: from every state of every run without a failed read, the read
      handlers alone lead to one in which everything that a reader could make of what
      has arrived has been handed over. */
  lemma {:induction false} CatchUp(states: seq<Reader>, events: seq<Event>)
    returns (states': seq<Reader>, events': seq<Event>)
    requires Behavior(states, events) && states[0] == STARTED && NoFailure(events)
    ensures Behavior(states', events') && states'[0] == STARTED && ExtendsByReads(events, events')
    ensures states'[|events'|].delivered == Deliver(Arrived(events))
    decreases |states[|events|].buffered|
  {
    var r := states[|events|];
    Reachable(states, events, |events|);
    ReadingGoesOn(states, events, |events|);
    if Quiescent(r) {
      states', events' := states, events;
      LoopComputesDeliver(states, events);
    } else {
      var e := if r.phase.ReadingHeader? then HeaderRead(HEADER_SIZE) else BodyRead;
      states', events' := Extend(states, events, e);
      ArrivedSame(events, e);
      states', events' := CatchUp(states', events');
    }
  }
}
