# Process manager service: models and proofs

This project models the service side of the process manager: the framed TCP
connection to the watchdog, the watchdog client protocol, and the UDP worker with
its event caches. Dafny 4.11 checks it with `dafny verify dfyconfig.toml`.

## How it is built

**The framed TCP channel.** `Framing` is the byte layout of a message (two 32-bit
little-endian header fields, then the body) and `Deliver`, what a reader makes of
a byte stream. `SendChannel` is the write side as a state machine: one step per
completion handler, plus a step that puts some bytes of the outstanding write on
the wire, and the socket operations. It keeps the bytes of each connection apart.
`ReceiveLoop` is the read side. `MessageQueue` and `TcpConnection` are the source's
classes; each method is proved to be one step of the two machines. `EndToEnd` runs
sender, wire and reader together. `SendRace` takes the handlers apart and
interleaves `sendMessage` with the completion chain at every queue operation and
every load or store of `sendingInProgress`, and with the socket being closed and
reopened. `SendOvertaken` says when a call of `sendMessage` goes wrong there,
`SendRest` what it leaves behind and how the next call makes up for it.

**The watchdog client.** `ResponseHandlers` says what a response does to the
connection state and the sequence code and holds the handler classes;
`WatchdogConnection` and `ServiceBase` are the classes above them. A handler's
C++ exception is the outcome `Threw`. `WatchdogProtocol` puts the main thread, the
receive loop, the timer handlers and the watchdog together. It knows both
dispatchers: `Direct`, which the source calls and where an exception ends the
process, and `Wrapped`, the exception-translating `handleResponse`, which nothing
calls. Every lemma with a `d: Dispatcher` parameter holds under both. There a
request is sent in one step; `ClientSends` opens that step up and runs the protocol
together with `SendRace`: the main thread, the receive loop and the timer handlers
each inside `sendMessage`. `ClientSendRuns` has the runs in which that goes wrong.

**The event caches and the UDP worker.** `SubscriptionCache`, `MessageCache` and
`ContextWorker` are the source's classes. `SubscriptionLog` compares the
subscription cache with an append-only log of the operations on it. `EventIds` is
the id scan that both caches contain. `DatagramRace` interleaves the receive
handlers that share one buffer and one sender endpoint.

A method's contract ties it to a specification function and also states its effect
field by field; the lemmas beside the specification say what it means on its own
terms. Runs are pairs of a state list and an event list; a theorem about runs quantifies
over all of them. Bytes arriving, operating system answers, parse results, the
modules directory and the choice of the next step are parameters or events.

## What the proofs found

- With one sending thread the queue discipline is sound, except for one call:
  between its push and its flag test the thread can be overtaken by the completion
  chain, which sends and pops everything, the thread's message included, and clears
  the flag. The thread then starts a write on an empty queue and calls `front()` on
  it. A call can go wrong if and only if its message has a body and, when it is
  made, the chain can still drain the queue (`CallCanCrashIffChainCanDrain`); a call
  that finds the flag clear is safe (`ClearFlagIsSafe`). Everything else holds in
  every state of every run (`SafeIffOneSender`).
- A message can stay in the queue without any error, with the flag clear and nobody
  writing: exactly when the last flag test saw the flag of a chain that had already
  found the queue empty (`LeftBehindIffLastLoadStrands`). A call can do this to its
  message if and only if it is made while the chain is about to clear the flag
  (`CallCanLeaveBehindIffClearing`); `MessageCanBeLeftBehind` is such a run. The next
  call sends it.
- The client's own threads are paced by the protocol: with a disciplined watchdog a
  call of `sendMessage` is made only when every message pushed before has gone out
  (`CallsArePaced`). If by then the completion chain of the previous request has come
  to its end, no two threads are ever inside `sendMessage` and nothing goes wrong
  (`SettledCallsAreSafe`). If it has not, which only a completion handler delayed until
  the next timer expires can bring about, the call can crash (`WhichCallsCanCrash`,
  `DisciplinedClientCanCrash`), two timer handlers can be inside at once and both
  write (`CallsCanOverlap`, `DisciplinedClientCanHaveTwoWriters`), or the request stays
  in the queue. The last ends the conversation, because nothing is sent before its
  answer (`HeartbeatCanStop`, `StuckForEver`).
- An empty-body message at the end of the queue stops the connection for ever:
  the flag stays set (`FlagMeaning`, `DeadIsAbsorbing`, `EmptyBodyIsFatal`).
- Two threads inside `sendMessage` can both become writers (`SafeIffOneSender`).
- A connection must not be opened while a frame is half sent, or the rest of it goes
  out alone; at any other moment it may be, even with a write outstanding
  (`OpeningIsHarmlessIffNotExposed`, `ReopeningIsHarmlessIffNotExposed`). Nothing in
  `connect` or `makeNewSocket` checks this, and the state is reached by an ordinary
  run (`ExposedIsReachable`).
- The dispatcher in use does not go through the wrapper, so the first response
  whose handler throws ends the process (`DiscourtesyEndsProcess`); it survives exactly the runs in which the
  wrapper would have had nothing to catch (`DirectRunsAreThrowFree`). With a
  watchdog that answers each request at most once and in kind, that is as long as
  pings are answered with their own code, and handshake requests neither by a
  retryable refusal nor by a response that does not parse (`HaltsIffDiscourteous`).
- The connect handler ignores a retryable refusal without a sequence code, the
  reconnect handler answers it (`HandlersDifferExactlyWithoutCode`).
- `sequenceCode` is not initialised, and a ping response handled before any
  acceptance makes the client ping with whatever it holds: if the response matches
  it, or, under the wrapper, if it parses at all (`UnsolicitedPingResponse`). Without
  such a response every ping carries the accepted code (`EveryPingCarriesCode`).
- Each further response to one ping keeps one more heartbeat going, and nothing else
  does (`EachExtraResponseAddsAWait`, `Conservation`).
- Event ids repeat from the 2^32+1-st event on (`ReachableIds`, `IdsRepeat`).

## Model

| member | source | states |
|---|---|---|
| Framing.HeaderRoundTrip | Source/include/Communication.hpp:15-18 | every header survives its eight bytes |
| Framing.DecodedHeaderRoundTrip | Source/include/Communication.hpp:15-18 | every eight bytes are the image of the header they decode to |
| Framing.HeaderLayout | Source/include/Communication.hpp:15-18 | the eight bytes one by one: operation code, then size, least significant byte first |
| Framing.RoundTrip | Source/include/Connection.hpp:29-77 | reading the frames of well-sized messages delivers exactly the longest prefix with non-empty bodies |
| Framing.TruncatedRoundTrip | Source/include/Connection.hpp:29-77 | for every truncation, exactly the messages whose frames arrived whole, up to the first empty body |
| Framing.TruncationDeliversPrefix | Source/include/Connection.hpp:29-77 | a truncated stream delivers a prefix of what the whole one delivers |
| Framing.SurvivesIffWellSized | Source/src/ServiceWatchdogConnection.cpp:88 | a lone message is delivered unchanged if and only if its body is non-empty and its header states the body's size |
| Framing.DeliverAfter | Source/include/Connection.hpp:63-77 | a reader that has consumed whole frames continues as if the stream began there |
| MessageQueues.MessageQueue.Push | Source/include/MessageQueue.hpp:15-19 | appends at the back and reports the new size |
| MessageQueues.MessageQueue.Front | Source/include/MessageQueue.hpp:26-29 | reads the oldest message of a non-empty queue |
| MessageQueues.MessageQueue.Pop | Source/include/MessageQueue.hpp:30-33 | removes exactly the oldest message |
| MessageQueues.MessageQueue.Size | Source/include/MessageQueue.hpp:34-37 | the number of queued messages |
| MessageQueues.MessageQueue.Empty | Source/include/MessageQueue.hpp:38-41 | true exactly on the empty queue |
| SendChannel.StepKeepsInv | Source/include/Connection.hpp:79-149 | every handler and socket operation keeps: each connection has carried whole frames and a partial one, the current one exactly as far as its write says; only a send adds to the log of pushed messages |
| SendChannel.DeliveryAcrossReconnects | Source/include/Connection.hpp:79-235 | for every interleaving that opens no connection in the middle of a frame, the connections tile the popped messages in push order; each carries its piece whole and at most part of the message at which the next one starts over |
| SendChannel.EveryPoppedMessageIsDelivered | Source/include/Connection.hpp:133-149 | over every run with well-sized, non-empty messages: each popped message is received by the peer of the connection that completed it, at its place; all popped messages, in push order, are a subsequence of what the peers receive in turn, which repeats at most one message per connection |
| SendChannel.PeerReceives | Source/include/Connection.hpp:29-77 | the peer of one connection gets exactly the messages completed on it, and the next one if its frame went out whole |
| SendChannel.OpeningIsHarmlessIffNotExposed | Source/include/Connection.hpp:212-225 | opening a connection spoils no delivery, now or later, if and only if no frame has been begun and not finished; otherwise some continuation, in which the outstanding write goes on, sends its rest alone |
| SendChannel.ExposedIsReachable | Source/include/Connection.hpp:36-52 | a run from the start into that state: the header is out, and a failed read closes the socket before the write handler runs |
| SendChannel.FlagMeaning | Source/include/Connection.hpp:98-149 | sendingInProgress is set if and only if a write is outstanding or the chain has ended on an empty body with an empty queue |
| SendChannel.DeadIsAbsorbing | Source/include/Connection.hpp:113-121 | once that has happened the flag stays set, nothing ever leaves the queue and no connection, old or new, gets a byte |
| SendChannel.EmptyBodyIsFatal | Source/include/Connection.hpp:113-121 | every message without a body, sent alone on a fresh connection, leaves the channel in that state |
| SendChannel.FlagIffQueueNonEmpty | Source/include/Connection.hpp:198-210 | on a socket opened with an empty queue, with non-empty bodies and no errors, the flag is clear exactly when the queue is empty |
| SendChannel.FailedWriteHushes | Source/include/Connection.hpp:98-149 | over every run: a failed write closes the socket, and until something opens it again no write is started, no connection gets a byte, and the queue is the old one with what was sent behind it |
| ReceiveLoop.LoopComputesDeliver | Source/include/Connection.hpp:29-77 | however the bytes arrive, the loop has handed over a prefix of Deliver of them, and all of it when no read handler can run and no read has failed |
| ReceiveLoop.ReadingGoesOn | Source/include/Connection.hpp:63-77 | without a failed read, a read is outstanding in every state of every run, or a body of size zero has been asked for |
| ReceiveLoop.CatchUp | Source/include/Connection.hpp:29-77 | from every state of every run without a failed read, the read handlers alone lead to one in which exactly Deliver of what has arrived has been handed over |
| ReceiveLoop.ReceivesWhatWasFramed | Source/include/Connection.hpp:29-77 | fed from framed messages, the loop hands over exactly those that arrived whole, up to the first empty body |
| EndToEnd.PushedIsHandedOver | Source/include/Connection.hpp:29-149 | any sender run, any of its streams, any reader run on it: what is handed over is a prefix of the messages pushed from the stream's start, and includes all completed on it once everything has been read |
| TcpConnections.TcpConnection.constructor | Source/include/Connection.hpp:156-159 | a new connection is the initial state of both machines, with a closed socket |
| TcpConnections.TcpConnection.WriteMessageHeader | Source/include/Connection.hpp:79-87 | starts writing the front's header, or nothing without a socket |
| TcpConnections.TcpConnection.WriteMessageBody | Source/include/Connection.hpp:125-131 | starts writing the front's body |
| TcpConnections.TcpConnection.PostWriteMessageHeader | Source/include/Connection.hpp:98-123 | on error the socket is closed, the flag clear, no write outstanding and the queue as it was; after a short write the header starts again; otherwise the body starts, or the message is popped and the next header starts, with the flag as it was |
| TcpConnections.TcpConnection.PostWriteMessageBody | Source/include/Connection.hpp:133-149 | on error the socket is closed, the flag clear, no write outstanding and the queue as it was; otherwise the message is popped, and the next header starts or the flag is cleared |
| TcpConnections.TcpConnection.SendMessage | Source/include/Connection.hpp:198-210 | always appends to the queue; on an open socket with the flag clear it sets the flag and starts a header, else nothing else changes |
| TcpConnections.TcpConnection.Disconnect | Source/include/Connection.hpp:186-190 | the socket is closed and nothing else changes |
| TcpConnections.TcpConnection.IsConnected | Source/include/Connection.hpp:163 | true exactly on an open socket, connected or not |
| TcpConnections.TcpConnection.Connect | Source/include/Connection.hpp:212-225 | refuses on a connected socket; on a closed one, or one left open by a failed connect, it does what the operating system answers, and a new connection starts with nothing received |
| TcpConnections.TcpConnection.MakeNewSocket | Source/include/Connection.hpp:232-235 | leaves a closed socket with nothing received, and the queue as it was |
| TcpConnections.TcpConnection.SetTimerExpiration | Source/include/Connection.hpp:227-230 | one more timer handler will run; none is taken back |
| TcpConnections.TcpConnection.ReadMessageHeader | Source/include/Connection.hpp:29-34 | a header read is outstanding |
| TcpConnections.TcpConnection.StartReadingSequence | Source/include/Connection.hpp:170-184 | replaces the read buffer and starts with a header, keeping what has arrived |
| TcpConnections.TcpConnection.PostReadMessageHeader | Source/include/Connection.hpp:36-52 | on error the socket is closed and reading ends; a short read ends reading; a size of zero asks for an empty body; any other size starts a body read of that size |
| TcpConnections.TcpConnection.TakeReceivedMessage | Source/include/Connection.hpp:63-72 | hands over the header read with exactly that many bytes, with reading not yet re-armed; on error closes the socket |
| SendRace.SafeIffOneSender | Source/include/Connection.hpp:133-210 | one write at a time, from the current front; on every connection whole frames and at its end at most a bare header; every popped message out complete once and in order; popped ++ queue == pushed: in every state of every schedule with errors, disconnects and orderly reconnects, if and only if there is at most one sending thread |
| SendRace.ReopeningIsHarmlessIffNotExposed | Source/include/Connection.hpp:212-235 | with one thread, reopening a closed socket tears no frame, now or later, if and only if no chain stands between a header and its body |
| SendRace.ExposedIsReachable | Source/include/Connection.hpp:36-52 | a run of one thread into such a state on a closed socket |
| SendRace.TwoSenders | Source/include/Connection.hpp:204-208 | a schedule in which two threads both start writing |
| SendRace.ClosedOrBusyOnlyQueues | Source/include/Connection.hpp:198-210 | a whole call on a closed socket, or with the flag set, adds its message to the queue and changes nothing else |
| SendRace.OpenAndClearWrites | Source/include/Connection.hpp:198-210 | a whole call on an open socket with the flag clear adds its message, sets the flag and starts the front's header |
| SendRace.FailedWriteClosesAndClears | Source/include/Connection.hpp:98-102 | after a failed write the chain closes the socket, clears the flag and ends, with queue and wire as they were |
| SendOvertaken.CallCanCrashIffChainCanDrain | Source/include/Connection.hpp:198-210 | told from the state at the call: some schedule of that call ends in front on an empty queue if and only if its message has a body and the chain is at work, has met no error, has not found the queue empty, and is not in the middle of a frame on a closed socket |
| SendOvertaken.ClearFlagIsSafe | Source/include/Connection.hpp:204-208 | a call made with the flag clear never does |
| SendOvertaken.CrashOnlyIfOvertaken | Source/include/Connection.hpp:199-208 | with one thread, front or pop meets an empty queue only if the thread found the flag clear and the queue empty |
| SendOvertaken.OvertakenMustCrash | Source/include/Connection.hpp:204-208 | after that the thread's next two steps set the flag and call front on the empty queue, whatever happens in between |
| SendOvertaken.OneSenderCanCrash | Source/include/Connection.hpp:199-208 | for every message with a body, a schedule of one thread that sends it twice and calls front on an empty queue |
| SendRest.LeftBehindIffLastLoadStrands | Source/include/Connection.hpp:143-147 | with one thread, bodies and no errors: at rest something is in the queue if and only if the last flag load saw the flag set by a chain about to clear it, with something in the queue |
| SendRest.CallCanLeaveBehindIffClearing | Source/include/Connection.hpp:143-210 | told from the state at the call, in every error-free run: some schedule of that call comes to rest with its message in the queue if and only if the chain has found the queue empty and is about to clear the flag |
| SendRest.MessageCanBeLeftBehind | Source/include/Connection.hpp:143-147 | for every message with a body, an error-free run of one thread that comes to rest with it in the queue, the flag clear and no write outstanding |
| SendRest.NextSendDrainsTheQueue | Source/include/Connection.hpp:79-149 | from any such rest, the next send empties the queue: every schedule, without write errors, sends the old messages and then the new one, in order, after the same number of steps, and none gets stuck |
| ResponseHandlers.WatchdogConnectResponseHandler.HandleResponse | Source/src/ServiceWatchdogResponseHandlers.cpp:15-35 | unparsable throws; while not connected a success with a code connects with it and a refusal as registered or disconnected with a code throws a resend; nothing else changes anything |
| ResponseHandlers.WatchdogConnectResponseHandler.HandleConnectResponse | Source/src/ServiceWatchdogResponseHandlers.cpp:37-48 | grants on success with a code; ignores every response without one |
| ResponseHandlers.WatchdogConnectResponseHandler.HandleReceivedConnectFailure | Source/src/ServiceWatchdogResponseHandlers.cpp:50-64 | throws a connect resend exactly on an invalid-state refusal as registered or disconnected |
| ResponseHandlers.WatchdogConnectResponseHandler.HandleResponseInvalidConnectionState | Source/src/ServiceWatchdogResponseHandlers.cpp:66-85 | throws exactly if the watchdog reports registered or disconnected |
| ResponseHandlers.WatchdogPingResponseHandler.HandleResponse | Source/src/ServiceWatchdogResponseHandlers.cpp:87-99 | arms the timer exactly on the matching code, and throws on any other or on a parse failure |
| ResponseHandlers.WatchdogReconnectResponseHandler.HandleResponse | Source/src/ServiceWatchdogResponseHandlers.cpp:107-127 | unparsable throws; while not connected a success with a code connects with it and a refusal as registered or disconnected throws a resend; nothing else changes anything |
| ResponseHandlers.WatchdogReconnectResponseHandler.HandleReconnectResponse | Source/src/ServiceWatchdogResponseHandlers.cpp:129-139 | grants on success with a code; answers refusals with or without one |
| ResponseHandlers.WatchdogReconnectResponseHandler.HandleReceivedReconnectFailure | Source/src/ServiceWatchdogResponseHandlers.cpp:141-155 | throws a reconnect resend exactly on an invalid-state refusal as registered or disconnected |
| ResponseHandlers.WatchdogReconnectResponseHandler.HandleResponseInvalidReconnectionState | Source/src/ServiceWatchdogResponseHandlers.cpp:157-176 | throws exactly if the watchdog reports registered or disconnected |
| ResponseHandlers.WatchdogConnectionState.SetConnectionStateAndNotify | Source/src/ServiceWatchdogConnectionState.cpp:17-25 | the state is the given one afterwards |
| ResponseHandlers.WatchdogConnectionState.GetConnectionState | Source/src/ServiceWatchdogConnectionState.cpp:27-30 | reports the current state |
| ResponseHandlers.WatchdogConnectionState.TimedWaitForConnection | Source/src/ServiceWatchdogConnectionState.cpp:5-9 | however it ends, reports the state that other threads have stored by then |
| ResponseHandlers.HandlersDifferExactlyWithoutCode | Source/src/ServiceWatchdogResponseHandlers.cpp:37-85 | connect and reconnect handlers always agree on state and code, and on the resend except exactly on a retryable refusal without a code while not connected |
| ResponseHandlers.HandlersBisimilar | Source/src/ServiceWatchdogResponseHandlers.cpp:107-176 | over any sequence of responses the two have the same trace of states and codes, and the same resend points where codes are present |
| ResponseHandlers.FirstGrantDecides | Source/src/ServiceWatchdogResponseHandlers.cpp:37-48 | over any sequence of responses the first success with a code fixes state and code for good |
| ResponseHandlers.NoGrantChangesNothing | Source/src/ServiceWatchdogResponseHandlers.cpp:50-85 | without one, neither state nor code ever changes |
| WatchdogClient.RequestsAreWellSizedIffShort | Source/src/ServiceWatchdogConnection.cpp:80-91 | a request's header states its body's size if and only if that is below 2^32 |
| WatchdogClient.RequestsTellApart | Source/src/ServiceWatchdogConnection.cpp:80-130 | if the operation numbers are distinct, two requests have the same operation code on the wire if and only if they are of one kind |
| WatchdogClient.WrappedEffects | Source/src/ServiceWatchdogConnection.cpp:46-78 | under the wrapper one response has at most one of: a grant, a timer wait, a resend of its own kind; connect and reconnect resends only while not connected |
| WatchdogConnections.WatchdogConnection.constructor | Source/src/ServiceWatchdogConnection.cpp:7-8 | a new client has sent nothing, and its code is whatever was in memory |
| WatchdogConnections.WatchdogConnection.SendConnectRequest | Source/src/ServiceWatchdogConnection.cpp:80-91 | pushes exactly one message: the operation code and the serialised body of a connect request, and that body's size |
| WatchdogConnections.WatchdogConnection.SendPingRequest | Source/src/ServiceWatchdogConnection.cpp:93-104 | pushes exactly one message: the operation code and the serialised body of a ping with the stored code, and that body's size |
| WatchdogConnections.WatchdogConnection.SendReconnectRequest | Source/src/ServiceWatchdogConnection.cpp:106-117 | pushes exactly one message: the operation code and the serialised body of a reconnect request, and that body's size |
| WatchdogConnections.WatchdogConnection.SendShutdownRequest | Source/src/ServiceWatchdogConnection.cpp:119-130 | pushes exactly one message: the operation code and the serialised body of a shutdown request, and that body's size |
| WatchdogConnections.WatchdogConnection.TimerExpired | Source/include/Connection.hpp:151 | one wait less, and one ping with the stored code pushed, expired or cancelled alike |
| WatchdogConnections.WatchdogConnection.OnTimerExpiration | Source/src/ServiceWatchdogConnection.cpp:24 | pushes one ping with the stored code |
| WatchdogConnections.WatchdogConnection.HandleReceivedMessage | Source/src/ServiceWatchdogConnection.cpp:10-44 | by operation code: a ping response with the stored code arms one wait, any other throws; a connect or reconnect response connects on success with a code while not connected, throws its resend on such a refusal, and throws if unparsable; any other code changes nothing |
| WatchdogConnections.WatchdogConnection.HandleResponse | Source/src/ServiceWatchdogConnection.cpp:46-60 | the same effects, and each resend that would be thrown is sent instead; nothing escapes |
| WatchdogConnections.WatchdogConnection.ProcessCaughtResponseException | Source/src/ServiceWatchdogConnection.cpp:62-78 | pushes the request of the error code's kind; a parse failure pushes nothing |
| WatchdogConnections.WatchdogConnection.PostReadMessageBody | Source/include/Connection.hpp:63-77 | the message is handed over and handled completely, then a fresh header read is outstanding; if the handler throws none is; on error the socket is closed |
| ServiceBases.Base.ConnectToWatchdog | Source/src/ServiceBase.cpp:41-50 | on success the socket is connected, exactly the connect request's message has been pushed and a header read is outstanding; otherwise nothing was sent, and a later call may succeed |
| ServiceBases.Base.WaitForConnectResponse | Source/src/ServiceBase.cpp:52-60 | arms one timer wait and returns true exactly if the receive loop has made the state Connected by the time the wait ends; sends nothing |
| WatchdogProtocol.GrantInPieces | Source/src/ServiceWatchdogResponseHandlers.cpp:45-46 | storing the code, then setting the state, without a break is what the handlers do |
| WatchdogProtocol.StateAndCodeAgree | Source/src/ServiceWatchdogResponseHandlers.cpp:15-48 | whatever the watchdog sends, at every interleaving point: at most one accepted response, whoever sees Connected finds its code stored, and neither changes again |
| WatchdogProtocol.HandshakeEvolves | Source/src/ServiceWatchdogResponseHandlers.cpp:15-48 | between any two moments of a run the handshake either is the same or was not connected at the first; Shutdown never occurs |
| WatchdogProtocol.EveryPingCarriesCode | Source/src/ServiceWatchdogConnection.cpp:93-104 | in every run, under either dispatcher: in every state up to a moment every ping sent carries the accepted code and none is sent or scheduled before acceptance, if and only if until then no ping response was handled before acceptance that parses and (under the direct dispatcher) equals the code in memory |
| WatchdogProtocol.PingsFirstSuffices | Source/src/ServiceBase.cpp:41-60 | a watchdog that sends ping responses only once it has been pinged never causes one |
| WatchdogProtocol.UnsolicitedPingResponse | Source/src/ServiceWatchdogConnection.cpp:34-36 | such a response makes a run that ends with a ping carrying the uninitialised code; under the wrapper any code that parses does |
| WatchdogProtocol.Conservation | Source/src/ServiceWatchdogConnection.cpp:10-44 | in every run, whatever is answered: timer waits, unanswered requests and unhandled responses together are at most one more than the responses that answered no request |
| WatchdogProtocol.OneConversation | Source/src/ServiceBase.cpp:52-60 | if each response answers a request and each request is answered at most once, timer waits, unanswered requests and unhandled responses together are at most one; arming never cancels a wait, and a request is sent only when none is unanswered |
| WatchdogProtocol.WaitStartsHeartbeat | Source/src/ServiceBase.cpp:52-60 | a wait that ends in Connected starts a heartbeat of exactly one token; otherwise it changes nothing |
| WatchdogProtocol.HeartbeatGoesOn | Source/src/ServiceWatchdogConnection.cpp:24-36 | under either dispatcher, as long as each ping is answered at most once and with its own code, there is exactly one token in every state: the heartbeat neither stops nor doubles |
| WatchdogProtocol.OneBeat | Source/include/Connection.hpp:151 | timer, ping, answer: one more ping with the accepted code has been sent, and everything else is as before |
| WatchdogProtocol.SilenceIsForEver | Source/src/ServiceBase.cpp:41-60 | without a token and without unsolicited responses the client never changes again |
| WatchdogProtocol.FailedStartIsSilent | Source/src/ServiceBase.cpp:44-49 | a client that cannot connect sends nothing |
| WatchdogProtocol.EachExtraResponseAddsAWait | Source/include/Connection.hpp:227-230 | the bound is reached with live timer waits: k further responses to one ping leave 1 + k waits pending at once, so arming cancels live ones |
| WatchdogProtocol.HaltsExactlyOnThrow | Source/src/ServiceWatchdogConnection.cpp:46-60 | nothing escapes the wrapper; the direct dispatcher has ended the process if and only if a handler has thrown |
| WatchdogProtocol.DispatchersAgree | Source/src/ServiceWatchdogConnection.cpp:17 | one step differs between the dispatchers if and only if it handles a response whose handler throws |
| WatchdogProtocol.DirectRunsAreThrowFree | Source/src/ServiceWatchdogConnection.cpp:10-60 | the runs that the dispatcher in use survives are exactly the runs of the wrapper in which no handler throws |
| WatchdogProtocol.WrapperResends | Source/src/ServiceWatchdogConnection.cpp:46-78 | on each response that the direct dispatcher does not survive, the wrapper sends the request of that kind, or nothing if it did not parse, and changes nothing else |
| WatchdogProtocol.ResponsesInOrder | Source/include/Connection.hpp:63-77 | every response is handled once, in the order of arrival |
| WatchdogProtocol.ThrowsIffDiscourteous | Source/src/ServiceWatchdogResponseHandlers.cpp:15-176 | with a watchdog that answers each request at most once and in kind, a handler has thrown if and only if an answer has been handled that is discourteous to its request: told from request and answer alone, whatever the client's state |
| WatchdogProtocol.HaltsIffDiscourteous | Source/src/ServiceWatchdogConnection.cpp:17 | so the dispatcher in use ends the process if and only if such an answer has been handled |
| WatchdogProtocol.DiscourtesyEndsProcess | Source/src/ServiceWatchdogConnection.cpp:17 | every discourteous response to the connect request makes a run that ends the process |
| ClientSends.CallsArePaced | Source/src/ServiceBase.cpp:41-60 | with a disciplined watchdog, whichever of the client's threads calls, under either dispatcher: sendMessage is called only when every message pushed before has gone out complete |
| ClientSends.SettledCallsAreSafe | Source/include/Connection.hpp:133-210 | if moreover each call finds no chain at work, then with any number of threads at most one is inside sendMessage, there is no crash, and one write at a time, intact frames and nothing lost hold in every state |
| ClientSends.WhichCallsCanCrash | Source/include/Connection.hpp:198-210 | the first call that finds a chain at work, told from the state it is made in: no other thread is inside, and some schedule of it ends in front on an empty queue if and only if its message has a body and the chain has met no error and is not yet past its empty test |
| ClientSends.StuckForEver | Source/include/Connection.hpp:143-147 | once a request is left in the queue with no chain at work, nothing is ever sent or goes out again |
| ClientSendRuns.FirstPingCanCrash | Source/src/ServiceWatchdogConnection.cpp:24 | a run to the point where the first ping is sent by a call that can crash: the connect request has been answered before its completion handler has run |
| ClientSendRuns.DisciplinedClientCanCrash | Source/include/Connection.hpp:199-208 | a run of the whole client with a disciplined watchdog that ends with front called on an empty queue |
| ClientSendRuns.CallsCanOverlap | Source/include/Connection.hpp:227-230 | a run in which a second timer handler enters sendMessage while the first is still inside |
| ClientSendRuns.DisciplinedClientCanHaveTwoWriters | Source/include/Connection.hpp:204-208 | a run in which both then write |
| ClientSendRuns.HeartbeatCanStop | Source/include/Connection.hpp:143-147 | a run without write errors in which the first ping is left in the queue for ever |
| EventIds.ScanIsLeastUnused | Source/src/ServiceSubscriptionEventsCache.cpp:14-25 | on any strictly ascending ids the scan returns the least unused value, and a used one if and only if all 2^32 are used |
| EventIds.DenseScan | Source/src/ServiceMessageEventsCache.cpp:6-17 | on the ids a cache holds it returns the number of entries, up to wrap-around |
| EventIds.DenseIsUniqueIffFits | Source/src/ServiceMessageEventsCache.cpp:6-17 | such ids are unique if and only if there are at most 2^32 |
| SubscriptionEvents.SubscriptionEventsCache.GetNewEventID | Source/src/ServiceSubscriptionEventsCache.cpp:14-25 | the loop computes the scan |
| SubscriptionEvents.SubscriptionEventsCache.AddSubscriptionEvent | Source/src/ServiceSubscriptionEventsCache.cpp:27-42 | appends one event without subscribers and returns its id; a missing handler throws and changes nothing |
| SubscriptionEvents.SubscriptionEventsCache.TriggerMessageHandlers | Source/src/ServiceSubscriptionEventsCache.cpp:44-66 | the nested loops equal the flat-map in registration order, then subscription order |
| SubscriptionEvents.SubscriptionEventsCache.Size | Source/src/ServiceSubscriptionEventsCache.cpp:68-71 | the number of events |
| SubscriptionEvents.SubscriptionEventsCache.AddSubscriberByType | Source/src/ServiceSubscriptionEventsCache.cpp:73-84 | every event of exactly that type gains the subscriber, at the end; no other changes |
| SubscriptionEvents.SubscriptionEventsCache.AddSubscriberById | Source/src/ServiceSubscriptionEventsCache.cpp:86-92 | the first event with that id gains the subscriber; an unknown id changes nothing |
| SubscriptionEvents.EndsWithIff | Source/src/ServiceSubscriptionEventsCache.cpp:49 | the type test: the url is something followed by the event's type |
| SubscriptionEvents.NotifyEach | Source/src/ServiceSubscriptionEventsCache.cpp:49-62 | one event: if the type matches and the handler yields, each subscriber gets what it made, in subscription order; otherwise nobody |
| SubscriptionEvents.FanOutConcat | Source/src/ServiceSubscriptionEventsCache.cpp:48-64 | several events: one after the other |
| SubscriptionLog.CacheRefinesLog | Source/src/ServiceSubscriptionEventsCache.cpp:27-92 | after any sequence of operations a message causes exactly the notifications that can be read off the log of them, in order |
| SubscriptionLog.NotificationCount | Source/src/ServiceSubscriptionEventsCache.cpp:27-92 | a module is notified once for each of its subscriptions, made after registration, to each matching event that yields |
| SubscriptionLog.ReachableIds | Source/src/ServiceSubscriptionEventsCache.cpp:14-42 | in every reachable cache entry i has id i modulo 2^32; ids are unique if and only if there are at most 2^32 events |
| SubscriptionLog.IdsRepeat | Source/src/ServiceSubscriptionEventsCache.cpp:14-42 | a log of 2^32 + 1 registrations makes a cache whose first and last events have the same id |
| SubscriptionLog.EventsPersist | Source/src/ServiceSubscriptionEventsCache.cpp:27-92 | an event keeps place, id, type and handler for ever and only gains subscribers at the end; so up to 2^32 events no id is reused |
| SubscriptionLog.SubscribeOperationsAgree | Source/src/ServiceSubscriptionEventsCache.cpp:73-92 | in every reachable cache, subscribing by the id of entry i changes exactly entry i modulo 2^32, and gives the same cache as subscribing by its type if and only if i is below 2^32 and no other event has that type |
| SubscriptionLog.FanOutGrows | Source/src/ServiceSubscriptionEventsCache.cpp:44-66 | later operations leave the old notifications as a subsequence of the new ones |
| MessageEvents.MessageEventsCache.GetNewEventID | Source/src/ServiceMessageEventsCache.cpp:6-17 | the loop computes the scan |
| MessageEvents.MessageEventsCache.AddMessageEvent | Source/src/ServiceMessageEventsCache.cpp:19-29 | appends one event and returns its id; a missing handler throws and changes nothing |
| MessageEvents.MessageEventsCache.TriggerMessageHandlers | Source/src/ServiceMessageEventsCache.cpp:31-44 | the answers of the handlers that accept the message, in registration order |
| MessageEvents.ResponsesOne | Source/src/ServiceMessageEventsCache.cpp:35-41 | one handler answers exactly if it accepts the message and yields |
| MessageEvents.ResponsesConcat | Source/src/ServiceMessageEventsCache.cpp:35-41 | several answer one after the other |
| MessageEvents.MessageEventsCache.Size | Source/src/ServiceMessageEventsCache.cpp:46-49 | the number of events |
| MessageEvents.ReachableMessageIds | Source/src/ServiceMessageEventsCache.cpp:6-29 | in every reachable cache entry i holds the i-th handler with id i modulo 2^32; ids are unique if and only if there are at most 2^32 |
| ContextWorkers.ContextWorker.constructor | Source/src/ServiceContextWorker.cpp:13-30 | a worker starts with a 1024-byte buffer, or an empty one if binding failed, and no receive outstanding |
| ContextWorkers.ContextWorker.StartRead | Source/src/ServiceContextWorker.cpp:49-52 | a receive is outstanding |
| ContextWorkers.ContextWorker.HandleReceive | Source/src/ServiceContextWorker.cpp:52-118 | an error stops reading and does nothing else; otherwise reading is re-armed, and a request is answered and forwarded, a subscription subscribes its sender, and anything else changes nothing |
| ContextWorkers.ContextWorker.SendReplies | Source/src/ServiceContextWorker.cpp:81-100 | one reply per response, to the sender, with its transaction code |
| ContextWorkers.ContextWorker.HandleSubscriptions | Source/src/ServiceContextWorker.cpp:122-158 | the cache's notifications, in order, to the modules found in the directory |
| Routing.NotificationsHaveCauses | Source/src/ServiceContextWorker.cpp:74-107 | every forwarded notification goes to a module that itself asked for exactly the type of an event registered before, which the message's type url ends with and whose handler made the body |
| Routing.EachNotificationIsForwarded | Source/src/ServiceContextWorker.cpp:122-158 | completeness, for distinct addresses: a module in the directory is sent one request for each of its subscriptions to each event that matches and yields, and an address not in it gets none |
| Routing.ForwardsAll | Source/src/ServiceContextWorker.cpp:128-156 | if the directory knows every recipient, every notification is forwarded, in order, to its own module |
| Routing.ForwardsOne | Source/src/ServiceContextWorker.cpp:129-155 | one notification goes to its module's address with transaction code 19, or to nobody |
| Routing.ForwardsConcat | Source/src/ServiceContextWorker.cpp:128-156 | several are forwarded one after the other |
| Routing.RepliesToEach | Source/src/ServiceContextWorker.cpp:81-100 | as many replies as responses, each to the sender with its transaction code |
| DatagramRace.PairingUnderConcurrency | Source/src/ServiceContextWorker.cpp:49-73 | for every interleaving of threads and arrivals: at most one receive outstanding, no datagram processed twice, every processed payload and endpoint arrived together |
| DatagramRace.PairedIffCopiedFirst | Source/src/ServiceContextWorker.cpp:56-66 | this holds if and only if both copies are made before re-arming |
| DatagramRace.NothingDropped | Source/src/ServiceContextWorker.cpp:49-73 | in every run: a receive is outstanding exactly when every handler has re-armed, and every handler that has run to its end has had its datagram processed |
| DatagramRace.ProgramIsComplete | Source/src/ServiceContextWorker.cpp:56-73 | a handler makes both copies, re-arms and processes exactly once each |
| DatagramRace.FitIsLongestPrefix | Source/src/ServiceContextWorker.cpp:51-59 | a receive keeps as much of the payload as the buffer holds |

## Left out

- Boost.Asio: an operation completes once, with all its bytes or with an error, and a wait's handler runs once; nothing else about sockets, executors or timers is modelled. The branches for short transfers (Connection.hpp:41-42, 103-106) are modelled, but cannot run under that contract.
- SendChannel.OpeningIsHarmlessIffNotExposed: an outstanding write whose socket is reconnected may put its remaining bytes on the new connection. Asio ends a write that is still pending when its socket is closed with an error, so that its account has fewer runs: what is proved for all runs holds there too, but that the rest goes out alone is certain only when a buffer is completely out and its handler has not run, as in SendChannel.ExposedIsReachable, and possible when a part of a buffer has gone out and the next part is not yet under way.
- Protocol buffers: the `.proto` files are not part of this model. Parsers, serialisers and operation numbers are parameters, and `Any` is a type url with bytes.
- Time: expiry and time-outs are events that may come at any moment; nothing is claimed about durations.
- ResponseHandlers.WatchdogConnectionState.SetConnectionStateAndNotify: the notification has no effect of its own, because a wait may end at any moment anyway. Lost and spurious wake-ups are therefore covered, but not who is woken, or that anyone is.
- TcpConnections.TcpConnection.MakeNewSocket: a read that is outstanding on the old socket stays outstanding; in the source it ends with an error.
- SendRace.ReopeningIsHarmlessIffNotExposed: all bytes of a write go out in one step there, so a reconnect inside a header or a body is covered by SendChannel only.
- ClientSends.WhichCallsCanCrash: time is not modelled, so a completion handler may be delayed until the next ping is due. The calls behind the first that finds a chain at work are not classified.
- ClientSendRuns.DisciplinedClientCanCrash: requests are taken to have non-empty bodies, as an empty one stops the connection.
- SendRace.SafeIffOneSender: all bytes of a write go out in one step there; SendChannel has them in any portions. An open socket without a connection is one on which writes fail.
- SubscriptionEvents.SubscriptionEventsCache.TriggerMessageHandlers: handlers are pure functions; a handler with state of its own could answer differently for each subscriber.
- MessageEvents.MessageEventsCache.TriggerMessageHandlers: handlers are pure functions here too.
- TcpConnections.TcpConnection.TakeReceivedMessage: the body handler is split at its virtual call; WatchdogConnections.WatchdogConnection.PostReadMessageBody puts the two halves together, in place of inheritance.
- ContextWorkers.ContextWorker.HandleReceive: one handler run to its end; DatagramRace has the interleavings. The caches' locks make each cache operation one step.
- SendRest.NextSendDrainsTheQueue: bodies are non-empty and writes succeed, as an empty body or an error ends the chain by design.
- The body of UDP replies: the source builds it but never attaches it to the message it sends.
- `closeSocket` (the same as `disconnect`), `blockingWriteMessageHeader` and `waitForConnectionStateChange`: nothing calls them.
- `Shutdown` is never set by the source; it exists in the datatype only.
- The MongoDB directory is a partial map from module id to endpoint; configuration, logging, `EventManager`, `ModulesCache` (its insert never inserts, so it stays empty), `Types.cpp` and the build files take no part in the protocols.
- The lifetime of the string passed to `async_send_to` and moving a `ContextWorker` are memory management, not protocol.
