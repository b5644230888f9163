/** The start-up sequence (ServiceBase.cpp:41-60). */
module ServiceBases {
  import opened Framing
  import opened ResponseHandlers
  import opened WatchdogClient
  import opened WatchdogConnections
  import SC = SendChannel
  import RL = ReceiveLoop

  class Base {
    const watchdogConnectionState: WatchdogConnectionState
    const watchdogConnection: WatchdogConnection

    constructor (codec: Codec, garbage: Uint32)
      requires DistinctOperations(codec)
      ensures watchdogConnection.Valid() && fresh(watchdogConnectionState) && fresh(watchdogConnection)
      ensures watchdogConnection.watchdogConnectionState == watchdogConnectionState
      ensures fresh(watchdogConnection.sequenceCode) && fresh(watchdogConnection.connection)
      ensures fresh(watchdogConnection.connection.messagesQueue)
      ensures watchdogConnection.connection.socket.Closed?
      ensures watchdogConnection.View() == Client(Handshake(NotConnected, garbage), 0, [])
    {
      var state := new WatchdogConnectionState();
      watchdogConnectionState := state;
      watchdogConnection := new WatchdogConnection(state, codec, garbage);
    }

    /** `succeeds` and `leavesOpen` are the operating system's answer to connect. */
    method ConnectToWatchdog(succeeds: bool, leavesOpen: bool) returns (connectedToWatchdog: bool)
      requires watchdogConnection.Valid()
      modifies watchdogConnection`sent, watchdogConnection.connection, watchdogConnection.connection.messagesQueue
      ensures watchdogConnection.Valid()
      ensures var socket := old(watchdogConnection.connection.socket);
              connectedToWatchdog == (succeeds && (socket.Closed? || socket.Unconnected?))
      ensures watchdogConnection.connection.socket ==
              SC.Step(old(watchdogConnection.connection.Sending()), SC.Connect(succeeds, leavesOpen)).socket
      ensures watchdogConnection.View() ==
              if connectedToWatchdog then Send(old(watchdogConnection.View()), ConnectRequest)
              else old(watchdogConnection.View())
      ensures connectedToWatchdog ==>
                && watchdogConnection.connection.reading == RL.ReadingHeader
                && watchdogConnection.connection.incomingMessage.Some?
                && watchdogConnection.connection.socket.Connected?
                && watchdogConnection.sent == old(watchdogConnection.sent) + [ConnectRequest]
                && watchdogConnection.Enqueued(ConnectRequest)
      ensures !connectedToWatchdog ==>
                && watchdogConnection.sent == old(watchdogConnection.sent)
                && watchdogConnection.connection.reading == old(watchdogConnection.connection.reading)
                && watchdogConnection.connection.messagesQueue.messagesQueue
                   == old(watchdogConnection.connection.messagesQueue.messagesQueue)
    {
      connectedToWatchdog := false;
      var connected := watchdogConnection.connection.Connect(succeeds, leavesOpen);
      if connected {
        watchdogConnection.SendConnectRequest();
        watchdogConnection.connection.StartReadingSequence();
        connectedToWatchdog := true;
      }
    }

    /** Arms the ping timer if, when the wait ends, the state is Connected.
        `meanwhile` is what the receive loop has made of state and code by then. */
    method WaitForConnectResponse(meanwhile: Handshake) returns (connected: bool)
      requires watchdogConnection.Valid()
      requires watchdogConnection.watchdogConnectionState == watchdogConnectionState
      requires MayBecome(watchdogConnection.View().handshake, meanwhile)
      modifies watchdogConnectionState, watchdogConnection.sequenceCode, watchdogConnection.connection`timerWaits
      ensures watchdogConnection.Valid()
      ensures connected <==> meanwhile.state.Connected?
      ensures var before := old(watchdogConnection.View());
              watchdogConnection.View() ==
              before.(handshake := meanwhile, timerWaits := before.timerWaits + if connected then 1 else 0)
      ensures watchdogConnection.connection.timerWaits ==
              old(watchdogConnection.connection.timerWaits) + if meanwhile.state.Connected? then 1 else 0
    {
      connected := false;
      watchdogConnection.sequenceCode.value := meanwhile.code;
      var connectionState := watchdogConnectionState.TimedWaitForConnection(meanwhile.state);
      if connectionState == Connected {
        watchdogConnection.connection.SetTimerExpiration();
        connected := true;
      }
    }
  }
}
