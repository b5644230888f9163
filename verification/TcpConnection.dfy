/** TcpConnection (Connection.hpp) as a class: its fields, its completion
    handlers and its public methods, each tied to one step of the send channel
    or of the receive loop. */
module TcpConnections {
  import opened Framing
  import opened Wrappers
  import opened MessageQueues
  import SC = SendChannel
  import RL = ReceiveLoop

  class TcpConnection {
    const messagesQueue: MessageQueue
    var socket: SC.Socket
    var incomingMessage: Option<Message>
    var sendingInProgress: bool
    /** Timer waits whose handler has not run yet; a cancelled wait still runs it. */
    var timerWaits: nat
    /** Bytes the socket has received that no read has consumed yet. */
    var inbound: seq<Byte>

    // What the I/O layer holds, and the history of the connection.
    ghost var write: SC.WriteOp
    ghost var unwritten: bool
    ghost var popped: seq<Message>
    ghost var past: seq<SC.Stream>
    ghost var current: Option<SC.Stream>
    ghost var reading: RL.Phase
    ghost var delivered: seq<Message>

    ghost function Sending(): SC.Channel
      reads this, messagesQueue
    {
      SC.Channel(popped, messagesQueue.messagesQueue, sendingInProgress, write, socket, unwritten, past, current)
    }

    ghost function Receiving(): RL.Reader
      reads this
    {
      RL.Reader(reading, inbound, delivered)
    }

    /** The read buffer belongs to the read in progress, and a write has a front. */
    ghost predicate Valid()
      reads this, messagesQueue
    {
      && SC.WellFormed(Sending())
      && (write.Writing? ==> sendingInProgress)
      && (reading.ReadingHeader? ==> incomingMessage.Some?)
      && (reading.ReadingBody? ==>
            incomingMessage.Some? && incomingMessage.value.header == reading.header
            && |incomingMessage.value.body| == reading.header.size)
    }

    constructor ()
      ensures Valid() && fresh(messagesQueue)
      ensures Sending() == SC.INITIAL && Receiving() == RL.Reader(RL.NotReading, [], []) && timerWaits == 0
    {
      messagesQueue := new MessageQueue();
      socket, incomingMessage, sendingInProgress, timerWaits, inbound := SC.Closed, None, false, 0, [];
      write, unwritten, popped, past, current := SC.NoWrite, false, [], [], None;
      reading, delivered := RL.NotReading, [];
    }

    // -- writing ---------------------------------------------------------

    method WriteMessageHeader()
      requires messagesQueue.messagesQueue != [] && write.NoWrite?
      modifies this`write
      ensures Sending() == SC.StartHeader(old(Sending()))
      ensures write == if socket.Null? then SC.NoWrite else SC.Writing(SC.HeaderPart, 0)
    {
      if socket != SC.Null {
        write := SC.Writing(SC.HeaderPart, 0);
      }
    }

    method WriteMessageBody()
      requires messagesQueue.messagesQueue != [] && write.NoWrite?
      modifies this`write
      ensures write == SC.Writing(SC.BodyPart, 0)
    {
      write := SC.Writing(SC.BodyPart, 0);
    }

    method PopFront()
      requires messagesQueue.messagesQueue != []
      modifies this`popped, this`current, this`write, messagesQueue
      ensures Sending() == SC.Pop(old(Sending()))
    {
      ghost var front := messagesQueue.messagesQueue[0];
      messagesQueue.Pop();
      popped := popped + [front];
      write := SC.NoWrite;
      if current.Some? {
        current := Some(current.value.(next := current.value.next + 1));
      }
    }

    method PostWriteMessageHeader(error: bool, bytesTransferred: nat)
      requires Valid() && socket != SC.Null && write.Writing? && write.part.HeaderPart?
      modifies this`write, this`popped, this`current, this`socket, this`sendingInProgress, messagesQueue
      ensures Valid() && socket != SC.Null
      ensures Sending() == SC.Step(old(Sending()), if error then SC.WriteFailed else SC.WriteDone(bytesTransferred))
      ensures error ==> socket.Closed? && !sendingInProgress && write.NoWrite?
      ensures !error ==> socket == old(socket) && sendingInProgress == old(sendingInProgress)
      ensures var queue := old(messagesQueue.messagesQueue);
              if error || bytesTransferred != HEADER_SIZE || queue[0].body != [] then
                messagesQueue.messagesQueue == queue && popped == old(popped)
              else messagesQueue.messagesQueue == queue[1..] && popped == old(popped) + [queue[0]]
      ensures !error ==>
                write == if bytesTransferred != HEADER_SIZE then SC.Writing(SC.HeaderPart, 0)
                         else if old(messagesQueue.messagesQueue)[0].body != [] then SC.Writing(SC.BodyPart, 0)
                         else if messagesQueue.messagesQueue != [] then SC.Writing(SC.HeaderPart, 0)
                         else SC.NoWrite
    {
      write := SC.NoWrite;
      if error {
        Disconnect();
        sendingInProgress := false;
      } else if bytesTransferred != HEADER_SIZE {
        WriteMessageHeader();
      } else {
        var front := messagesQueue.Front();
        if |front.body| > 0 {
          WriteMessageBody();
        } else {
          PopFront();
          var empty := messagesQueue.Empty();
          if !empty {
            WriteMessageHeader();
          }
        }
      }
    }

    method PostWriteMessageBody(error: bool, bytesTransferred: nat)
      requires Valid() && socket != SC.Null && write.Writing? && write.part.BodyPart?
      modifies this`write, this`popped, this`current, this`socket, this`sendingInProgress, messagesQueue
      ensures Valid() && socket != SC.Null
      ensures Sending() == SC.Step(old(Sending()), if error then SC.WriteFailed else SC.WriteDone(bytesTransferred))
      ensures error ==> socket.Closed? && !sendingInProgress && write.NoWrite?
      ensures error ==> messagesQueue.messagesQueue == old(messagesQueue.messagesQueue) && popped == old(popped)
      ensures !error ==>
                && socket == old(socket)
                && messagesQueue.messagesQueue == old(messagesQueue.messagesQueue)[1..]
                && popped == old(popped) + [old(messagesQueue.messagesQueue)[0]]
                && (sendingInProgress <==> messagesQueue.messagesQueue != [])
                && write == if messagesQueue.messagesQueue != [] then SC.Writing(SC.HeaderPart, 0) else SC.NoWrite
    {
      write := SC.NoWrite;
      if error {
        Disconnect();
        sendingInProgress := false;
      } else {
        PopFront();
        var empty := messagesQueue.Empty();
        if !empty {
          WriteMessageHeader();
        } else {
          sendingInProgress := false;
        }
      }
    }

    method SendMessage(message: Message)
      requires Valid()
      modifies this`write, this`sendingInProgress, messagesQueue
      ensures Valid()
      ensures Sending() == SC.Step(old(Sending()), SC.Send(message))
      ensures SC.Log(Sending()) == old(SC.Log(Sending())) + [message]
      ensures messagesQueue.messagesQueue == old(messagesQueue.messagesQueue) + [message]
      ensures if (socket.Unconnected? || socket.Connected?) && !old(sendingInProgress) then
                sendingInProgress && write == SC.Writing(SC.HeaderPart, 0)
              else sendingInProgress == old(sendingInProgress) && write == old(write)
    {
      var messagesInQueue := messagesQueue.Push(message);
      if socket == SC.Null {
      } else if !SC.IsOpen(socket) {
      } else if sendingInProgress {
      } else {
        sendingInProgress := true;
        WriteMessageHeader();
      }
    }

    // -- the socket ------------------------------------------------------

    method Disconnect()
      requires socket != SC.Null
      modifies this`socket
      ensures socket == SC.CloseSocket(old(socket)) && socket.Closed?
    {
      if SC.IsOpen(socket) {
        socket := SC.Closed;
      }
    }

    method IsConnected() returns (connected: bool)
      requires socket != SC.Null
      ensures connected <==> socket.Unconnected? || socket.Connected?
    {
      connected := SC.IsOpen(socket);
    }

    /** `succeeds` and `leavesOpen` are the operating system's answer: a failed
        connect may leave the socket open. On a connected socket it refuses. */
    method Connect(succeeds: bool, leavesOpen: bool) returns (connected: bool)
      requires Valid()
      modifies this`socket, this`unwritten, this`inbound
      ensures Valid() && connected == (succeeds && (old(socket).Closed? || old(socket).Unconnected?))
      ensures Sending() == SC.Step(old(Sending()), SC.Connect(succeeds, leavesOpen))
      ensures inbound == if connected then [] else old(inbound)
      ensures connected ==> socket.Connected? && unwritten
      ensures !connected ==> unwritten == old(unwritten)
      ensures !connected ==>
                socket == if (old(socket).Closed? || old(socket).Unconnected?) && leavesOpen then SC.Unconnected
                          else old(socket)
    {
      connected := true;
      if socket != SC.Null {
        if socket == SC.Connected {
          connected := false;
        } else if succeeds {
          socket, unwritten, inbound := SC.Connected, true, [];
        } else {
          socket := if leavesOpen then SC.Unconnected else socket;
          connected := false;
        }
      } else {
        connected := false;
      }
    }

    /** The old socket and the bytes no read has consumed are gone. */
    method MakeNewSocket()
      requires Valid()
      modifies this`socket, this`inbound
      ensures Valid() && Sending() == SC.Step(old(Sending()), SC.MakeNewSocket)
      ensures socket.Closed? && inbound == []
    {
      socket, inbound := SC.Closed, [];
    }

    /** Arming cancels a pending wait, but a cancelled wait's handler still runs. */
    method SetTimerExpiration()
      modifies this`timerWaits
      ensures timerWaits == old(timerWaits) + 1
    {
      timerWaits := timerWaits + 1;
    }

    // -- reading ---------------------------------------------------------

    method ReadMessageHeader()
      modifies this`reading
      ensures reading == RL.ReadingHeader
    {
      reading := RL.ReadingHeader;
    }

    method StartReadingSequence()
      requires Valid()
      modifies this`reading, this`incomingMessage
      ensures Valid() && Receiving() == old(Receiving()).(phase := RL.ReadingHeader)
      ensures reading == RL.ReadingHeader && incomingMessage == Some(Message(Header(0, 0), []))
    {
      if incomingMessage.Some? {
        incomingMessage := None;
      }
      incomingMessage := Some(Message(Header(0, 0), []));
      ReadMessageHeader();
    }

    method PostReadMessageHeader(error: bool, bytesTransferred: nat)
      requires Valid() && socket != SC.Null && reading.ReadingHeader?
      requires !error ==> RL.Possible(Receiving(), RL.HeaderRead(bytesTransferred))
      modifies this`reading, this`incomingMessage, this`inbound, this`socket
      ensures Valid() && socket == if error then SC.CloseSocket(old(socket)) else old(socket)
      ensures Receiving() == RL.Step(old(Receiving()), if error then RL.Fail else RL.HeaderRead(bytesTransferred))
      ensures error ==> socket.Closed? && reading == RL.ReadFailed(None) && inbound == old(inbound)
      ensures !error ==> inbound == old(inbound)[bytesTransferred..]
      ensures !error && bytesTransferred != HEADER_SIZE ==> reading == RL.NotReading
      ensures !error && bytesTransferred == HEADER_SIZE ==>
                var header := DecodeHeader(old(inbound)[..HEADER_SIZE]);
                if header.size == 0 then reading == RL.EmptyBodyRequested(header)
                else
                  && reading == RL.ReadingBody(header)
                  && incomingMessage.Some? && |incomingMessage.value.body| == header.size
    {
      if error {
        Disconnect();
        reading := RL.ReadFailed(None);
      } else {
        var read := inbound[..bytesTransferred];
        inbound := inbound[bytesTransferred..];
        if bytesTransferred != HEADER_SIZE {
          reading := RL.NotReading;
        } else {
          var header := DecodeHeader(read);
          incomingMessage := Some(incomingMessage.value.(header := header));
          if header.size <= 0 {
            reading := RL.EmptyBodyRequested(header);
          } else {
            incomingMessage := Some(Message(header, seq(header.size, _ => 0)));
            reading := RL.ReadingBody(header);
          }
        }
      }
    }

    /** The body handler up to the call of the message handler: the message is
        moved out of the read buffer, and reading is not yet re-armed. */
    method TakeReceivedMessage(error: bool) returns (received: Option<Message>)
      requires Valid() && socket != SC.Null && reading.ReadingBody?
      requires !error ==> RL.Enabled(Receiving(), RL.BodyRead)
      modifies this`reading, this`incomingMessage, this`inbound, this`socket, this`delivered
      ensures Valid() && socket == if error then SC.CloseSocket(old(socket)) else old(socket)
      ensures error ==> received == None && Receiving() == RL.Step(old(Receiving()), RL.Fail)
      ensures !error ==> Receiving() == RL.Step(old(Receiving()), RL.BodyRead).(phase := RL.NotReading)
      ensures !error ==> delivered != [] && received == Some(delivered[|delivered| - 1])
      ensures error ==> socket.Closed? && reading.ReadFailed? && inbound == old(inbound) && delivered == old(delivered)
      ensures !error ==>
                var header := old(reading).header;
                && received == Some(Message(header, old(inbound)[..header.size]))
                && delivered == old(delivered) + [received.value]
                && inbound == old(inbound)[header.size..]
    {
      if error {
        received := None;
        Disconnect();
        reading := RL.ReadFailed(Some(incomingMessage.value.header));
      } else {
        var size := |incomingMessage.value.body|;
        received := Some(Message(incomingMessage.value.header, inbound[..size]));
        inbound := inbound[size..];
        incomingMessage := None;
        delivered := delivered + [received.value];
        reading := RL.NotReading;
      }
    }
  }
}
