/** The locked FIFO of messages to send (MessageQueue.hpp). Each method is one
    critical section. */
module MessageQueues {
  import opened Framing

  class MessageQueue {
    var messagesQueue: seq<Message>

    constructor ()
      ensures messagesQueue == []
    {
      messagesQueue := [];
    }

    method Push(message: Message) returns (size: nat)
      modifies this
      ensures messagesQueue == old(messagesQueue) + [message] && size == |messagesQueue|
    {
      messagesQueue := messagesQueue + [message];
      size := |messagesQueue|;
    }

    method Front() returns (message: Message)
      requires messagesQueue != []
      ensures message == messagesQueue[0]
    {
      message := messagesQueue[0];
    }

    method Pop()
      requires messagesQueue != []
      modifies this
      ensures messagesQueue == old(messagesQueue)[1..]
    {
      messagesQueue := messagesQueue[1..];
    }

    method Size() returns (size: nat)
      ensures size == |messagesQueue|
    {
      size := |messagesQueue|;
    }

    method Empty() returns (empty: bool)
      ensures empty <==> messagesQueue == []
    {
      empty := messagesQueue == [];
    }
  }
}
