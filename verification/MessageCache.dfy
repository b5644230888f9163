/** MessageEventsCache (ServiceMessageEventsCache.cpp). */
module MessageEvents {
  import opened Framing
  import opened Wrappers
  import opened SubscriptionEvents
  import EventIds

  datatype Endpoint = Endpoint(address: string, port: int)

  datatype Sender = Sender(senderIdentifier: ModuleIdentifier, senderEndpoint: Endpoint)

  /** EventInterface, its two methods taken to be pure. */
  datatype MessageHandler = MessageHandler(
    validate: Any -> bool,
    handle: (Sender, Any) -> Option<Any>)

  datatype MessageEvent = MessageEvent(id: Uint32, handler: MessageHandler)

  function MessageIds(events: seq<MessageEvent>): (ids: seq<Uint32>)
    ensures |ids| == |events|
  {
    seq(|events|, i requires 0 <= i < |events| => events[i].id)
  }

  function AddMessage(events: seq<MessageEvent>, handler: MessageHandler): seq<MessageEvent> {
    events + [MessageEvent(EventIds.Scan(MessageIds(events), 0), handler)]
  }

  /** The answers of the handlers that accept the message, in registration order. */
  function Responses(events: seq<MessageEvent>, sender: Sender, message: Any): seq<Any> {
    if events == [] then []
    else
      var before, h := Responses(events[..|events| - 1], sender, message), events[|events| - 1].handler;
      if h.validate(message) && h.handle(sender, message).Some? then before + [h.handle(sender, message).value]
      else before
  }

  /** One handler answers exactly if it accepts the message and yields. */
  lemma ResponsesOne(event: MessageEvent, sender: Sender, message: Any)
    ensures Responses([event], sender, message) ==
            if !event.handler.validate(message) then []
            else match event.handler.handle(sender, message)
                 case Some(answer) => [answer]
                 case None => []
  {
    assert [event][..0] == [];
  }

  /** Several handlers answer one after the other. */
  lemma {:induction false} ResponsesConcat(a: seq<MessageEvent>, b: seq<MessageEvent>, sender: Sender, message: Any)
    ensures Responses(a + b, sender, message) == Responses(a, sender, message) + Responses(b, sender, message)
  {
    if b == [] {
      assert a + b == a;
    } else {
      ResponsesConcat(a, b[..|b| - 1], sender, message);
      assert (a + b)[..|a + b| - 1] == a + b[..|b| - 1];
    }
  }

  function CacheOf(handlers: seq<MessageHandler>): seq<MessageEvent> {
    if handlers == [] then [] else AddMessage(CacheOf(handlers[..|handlers| - 1]), handlers[|handlers| - 1])
  }

  /** Here too entry i has id i up to wrap-around, the ids are unique exactly up
      to 2^32 entries, and every handler stays where it was registered. */
  lemma {:induction false} ReachableMessageIds(handlers: seq<MessageHandler>)
    ensures var events := CacheOf(handlers);
            && |events| == |handlers|
            && (forall i :: 0 <= i < |handlers| ==> events[i] == MessageEvent(i % UINT32_LIMIT, handlers[i]))
            && (EventIds.Unique(MessageIds(events)) <==> |events| <= UINT32_LIMIT)
  {
    if handlers != [] {
      ReachableMessageIds(handlers[..|handlers| - 1]);
      var before := CacheOf(handlers[..|handlers| - 1]);
      forall i | 0 <= i < |before| ensures MessageIds(before)[i] == i % UINT32_LIMIT {
        assert before[i] == MessageEvent(i % UINT32_LIMIT, handlers[i]);
      }
      EventIds.DenseScan(MessageIds(before));
    }
    EventIds.DenseIsUniqueIffFits(MessageIds(CacheOf(handlers)));
  }

  class MessageEventsCache {
    var events: seq<MessageEvent>

    constructor ()
      ensures events == []
    {
      events := [];
    }

    method GetNewEventID() returns (availableEventID: Uint32)
      ensures availableEventID == EventIds.Scan(MessageIds(events), 0)
    {
      availableEventID := 0;
      var i := 0;
      while i < |events|
        invariant 0 <= i <= |events|
        invariant EventIds.Scan(MessageIds(events), 0) == EventIds.Scan(MessageIds(events)[i..], availableEventID)
      {
        assert MessageIds(events)[i..][1..] == MessageIds(events)[i + 1..];
        if events[i].id == availableEventID {
          availableEventID := (availableEventID + 1) % UINT32_LIMIT;
        } else {
          break;
        }
        i := i + 1;
      }
    }

    method AddMessageEvent(newEvent: Option<MessageHandler>) returns (messageEventID: Result<Uint32, string>)
      modifies this
      ensures newEvent.None? ==> messageEventID.Err? && events == old(events)
      ensures newEvent.Some? ==>
                && events == AddMessage(old(events), newEvent.value)
                && messageEventID == Ok(events[|events| - 1].id)
                && events == old(events) + [MessageEvent(messageEventID.value, newEvent.value)]
    {
      if newEvent.Some? {
        var id := GetNewEventID();
        events := events + [MessageEvent(id, newEvent.value)];
        messageEventID := Ok(id);
      } else {
        messageEventID := Err("Trying to add null message event");
      }
    }

    method TriggerMessageHandlers(sender: Sender, anyMessage: Any) returns (responses: seq<Any>)
      ensures responses == Responses(events, sender, anyMessage)
    {
      responses := [];
      var i := 0;
      while i < |events|
        invariant 0 <= i <= |events|
        invariant responses == Responses(events[..i], sender, anyMessage)
      {
        if events[i].handler.validate(anyMessage) {
          var response := events[i].handler.handle(sender, anyMessage);
          if response.Some? {
            responses := responses + [response.value];
          }
        }
        assert events[..i + 1][..i] == events[..i];
        i := i + 1;
      }
      assert events[..i] == events;
    }

    method Size() returns (size: nat)
      ensures size == |events|
    {
      size := |events|;
    }
  }
}
