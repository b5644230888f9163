/** SubscriptionEventsCache (ServiceSubscriptionEventsCache.cpp): what each
    operation does to the vector of events, and the class that does it. */
module SubscriptionEvents {
  import opened Framing
  import opened Wrappers
  import EventIds

  type ModuleIdentifier = n: int | -0x8000_0000 <= n < 0x8000_0000

  /** google.protobuf.Any */
  datatype Any = Any(typeUrl: string, value: seq<Byte>)

  /** A registered handler, taken to be pure. */
  type SubscribeHandler = Any -> Option<Any>

  datatype Subscription = Subscription(
    id: Uint32,
    messageType: string,
    subscribers: seq<ModuleIdentifier>,
    handler: SubscribeHandler)

  datatype Notification = Notification(recipient: ModuleIdentifier, message: Any)

  predicate EndsWith(s: string, suffix: string) {
    |suffix| <= |s| && s[|s| - |suffix|..] == suffix
  }

  function Ids(events: seq<Subscription>): (ids: seq<Uint32>)
    ensures |ids| == |events|
  {
    seq(|events|, i requires 0 <= i < |events| => events[i].id)
  }

  function AddEvent(events: seq<Subscription>, messageType: string, handler: SubscribeHandler): seq<Subscription> {
    events + [Subscription(EventIds.Scan(Ids(events), 0), messageType, [], handler)]
  }

  function Subscribe(event: Subscription, m: ModuleIdentifier): Subscription {
    event.(subscribers := event.subscribers + [m])
  }

  /** Every event of exactly this type gains the subscriber. */
  function SubscribeToType(events: seq<Subscription>, m: ModuleIdentifier, typeUrl: string): (r: seq<Subscription>)
    ensures |r| == |events|
  {
    seq(|events|, i requires 0 <= i < |events| =>
      if events[i].messageType == typeUrl then Subscribe(events[i], m) else events[i])
  }

  /** The first event with this id, or |events|. */
  function Find(events: seq<Subscription>, id: Uint32): (i: nat)
    ensures i <= |events|
    ensures forall j :: 0 <= j < i ==> events[j].id != id
    ensures i < |events| ==> events[i].id == id
  {
    if events == [] || events[0].id == id then 0 else 1 + Find(events[1..], id)
  }

  function SubscribeToId(events: seq<Subscription>, m: ModuleIdentifier, id: Uint32): seq<Subscription> {
    var i := Find(events, id);
    if i < |events| then events[i := Subscribe(events[i], m)] else events
  }

  /** What one event makes of a message: a notification for each of its
      subscribers, if the type url ends with its type and its handler yields. */
  function Notify(messageType: string, handler: SubscribeHandler, subscribers: seq<ModuleIdentifier>, message: Any)
    : (ns: seq<Notification>)
  {
    if EndsWith(message.typeUrl, messageType) && handler(message).Some? then
      seq(|subscribers|, i requires 0 <= i < |subscribers| => Notification(subscribers[i], handler(message).value))
    else []
  }

  function NotifyEvent(event: Subscription, message: Any): seq<Notification> {
    Notify(event.messageType, event.handler, event.subscribers, message)
  }

  /** In registration order, then subscription order. */
  function FanOut(events: seq<Subscription>, message: Any): seq<Notification> {
    if events == [] then []
    else FanOut(events[..|events| - 1], message) + NotifyEvent(events[|events| - 1], message)
  }

  class SubscriptionEventsCache {
    var events: seq<Subscription>

    constructor ()
      ensures events == []
    {
      events := [];
    }

    method GetNewEventID() returns (availableEventID: Uint32)
      ensures availableEventID == EventIds.Scan(Ids(events), 0)
    {
      availableEventID := 0;
      var i := 0;
      while i < |events|
        invariant 0 <= i <= |events|
        invariant EventIds.Scan(Ids(events), 0) == EventIds.Scan(Ids(events)[i..], availableEventID)
      {
        assert Ids(events)[i..][1..] == Ids(events)[i + 1..];
        if events[i].id == availableEventID {
          availableEventID := (availableEventID + 1) % UINT32_LIMIT;
        } else {
          break;
        }
        i := i + 1;
      }
    }

    /** Registering no handler throws and changes nothing. */
    method AddSubscriptionEvent(subscribeType: string, newEvent: Option<SubscribeHandler>)
      returns (subscriptionEventID: Result<Uint32, string>)
      modifies this
      ensures newEvent.None? ==> subscriptionEventID.Err? && events == old(events)
      ensures newEvent.Some? ==>
                && events == AddEvent(old(events), subscribeType, newEvent.value)
                && subscriptionEventID == Ok(events[|events| - 1].id)
                && events == old(events) + [Subscription(subscriptionEventID.value, subscribeType, [], newEvent.value)]
    {
      if newEvent.Some? {
        var id := GetNewEventID();
        events := events + [Subscription(id, subscribeType, [], newEvent.value)];
        subscriptionEventID := Ok(id);
      } else {
        subscriptionEventID := Err("Trying to add null message event");
      }
    }

    method TriggerMessageHandlers(anyMessage: Any) returns (serviceRequests: seq<Notification>)
      ensures serviceRequests == FanOut(events, anyMessage)
    {
      serviceRequests := [];
      var i := 0;
      while i < |events|
        invariant 0 <= i <= |events|
        invariant serviceRequests == FanOut(events[..i], anyMessage)
      {
        var event := events[i];
        ghost var before := serviceRequests;
        if EndsWith(anyMessage.typeUrl, event.messageType) {
          var k := 0;
          while k < |event.subscribers|
            invariant 0 <= k <= |event.subscribers|
            invariant serviceRequests ==
                      before + Notify(event.messageType, event.handler, event.subscribers[..k], anyMessage)
          {
            var newMessage := event.handler(anyMessage);
            if newMessage.Some? {
              serviceRequests := serviceRequests + [Notification(event.subscribers[k], newMessage.value)];
            }
            NotifyGrows(event.messageType, event.handler, event.subscribers[..k], event.subscribers[k], anyMessage);
            assert event.subscribers[..k + 1] == event.subscribers[..k] + [event.subscribers[k]];
            k := k + 1;
          }
          assert event.subscribers[..k] == event.subscribers;
        }
        assert events[..i + 1][..i] == events[..i];
        i := i + 1;
      }
      assert events[..i] == events;
    }

    method Size() returns (size: nat)
      ensures size == |events|
    {
      size := |events|;
    }

    method AddSubscriberByType(moduleIdentifier: ModuleIdentifier, typeUrl: string)
      modifies this
      ensures events == SubscribeToType(old(events), moduleIdentifier, typeUrl)
      ensures |events| == |old(events)|
      ensures forall i :: 0 <= i < |events| ==>
                events[i] == old(events)[i].(
                  subscribers := old(events)[i].subscribers
                                 + if old(events)[i].messageType == typeUrl then [moduleIdentifier] else [])
    {
      var i := 0;
      while i < |events|
        invariant 0 <= i <= |events| == |old(events)|
        invariant forall j :: 0 <= j < i ==> events[j] == SubscribeToType(old(events), moduleIdentifier, typeUrl)[j]
        invariant forall j :: i <= j < |events| ==> events[j] == old(events)[j]
      {
        if events[i].messageType == typeUrl {
          events := events[i := Subscribe(events[i], moduleIdentifier)];
        }
        i := i + 1;
      }
    }

    method AddSubscriberById(identifier: ModuleIdentifier, subscribeEventID: Uint32)
      modifies this
      ensures events == SubscribeToId(old(events), identifier, subscribeEventID)
      ensures |events| == |old(events)|
      ensures forall i :: 0 <= i < |events| ==>
                var first := old(events)[i].id == subscribeEventID
                             && forall j :: 0 <= j < i ==> old(events)[j].id != subscribeEventID;
                events[i] == old(events)[i].(
                  subscribers := old(events)[i].subscribers + if first then [identifier] else [])
    {
      var i := 0;
      while i < |events| && events[i].id != subscribeEventID
        invariant 0 <= i <= |events|
        invariant forall j :: 0 <= j < i ==> events[j].id != subscribeEventID
      {
        i := i + 1;
      }
      assert i == Find(events, subscribeEventID);
      if i < |events| {
        events := events[i := Subscribe(events[i], identifier)];
      }
    }
  }

  lemma EndsWithIff(s: string, suffix: string)
    ensures EndsWith(s, suffix) <==> exists start: string :: s == start + suffix
  {
    if EndsWith(s, suffix) {
      assert s == s[..|s| - |suffix|] + suffix;
    }
  }

  /** One event: if the type url ends with its type and its handler yields, each
      subscriber is notified of what the handler made, in subscription order. */
  lemma NotifyEach(event: Subscription, message: Any)
    ensures var ns := NotifyEvent(event, message);
            var matches := exists start: string :: message.typeUrl == start + event.messageType;
            if matches && event.handler(message).Some? then
              && |ns| == |event.subscribers|
              && forall i :: 0 <= i < |ns| ==> ns[i] == Notification(event.subscribers[i], event.handler(message).value)
            else ns == []
  {
    EndsWithIff(message.typeUrl, event.messageType);
  }

  /** Several events: one after the other. */
  lemma {:induction false} FanOutConcat(a: seq<Subscription>, b: seq<Subscription>, message: Any)
    ensures FanOut(a + b, message) == FanOut(a, message) + FanOut(b, message)
    ensures forall event :: FanOut([event], message) == NotifyEvent(event, message)
  {
    forall event ensures FanOut([event], message) == NotifyEvent(event, message) {
      assert [event][..0] == [];
    }
    if b == [] {
      assert a + b == a;
    } else {
      FanOutConcat(a, b[..|b| - 1], message);
      assert (a + b)[..|a + b| - 1] == a + b[..|b| - 1];
    }
  }

  lemma NotifyGrows(messageType: string, handler: SubscribeHandler, subscribers: seq<ModuleIdentifier>,
                    m: ModuleIdentifier, message: Any)
    ensures Notify(messageType, handler, subscribers + [m], message) ==
            Notify(messageType, handler, subscribers, message) +
            if EndsWith(message.typeUrl, messageType) && handler(message).Some? then
              [Notification(m, handler(message).value)]
            else []
  {
  }
}
