/** The UDP worker (ServiceContextWorker.cpp): what one received datagram does,
    the class that does it, and why notifications go where they go. */
module Routing {
  import opened Wrappers
  import opened SubscriptionEvents
  import opened SubscriptionLog
  import opened MessageEvents

  /** A parsed ServiceModule::Message. */
  datatype ServiceMessage = ServiceMessage(
    senderIdentifier: ModuleIdentifier,
    isModuleRequest: bool,
    transactionCode: int,
    request: Option<Any>,
    subscribedType: Option<string>)

  /** The modules directory at the moment it is asked. */
  type Directory = map<ModuleIdentifier, Endpoint>

  datatype Outgoing =
    | ServiceResponse(to: Endpoint, transactionCode: int)
    | ServiceRequest(to: Endpoint, transactionCode: int, request: Any)

  const NOTIFICATION_TRANSACTION: int := 19

  /** One reply for each response, to the sender, echoing its transaction code. */
  function Replies(responses: seq<Any>, to: Endpoint, transactionCode: int): seq<Outgoing> {
    seq(|responses|, _ => ServiceResponse(to, transactionCode))
  }

  /** One request for each notification whose module is in the directory, in order. */
  function Forwards(ns: seq<Notification>, directory: Directory): seq<Outgoing> {
    if ns == [] then []
    else
      var before, n := Forwards(ns[..|ns| - 1], directory), ns[|ns| - 1];
      if n.recipient in directory then
        before + [ServiceRequest(directory[n.recipient], NOTIFICATION_TRANSACTION, n.message)]
      else before
  }

  lemma RepliesToEach(responses: seq<Any>, to: Endpoint, transactionCode: int)
    ensures |Replies(responses, to, transactionCode)| == |responses|
    ensures forall r <- Replies(responses, to, transactionCode) :: r == ServiceResponse(to, transactionCode)
  {
  }

  /** One notification: forwarded to its module's address, or to nobody. */
  lemma ForwardsOne(n: Notification, directory: Directory)
    ensures Forwards([n], directory) ==
            if n.recipient !in directory then []
            else [ServiceRequest(directory[n.recipient], 19, n.message)]
  {
    assert [n][..0] == [];
  }

  /** Several: one after the other. */
  lemma {:induction false} ForwardsConcat(a: seq<Notification>, b: seq<Notification>, directory: Directory)
    ensures Forwards(a + b, directory) == Forwards(a, directory) + Forwards(b, directory)
  {
    if b == [] {
      assert a + b == a;
    } else {
      ForwardsConcat(a, b[..|b| - 1], directory);
      assert (a + b)[..|a + b| - 1] == a + b[..|b| - 1];
    }
  }

  /** If the directory knows every recipient, every notification is forwarded, in
      order, to its own module. */
  lemma {:induction false} ForwardsAll(ns: seq<Notification>, directory: Directory)
    requires forall i :: 0 <= i < |ns| ==> ns[i].recipient in directory
    ensures |Forwards(ns, directory)| == |ns|
    ensures forall i :: 0 <= i < |ns| ==>
              Forwards(ns, directory)[i] ==
              ServiceRequest(directory[ns[i].recipient], NOTIFICATION_TRANSACTION, ns[i].message)
  {
    if ns != [] {
      ForwardsAll(ns[..|ns| - 1], directory);
    }
  }

  function CountSentTo(sent: seq<Outgoing>, to: Endpoint): nat {
    if sent == [] then 0
    else CountSentTo(sent[..|sent| - 1], to) + if sent[|sent| - 1].to == to then 1 else 0
  }

  predicate DistinctAddresses(directory: Directory) {
    forall a, b :: a in directory && b in directory && directory[a] == directory[b] ==> a == b
  }

  lemma CountSentToAppend(sent: seq<Outgoing>, o: Outgoing, to: Endpoint)
    ensures CountSentTo(sent + [o], to) == CountSentTo(sent, to) + if o.to == to then 1 else 0
  {
    assert (sent + [o])[..|sent|] == sent;
  }

  lemma {:induction false} ForwardsCount(ns: seq<Notification>, directory: Directory, m: ModuleIdentifier)
    requires DistinctAddresses(directory) && m in directory
    ensures CountSentTo(Forwards(ns, directory), directory[m]) == CountNotified(ns, m)
  {
    if ns != [] {
      var earlier, n := ns[..|ns| - 1], ns[|ns| - 1];
      ForwardsCount(earlier, directory, m);
      if n.recipient in directory {
        assert directory[n.recipient] == directory[m] <==> n.recipient == m;
        CountSentToAppend(Forwards(earlier, directory),
                          ServiceRequest(directory[n.recipient], NOTIFICATION_TRANSACTION, n.message), directory[m]);
      }
    }
  }

  lemma {:induction false} OnlyKnownAddresses(ns: seq<Notification>, directory: Directory, to: Endpoint)
    requires forall m :: m in directory ==> directory[m] != to
    ensures CountSentTo(Forwards(ns, directory), to) == 0
  {
    if ns != [] {
      var earlier, n := ns[..|ns| - 1], ns[|ns| - 1];
      OnlyKnownAddresses(earlier, directory, to);
      if n.recipient in directory {
        CountSentToAppend(Forwards(earlier, directory),
                          ServiceRequest(directory[n.recipient], NOTIFICATION_TRANSACTION, n.message), to);
      }
    }
  }

  predicate IsRequest(parsed: Option<ServiceMessage>) {
    parsed.Some? && parsed.value.isModuleRequest && parsed.value.request.Some?
  }

  predicate IsSubscription(parsed: Option<ServiceMessage>) {
    && parsed.Some? && parsed.value.isModuleRequest
    && parsed.value.request.None? && parsed.value.subscribedType.Some?
  }

  /** What a datagram makes the worker send. */
  function Output(messages: seq<MessageEvent>, subscriptions: seq<Subscription>, parsed: Option<ServiceMessage>,
                  from: Endpoint, directory: Directory): seq<Outgoing>
  {
    if IsRequest(parsed) then
      var m := parsed.value;
      Replies(Responses(messages, Sender(m.senderIdentifier, from), m.request.value), from, m.transactionCode) +
      Forwards(FanOut(subscriptions, m.request.value), directory)
    else []
  }

  /** What it does to the subscription cache. */
  function AsOp(parsed: Option<ServiceMessage>): Option<Op> {
    if IsRequest(parsed) then Some(Trigger(parsed.value.request.value))
    else if IsSubscription(parsed) then
      Some(SubscribeByType(parsed.value.senderIdentifier, parsed.value.subscribedType.value))
    else None
  }

  // -- causality -------------------------------------------------------------

  datatype Happening =
    | Registered(messageType: string, handler: Option<SubscribeHandler>)
    | Received(parsed: Option<ServiceMessage>, from: Endpoint, directory: Directory)

  /** A datagram that is neither request nor subscription is like a trigger: it
      leaves the cache alone. */
  function OpOf(h: Happening): Op {
    match h
    case Registered(messageType, handler) => Register(messageType, handler)
    case Received(parsed, _, _) => if AsOp(parsed).Some? then AsOp(parsed).value else Trigger(Any("", []))
  }

  function Ops(history: seq<Happening>): (log: seq<Op>)
    ensures |log| == |history|
  {
    seq(|history|, i requires 0 <= i < |history| => OpOf(history[i]))
  }

  /** Completeness, for every history before a request arrives: a module in the
      directory is sent one request for each of its subscriptions, made after the
      registration, to each event that matches and yields; and nothing is sent to an
      address that is not in the directory. */
  lemma EachNotificationIsForwarded(history: seq<Happening>, message: Any, directory: Directory,
                                    m: ModuleIdentifier, to: Endpoint)
    requires DistinctAddresses(directory)
    ensures var sent := Forwards(FanOut(CacheAfter(Ops(history)), message), directory);
            && (m in directory ==>
                  CountSentTo(sent, directory[m]) == ExpectedCount(Ops(history), |history|, m, message))
            && ((forall known :: known in directory ==> directory[known] != to) ==> CountSentTo(sent, to) == 0)
  {
    var ns := FanOut(CacheAfter(Ops(history)), message);
    NotificationCount(Ops(history), m, message);
    if m in directory {
      ForwardsCount(ns, directory, m);
    }
    if forall known :: known in directory ==> directory[known] != to {
      OnlyKnownAddresses(ns, directory, to);
    }
  }

  /** The notification `n` is owed to the subscription `k` to the event registered
      at `r`. */
  predicate Owed(log: seq<Op>, r: nat, k: nat, n: Notification, message: Any) {
    && r < k < |log| && IsRegistration(log[r]) && SubscribesTo(log, k, r)
    && log[k].subscriber == n.recipient
    && EndsWith(message.typeUrl, log[r].messageType)
    && log[r].handler.value(message) == Some(n.message)
  }

  lemma {:induction false} SubscriberSubscribed(log: seq<Op>, r: nat, end: nat, i: nat) returns (k: nat)
    requires r < |log| && IsRegistration(log[r]) && end <= |log| && i < |SubscribersOf(log, r, end)|
    ensures r < k < end && SubscribesTo(log, k, r) && log[k].subscriber == SubscribersOf(log, r, end)[i]
  {
    if i < |SubscribersOf(log, r, end - 1)| {
      k := SubscriberSubscribed(log, r, end - 1, i);
    } else {
      k := end - 1;
    }
  }

  lemma {:induction false} NotificationIsOwed(log: seq<Op>, end: nat, message: Any, i: nat) returns (r: nat, k: nat)
    requires end <= |log| && i < |LogFanOut(log, end, message)|
    ensures Owed(log, r, k, LogFanOut(log, end, message)[i], message)
  {
    var before := LogFanOut(log, end - 1, message);
    if i < |before| {
      r, k := NotificationIsOwed(log, end - 1, message, i);
    } else {
      r := end - 1;
      k := SubscriberSubscribed(log, r, |log|, i - |before|);
    }
  }

  lemma {:induction false} ForwardComesFrom(ns: seq<Notification>, directory: Directory, i: nat) returns (j: nat)
    requires i < |Forwards(ns, directory)|
    ensures j < |ns| && ns[j].recipient in directory
    ensures Forwards(ns, directory)[i] ==
            ServiceRequest(directory[ns[j].recipient], NOTIFICATION_TRANSACTION, ns[j].message)
  {
    var before := Forwards(ns[..|ns| - 1], directory);
    if i < |before| {
      j := ForwardComesFrom(ns[..|ns| - 1], directory, i);
    } else {
      j := |ns| - 1;
    }
  }

  /** `registration` and `subscription` together are why `sent` is sent on. */
  predicate Caused(registration: Happening, subscription: Happening, message: Any, directory: Directory,
                   sent: Outgoing)
  {
    && registration.Registered? && registration.handler.Some?
    && subscription.Received? && IsSubscription(subscription.parsed)
    && subscription.parsed.value.subscribedType.value == registration.messageType
    && EndsWith(message.typeUrl, registration.messageType)
    && registration.handler.value(message).Some?
    && subscription.parsed.value.senderIdentifier in directory
    && sent == ServiceRequest(directory[subscription.parsed.value.senderIdentifier], NOTIFICATION_TRANSACTION,
                              registration.handler.value(message).value)
  }

  /** Causality, for every history of registrations and datagrams before a request
      arrives: each request sent on goes to the directory's address of a module
      which had itself asked for exactly the type of an event registered before
      that, which the message's type url ends with and whose handler made the
      body that is sent. */
  lemma NotificationsHaveCauses(history: seq<Happening>, message: Any, directory: Directory, i: nat)
    returns (r: nat, k: nat)
    requires i < |Forwards(FanOut(CacheAfter(Ops(history)), message), directory)|
    ensures r < k < |history|
    ensures Caused(history[r], history[k], message, directory,
                   Forwards(FanOut(CacheAfter(Ops(history)), message), directory)[i])
  {
    var log := Ops(history);
    var ns := FanOut(CacheAfter(log), message);
    var j := ForwardComesFrom(ns, directory, i);
    CacheRefinesLog(log, message);
    r, k := NotificationIsOwed(log, |log|, message, j);
    assert log[r] == OpOf(history[r]) && log[k] == OpOf(history[k]);
  }
}

module ContextWorkers {
  import opened Framing
  import opened Wrappers
  import opened Sequences
  import opened SubscriptionEvents
  import opened SubscriptionLog
  import opened MessageEvents
  import opened Routing

  const BUFFER_SIZE: nat := 1024

  class ContextWorker {
    const messageEventsCache: MessageEventsCache
    const subscriptionEventsCache: SubscriptionEventsCache
    const messageBuffer: array<Byte>
    const parse: seq<Byte> -> Option<ServiceMessage>
    var remoteEndpoint: Endpoint
    var receiving: bool
    var sent: seq<Outgoing>

    /** `bound` is the operating system's answer to opening and binding the socket;
        the buffer gets its size only after that. */
    constructor (messageEventsCache: MessageEventsCache, subscriptionEventsCache: SubscriptionEventsCache,
                 parse: seq<Byte> -> Option<ServiceMessage>, bound: bool)
      ensures messageBuffer.Length == if bound then 1024 else 0
      ensures fresh(messageBuffer) && !receiving && sent == []
      ensures this.messageEventsCache == messageEventsCache && this.parse == parse
      ensures this.subscriptionEventsCache == subscriptionEventsCache
    {
      this.messageEventsCache, this.subscriptionEventsCache := messageEventsCache, subscriptionEventsCache;
      this.parse := parse;
      messageBuffer := new Byte[if bound then BUFFER_SIZE else 0](_ => 0);
      remoteEndpoint, receiving, sent := Endpoint("", 0), false, [];
    }

    method StartRead()
      modifies this`receiving
      ensures receiving
    {
      receiving := true;
    }

    /** The receive handler. An error ends reading for good; otherwise payload and
        sender are copied, reading is re-armed, and only then is the message
        routed. */
    method HandleReceive(error: bool, bytesRead: nat, directory: Directory)
      requires bytesRead <= messageBuffer.Length
      modifies this`receiving, this`sent, subscriptionEventsCache
      ensures error ==> receiving == old(receiving) && sent == old(sent)
                        && subscriptionEventsCache.events == old(subscriptionEventsCache.events)
      ensures !error ==>
                var parsed := parse(old(messageBuffer[..bytesRead]));
                && receiving
                && sent == old(sent) + Output(messageEventsCache.events, old(subscriptionEventsCache.events),
                                              parsed, old(remoteEndpoint), directory)
                && subscriptionEventsCache.events ==
                   if AsOp(parsed).Some? then Apply(old(subscriptionEventsCache.events), AsOp(parsed).value)
                   else old(subscriptionEventsCache.events)
      ensures !error ==>
                var parsed, events := parse(old(messageBuffer[..bytesRead])), old(subscriptionEventsCache.events);
                if parsed.None? || !parsed.value.isModuleRequest then
                  sent == old(sent) && subscriptionEventsCache.events == events
                else if parsed.value.request.Some? then
                  var m := parsed.value;
                  && subscriptionEventsCache.events == events
                  && sent == old(sent)
                             + (Replies(Responses(messageEventsCache.events,
                                                  Sender(m.senderIdentifier, old(remoteEndpoint)), m.request.value),
                                        old(remoteEndpoint), m.transactionCode)
                                + Forwards(FanOut(events, m.request.value), directory))
                else if parsed.value.subscribedType.Some? then
                  && sent == old(sent)
                  && subscriptionEventsCache.events ==
                     SubscribeToType(events, parsed.value.senderIdentifier, parsed.value.subscribedType.value)
                else sent == old(sent) && subscriptionEventsCache.events == events
    {
      if !error {
        var receivedMessageBuffer := messageBuffer[..bytesRead];
        var senderEndpoint := remoteEndpoint;
        StartRead();
        var receivedMessage := parse(receivedMessageBuffer);
        if receivedMessage.Some? && receivedMessage.value.isModuleRequest {
          var m := receivedMessage.value;
          if m.request.Some? {
            var responses := messageEventsCache.TriggerMessageHandlers(
              Sender(m.senderIdentifier, senderEndpoint), m.request.value);
            SendReplies(responses, senderEndpoint, m.transactionCode);
            HandleSubscriptions(m.request.value, directory);
            AppendIsAssociative(old(sent), Replies(responses, senderEndpoint, m.transactionCode),
                                Forwards(FanOut(subscriptionEventsCache.events, m.request.value), directory));
          } else if m.subscribedType.Some? {
            subscriptionEventsCache.AddSubscriberByType(m.senderIdentifier, m.subscribedType.value);
          }
        }
      }
    }

    method SendReplies(responses: seq<Any>, to: Endpoint, transactionCode: int)
      modifies this`sent
      ensures sent == old(sent) + Replies(responses, to, transactionCode)
      ensures |sent| == |old(sent)| + |responses| && old(sent) <= sent
      ensures forall i :: |old(sent)| <= i < |sent| ==> sent[i] == ServiceResponse(to, transactionCode)
    {
      var i := 0;
      while i < |responses|
        invariant 0 <= i <= |responses|
        invariant sent == old(sent) + Replies(responses[..i], to, transactionCode)
      {
        sent := sent + [ServiceResponse(to, transactionCode)];
        i := i + 1;
      }
      assert responses[..i] == responses;
    }

    method HandleSubscriptions(anyMessage: Any, directory: Directory)
      modifies this`sent
      ensures sent == old(sent) + Forwards(FanOut(subscriptionEventsCache.events, anyMessage), directory)
    {
      var responses := subscriptionEventsCache.TriggerMessageHandlers(anyMessage);
      var i := 0;
      while i < |responses|
        invariant 0 <= i <= |responses|
        invariant sent == old(sent) + Forwards(responses[..i], directory)
      {
        if responses[i].recipient in directory {
          sent := sent + [ServiceRequest(directory[responses[i].recipient], NOTIFICATION_TRANSACTION,
                                         responses[i].message)];
        }
        assert responses[..i + 1][..i] == responses[..i];
        i := i + 1;
      }
      assert responses[..i] == responses;
    }
  }
}
