/** The subscription cache against an append-only log of the operations on it. */
module SubscriptionLog {
  import opened Framing
  import opened Wrappers
  import opened Sequences
  import opened SubscriptionEvents
  import EventIds

  datatype Op =
    | Register(messageType: string, handler: Option<SubscribeHandler>)
    | SubscribeByType(subscriber: ModuleIdentifier, typeUrl: string)
    | SubscribeById(subscriber: ModuleIdentifier, id: Uint32)
    | Trigger(message: Any)

  function Apply(events: seq<Subscription>, op: Op): seq<Subscription> {
    match op
    case Register(messageType, handler) =>
      if handler.Some? then AddEvent(events, messageType, handler.value) else events
    case SubscribeByType(m, typeUrl) => SubscribeToType(events, m, typeUrl)
    case SubscribeById(m, id) => SubscribeToId(events, m, id)
    case Trigger(_) => events
  }

  /** The reachable caches. */
  function CacheAfter(log: seq<Op>): seq<Subscription> {
    if log == [] then [] else Apply(CacheAfter(log[..|log| - 1]), log[|log| - 1])
  }

  // -- reading the log -----------------------------------------------------

  predicate IsRegistration(op: Op) {
    op.Register? && op.handler.Some?
  }

  /** How many events had been registered before position `r`. */
  function EventsBefore(log: seq<Op>, r: nat): nat
    requires r <= |log|
  {
    if r == 0 then 0 else EventsBefore(log, r - 1) + if IsRegistration(log[r - 1]) then 1 else 0
  }

  /** Operation `k` subscribes a module to the event registered at `r`, earlier. */
  predicate SubscribesTo(log: seq<Op>, k: nat, r: nat)
    requires r < k < |log| && IsRegistration(log[r])
  {
    match log[k]
    case SubscribeByType(_, typeUrl) => typeUrl == log[r].messageType
    case SubscribeById(_, id) => id == EventsBefore(log, r)
    case _ => false
  }

  /** The modules subscribed to the event registered at `r` by operations before
      `end`, in order. */
  function SubscribersOf(log: seq<Op>, r: nat, end: nat): seq<ModuleIdentifier>
    requires r < |log| && IsRegistration(log[r]) && end <= |log|
  {
    if end <= r + 1 then []
    else
      var before := SubscribersOf(log, r, end - 1);
      if SubscribesTo(log, end - 1, r) then before + [log[end - 1].subscriber] else before
  }

  /** The notifications that a message causes, read off the log: registrations
      before `r` in order, each with the subscriptions made after it. */
  function LogFanOut(log: seq<Op>, r: nat, message: Any): seq<Notification>
    requires r <= |log|
  {
    if r == 0 then []
    else
      var event, before := log[r - 1], LogFanOut(log, r - 1, message);
      if IsRegistration(event) then
        before + Notify(event.messageType, event.handler.value, SubscribersOf(log, r - 1, |log|), message)
      else before
  }

  // -- refinement ------------------------------------------------------------

  /** The cache as the log describes it, restricted to registrations before `r`
      and subscriptions before `end`. */
  function Described(log: seq<Op>, r: nat, end: nat): (events: seq<Subscription>)
    requires r <= |log| && end <= |log|
    ensures |events| == EventsBefore(log, r)
  {
    if r == 0 then []
    else
      var op, before := log[r - 1], Described(log, r - 1, end);
      if IsRegistration(op) then
        before + [Subscription(EventsBefore(log, r - 1) % UINT32_LIMIT, op.messageType,
                               SubscribersOf(log, r - 1, end), op.handler.value)]
      else before
  }

  lemma {:induction false} DescribedIsDense(log: seq<Op>, r: nat, end: nat)
    requires r <= |log| && end <= |log|
    ensures EventIds.Dense(Ids(Described(log, r, end)))
  {
    if r > 0 {
      DescribedIsDense(log, r - 1, end);
      var before := Described(log, r - 1, end);
      forall i | 0 <= i < |Described(log, r, end)|
        ensures Ids(Described(log, r, end))[i] == i % UINT32_LIMIT
      {
        if i < |before| {
          assert Ids(before)[i] == i % UINT32_LIMIT;
        }
      }
    }
  }

  lemma SubscribeToTypeAppend(events: seq<Subscription>, event: Subscription, m: ModuleIdentifier, typeUrl: string)
    ensures SubscribeToType(events + [event], m, typeUrl) ==
            SubscribeToType(events, m, typeUrl) +
            [if event.messageType == typeUrl then Subscribe(event, m) else event]
  {
  }

  /** One more subscription by type reaches exactly the events of that type. */
  lemma {:induction false} DescribedByType(log: seq<Op>, r: nat, end: nat)
    requires r <= end < |log| && log[end].SubscribeByType?
    ensures Described(log, r, end + 1) == SubscribeToType(Described(log, r, end), log[end].subscriber, log[end].typeUrl)
  {
    if r > 0 {
      DescribedByType(log, r - 1, end);
      if IsRegistration(log[r - 1]) {
        var before, all := Described(log, r - 1, end), Described(log, r, end);
        SubscribeToTypeAppend(before, all[|before|], log[end].subscriber, log[end].typeUrl);
      }
    }
  }

  /** One more subscription by id reaches the one event of that rank, if any. */
  lemma {:induction false} DescribedById(log: seq<Op>, r: nat, end: nat)
    requires r <= end < |log| && log[end].SubscribeById?
    ensures var events := Described(log, r, end); var id := log[end].id;
            Described(log, r, end + 1) ==
            if id < |events| then events[id := Subscribe(events[id], log[end].subscriber)] else events
  {
    if r > 0 {
      DescribedById(log, r - 1, end);
    }
  }

  lemma {:induction false} DescribedByOther(log: seq<Op>, r: nat, end: nat)
    requires r <= end < |log| && !log[end].SubscribeByType? && !log[end].SubscribeById?
    ensures Described(log, r, end + 1) == Described(log, r, end)
  {
    if r > 0 {
      DescribedByOther(log, r - 1, end);
    }
  }

  lemma FindInDense(events: seq<Subscription>, id: Uint32)
    requires EventIds.Dense(Ids(events))
    ensures Find(events, id) == if id < |events| then id else |events|
  {
    forall i | 0 <= i < |events| ensures events[i].id == i % UINT32_LIMIT {
      assert Ids(events)[i] == i % UINT32_LIMIT;
    }
    var i := Find(events, id);
    if id < |events| {
      assert events[id].id == id;
      assert i <= id;
    }
  }

  lemma ApplyIsDescribed(log: seq<Op>, n: nat)
    requires n < |log|
    ensures Apply(Described(log, n, n), log[n]) == Described(log, n + 1, n + 1)
  {
    var events := Described(log, n, n);
    DescribedIsDense(log, n, n);
    match log[n] {
      case Register(_, _) =>
        EventIds.DenseScan(Ids(events));
        DescribedByOther(log, n, n);
      case SubscribeByType(_, _) => DescribedByType(log, n, n);
      case SubscribeById(_, id) =>
        FindInDense(events, id);
        DescribedById(log, n, n);
      case Trigger(_) => DescribedByOther(log, n, n);
    }
  }

  /** The cache reached by the first `n` operations is what the log describes. */
  lemma {:induction false} CacheIsDescribed(log: seq<Op>, n: nat)
    requires n <= |log|
    ensures CacheAfter(log[..n]) == Described(log, n, n)
  {
    if n > 0 {
      CacheIsDescribed(log, n - 1);
      assert log[..n][..n - 1] == log[..n - 1];
      ApplyIsDescribed(log, n - 1);
    }
  }

  lemma FanOutAppend(events: seq<Subscription>, event: Subscription, message: Any)
    ensures FanOut(events + [event], message) == FanOut(events, message) + NotifyEvent(event, message)
  {
    assert (events + [event])[..|events|] == events;
  }

  lemma {:induction false} FanOutOfDescribed(log: seq<Op>, r: nat, message: Any)
    requires r <= |log|
    ensures FanOut(Described(log, r, |log|), message) == LogFanOut(log, r, message)
  {
    if r > 0 {
      FanOutOfDescribed(log, r - 1, message);
      var before, after := Described(log, r - 1, |log|), Described(log, r, |log|);
      if IsRegistration(log[r - 1]) {
        FanOutAppend(before, after[|after| - 1], message);
      } else {
        assert after == before;
      }
    }
  }

  /** Log refinement: after any sequence of registrations, subscriptions of both
      kinds and triggers, a message causes exactly the notifications that can be
      read off the log, in this order. */
  lemma CacheRefinesLog(log: seq<Op>, message: Any)
    ensures FanOut(CacheAfter(log), message) == LogFanOut(log, |log|, message)
  {
    assert log[..|log|] == log;
    CacheIsDescribed(log, |log|);
    FanOutOfDescribed(log, |log|, message);
  }

  // -- counting --------------------------------------------------------------

  function CountNotified(ns: seq<Notification>, m: ModuleIdentifier): nat {
    if ns == [] then 0
    else CountNotified(ns[..|ns| - 1], m) + if ns[|ns| - 1].recipient == m then 1 else 0
  }

  /** m's subscriptions before `end` to the event registered at `r`. */
  function SubscriptionsOf(log: seq<Op>, r: nat, m: ModuleIdentifier, end: nat): nat
    requires r < |log| && IsRegistration(log[r]) && end <= |log|
  {
    if end <= r + 1 then 0
    else
      var before := SubscriptionsOf(log, r, m, end - 1);
      if SubscribesTo(log, end - 1, r) && log[end - 1].subscriber == m then before + 1 else before
  }

  predicate Yields(op: Op, message: Any) {
    IsRegistration(op) && EndsWith(message.typeUrl, op.messageType) && op.handler.value(message).Some?
  }

  /** The sum, over the yielding registrations before `r`, of m's subscriptions. */
  function ExpectedCount(log: seq<Op>, r: nat, m: ModuleIdentifier, message: Any): nat
    requires r <= |log|
  {
    if r == 0 then 0
    else
      ExpectedCount(log, r - 1, m, message) +
      if Yields(log[r - 1], message) then SubscriptionsOf(log, r - 1, m, |log|) else 0
  }

  lemma {:induction false} CountConcat(a: seq<Notification>, b: seq<Notification>, m: ModuleIdentifier)
    ensures CountNotified(a + b, m) == CountNotified(a, m) + CountNotified(b, m)
  {
    if b == [] {
      assert a + b == a;
    } else {
      CountConcat(a, b[..|b| - 1], m);
      assert (a + b)[..|a + b| - 1] == a + b[..|b| - 1];
    }
  }

  lemma {:induction false} CountOfNotify(log: seq<Op>, r: nat, end: nat, m: ModuleIdentifier, message: Any)
    requires r < |log| && end <= |log| && Yields(log[r], message)
    ensures CountNotified(Notify(log[r].messageType, log[r].handler.value, SubscribersOf(log, r, end), message), m)
         == SubscriptionsOf(log, r, m, end)
  {
    if end <= r + 1 {
      assert Notify(log[r].messageType, log[r].handler.value, [], message) == [];
    } else {
      CountOfNotify(log, r, end - 1, m, message);
      if SubscribesTo(log, end - 1, r) {
        var op, earlier, last := log[r], SubscribersOf(log, r, end - 1), log[end - 1].subscriber;
        NotifyGrows(op.messageType, op.handler.value, earlier, last, message);
        var n := Notification(last, op.handler.value(message).value);
        CountConcat(Notify(op.messageType, op.handler.value, earlier, message), [n], m);
        assert [n][..0] == [];
      }
    }
  }

  lemma {:induction false} CountOfLogFanOut(log: seq<Op>, r: nat, m: ModuleIdentifier, message: Any)
    requires r <= |log|
    ensures CountNotified(LogFanOut(log, r, message), m) == ExpectedCount(log, r, m, message)
  {
    if r > 0 {
      CountOfLogFanOut(log, r - 1, m, message);
      var op := log[r - 1];
      if IsRegistration(op) {
        var ns := Notify(op.messageType, op.handler.value, SubscribersOf(log, r - 1, |log|), message);
        CountConcat(LogFanOut(log, r - 1, message), ns, m);
        if Yields(op, message) {
          CountOfNotify(log, r - 1, |log|, m, message);
        }
      }
    }
  }

  /** How often a module is notified: once for each of its subscriptions, made
      after the registration, to each event that matches and yields. */
  lemma NotificationCount(log: seq<Op>, m: ModuleIdentifier, message: Any)
    ensures CountNotified(FanOut(CacheAfter(log), message), m) == ExpectedCount(log, |log|, m, message)
  {
    CacheRefinesLog(log, message);
    CountOfLogFanOut(log, |log|, m, message);
  }

  // -- ids -------------------------------------------------------------------

  /** In every reachable cache entry i has id i, up to wrap-around; so the ids are
      unique exactly as long as there are no more than 2^32 events. */
  lemma ReachableIds(log: seq<Op>)
    ensures EventIds.Dense(Ids(CacheAfter(log)))
    ensures EventIds.Unique(Ids(CacheAfter(log))) <==> |CacheAfter(log)| <= UINT32_LIMIT
  {
    assert log[..|log|] == log;
    CacheIsDescribed(log, |log|);
    DescribedIsDense(log, |log|, |log|);
    EventIds.DenseIsUniqueIffFits(Ids(CacheAfter(log)));
  }

  lemma {:induction false} Registrations(n: nat, messageType: string, handler: SubscribeHandler)
    returns (log: seq<Op>)
    ensures |CacheAfter(log)| == n
  {
    if n == 0 {
      log := [];
    } else {
      var before := Registrations(n - 1, messageType, handler);
      log := before + [Register(messageType, Some(handler))];
      assert log[..|log| - 1] == before;
    }
  }

  /** And one event more does repeat an id. */
  lemma IdsRepeat(messageType: string, handler: SubscribeHandler) returns (log: seq<Op>)
    ensures |CacheAfter(log)| == UINT32_LIMIT + 1
    ensures CacheAfter(log)[0].id == CacheAfter(log)[UINT32_LIMIT].id
  {
    log := Registrations(UINT32_LIMIT + 1, messageType, handler);
    ReachableIds(log);
    assert Ids(CacheAfter(log))[0] == Ids(CacheAfter(log))[UINT32_LIMIT];
  }

  /** No operation changes the type, id or handler of an existing event, and no
      event goes away. So, up to 2^32 events, an id always means the same event. */
  lemma {:induction false} EventsPersist(log: seq<Op>, n: nat, i: nat)
    requires n <= |log| && i < |CacheAfter(log[..n])|
    ensures i < |CacheAfter(log)|
    ensures var before, after := CacheAfter(log[..n])[i], CacheAfter(log)[i];
            after == before.(subscribers := after.subscribers) && before.subscribers <= after.subscribers
  {
    if n < |log| {
      var m := |log| - 1;
      assert log[..m][..n] == log[..n];
      EventsPersist(log[..m], n, i);
    } else {
      assert log[..n] == log;
    }
  }

  lemma FindsEntry(log: seq<Op>, i: nat)
    requires i < |CacheAfter(log)|
    ensures Find(CacheAfter(log), CacheAfter(log)[i].id) == i % UINT32_LIMIT
  {
    var events := CacheAfter(log);
    ReachableIds(log);
    assert events[i].id == Ids(events)[i] == i % UINT32_LIMIT;
    FindInDense(events, i % UINT32_LIMIT);
  }

  lemma OneEntry(events: seq<Subscription>, i: nat, j: nat, m: ModuleIdentifier)
    requires i < |events| && j < |events|
    ensures events[i := Subscribe(events[i], m)] == events[j := Subscribe(events[j], m)] <==> i == j
  {
    var one, other := events[i := Subscribe(events[i], m)], events[j := Subscribe(events[j], m)];
    if i != j {
      assert |one[i].subscribers| == |other[i].subscribers| + 1;
    }
  }

  lemma OneTypeOneEntry(events: seq<Subscription>, i: nat, m: ModuleIdentifier)
    requires i < |events|
    ensures SubscribeToType(events, m, events[i].messageType) == events[i := Subscribe(events[i], m)] <==>
            forall j :: 0 <= j < |events| && j != i ==> events[j].messageType != events[i].messageType
  {
    var byType, one := SubscribeToType(events, m, events[i].messageType), events[i := Subscribe(events[i], m)];
    if j :| 0 <= j < |events| && j != i && events[j].messageType == events[i].messageType {
      assert |byType[j].subscribers| == |one[j].subscribers| + 1;
    } else {
      assert forall j :: 0 <= j < |events| ==> byType[j] == one[j];
    }
  }

  lemma TypeReachesEntry(events: seq<Subscription>, i: nat, j: nat, m: ModuleIdentifier)
    requires i < |events| && j < |events|
    ensures SubscribeToType(events, m, events[i].messageType) == events[j := Subscribe(events[j], m)] ==> i == j
  {
    var byType, one := SubscribeToType(events, m, events[i].messageType), events[j := Subscribe(events[j], m)];
    if i != j {
      assert |byType[i].subscribers| == |one[i].subscribers| + 1;
    }
  }

  /** In every reachable cache, subscribing by the id of entry i changes exactly one
      entry, i modulo 2^32, which is entry i as long as ids have not wrapped round.
      It does the same as subscribing by the type of entry i exactly then, and if
      no other event has that type. */
  lemma SubscribeOperationsAgree(log: seq<Op>, i: nat, m: ModuleIdentifier)
    requires i < |CacheAfter(log)|
    ensures var events := CacheAfter(log);
            var byId, j := SubscribeToId(events, m, events[i].id), i % UINT32_LIMIT;
            && byId == events[j := Subscribe(events[j], m)]
            && (byId == events[i := Subscribe(events[i], m)] <==> i < UINT32_LIMIT)
            && (SubscribeToType(events, m, events[i].messageType) == byId <==>
                && i < UINT32_LIMIT
                && forall k :: 0 <= k < |events| && k != i ==> events[k].messageType != events[i].messageType)
  {
    FindsEntry(log, i);
    OneEntry(CacheAfter(log), i, i % UINT32_LIMIT, m);
    OneTypeOneEntry(CacheAfter(log), i, m);
    TypeReachesEntry(CacheAfter(log), i, i % UINT32_LIMIT, m);
  }

  // -- growth ----------------------------------------------------------------

  lemma {:induction false} SubscribersGrow(log: seq<Op>, r: nat, end: nat)
    requires r < |log| && IsRegistration(log[r]) && end <= |log|
    ensures SubscribersOf(log, r, end) <= SubscribersOf(log, r, |log|)
    decreases |log| - end
  {
    if end < |log| {
      SubscribersGrow(log, r, end + 1);
    }
  }

  lemma NotifyOfPrefix(messageType: string, handler: SubscribeHandler, a: seq<ModuleIdentifier>,
                       b: seq<ModuleIdentifier>, message: Any)
    requires a <= b
    ensures Notify(messageType, handler, a, message) <= Notify(messageType, handler, b, message)
  {
  }

  lemma {:induction false} EarlierLogAgrees(log: seq<Op>, n: nat, r: nat)
    requires r <= n <= |log|
    ensures EventsBefore(log[..n], r) == EventsBefore(log, r)
  {
    if r > 0 {
      EarlierLogAgrees(log, n, r - 1);
    }
  }

  lemma {:induction false} EarlierSubscribersAgree(log: seq<Op>, n: nat, r: nat, end: nat)
    requires r < n <= |log| && end <= n && IsRegistration(log[r])
    ensures SubscribersOf(log[..n], r, end) == SubscribersOf(log, r, end)
  {
    if end > r + 1 {
      EarlierSubscribersAgree(log, n, r, end - 1);
      EarlierLogAgrees(log, n, r);
    }
  }

  lemma {:induction false} LogFanOutGrows(log: seq<Op>, n: nat, r: nat, message: Any)
    requires r <= n <= |log|
    ensures IsSubsequence(LogFanOut(log[..n], r, message), LogFanOut(log, r, message))
  {
    if r > 0 {
      LogFanOutGrows(log, n, r - 1, message);
      var op := log[r - 1];
      if IsRegistration(op) {
        EarlierSubscribersAgree(log, n, r - 1, n);
        SubscribersGrow(log, r - 1, n);
        NotifyOfPrefix(op.messageType, op.handler.value,
                       SubscribersOf(log, r - 1, n), SubscribersOf(log, r - 1, |log|), message);
        SubsequenceExtend(
          LogFanOut(log[..n], r - 1, message), LogFanOut(log, r - 1, message),
          Notify(op.messageType, op.handler.value, SubscribersOf(log, r - 1, n), message),
          Notify(op.messageType, op.handler.value, SubscribersOf(log, r - 1, |log|), message));
      }
    }
  }

  lemma {:induction false} LogFanOutLonger(log: seq<Op>, n: nat, r: nat, message: Any)
    requires n <= r <= |log|
    ensures LogFanOut(log, n, message) <= LogFanOut(log, r, message)
  {
    if n < r {
      LogFanOutLonger(log, n, r - 1, message);
    }
  }

  /** Growth: whatever is registered or subscribed later, the notifications that a
      message caused before remain, in order, among those it causes now. */
  lemma FanOutGrows(log: seq<Op>, n: nat, message: Any)
    requires n <= |log|
    ensures IsSubsequence(FanOut(CacheAfter(log[..n]), message), FanOut(CacheAfter(log), message))
  {
    CacheRefinesLog(log[..n], message);
    CacheRefinesLog(log, message);
    LogFanOutGrows(log, n, n, message);
    LogFanOutLonger(log, n, |log|, message);
    var b, all := LogFanOut(log, n, message), LogFanOut(log, |log|, message);
    SubsequenceOfLonger(LogFanOut(log[..n], n, message), b, all[|b|..]);
    assert b + all[|b|..] == all;
  }
}
