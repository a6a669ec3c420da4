/** Subscriptions, their requests and their answers (src/websocket-client/managers/subscription-manager.ts). */
module SubscriptionManagers {
  import opened Prelude
  import opened OrderedMaps
  import opened WebSocketTypes
  import opened WsAdapters

  // ---------- filters ----------

  /** A filter as the client compares it: each key with the JSON text of its value. */
  type Filter = map<string, string>

  /** The same number of keys, and every key of the first has the same text in the second. */
  predicate FiltersMatch(f: Filter, g: Filter) {
    |f.Keys| == |g.Keys| && forall k :: k in f ==> k in g && f[k] == g[k]
  }

  lemma SubsetOfSameSize<T>(a: set<T>, b: set<T>)
    requires a <= b && |a| == |b|
    ensures a == b
  {
    assert b == a + (b - a);
  }

  /** One-way agreement with the same number of keys is equality. */
  lemma FiltersMatchIffEqual(f: Filter, g: Filter)
    ensures FiltersMatch(f, g) <==> f == g
  {
    if FiltersMatch(f, g) {
      SubsetOfSameSize(f.Keys, g.Keys);
    }
  }

  // ---------- the state ----------

  datatype Subscription = Subscription(id: SubscriptionId, topic: EventTopic, filter: Filter, pending: bool)

  type Subscriptions = OrderedMap<SubscriptionId, Subscription>

  datatype Outcome = Waiting | Resolved(id: string) | Rejected

  /** What the closures of one request hold: the timeout they may still clear and the promise they settle. */
  datatype Request = Request(topic: EventTopic, filter: Filter, timer: bool, answered: bool, outcome: Outcome)

  datatype Response = Response(subscribed: bool, subscriptionId: string, request: Option<nat>)

  datatype State = State(subscriptions: Subscriptions, requests: map<nat, Request>)

  ghost predicate Consistent(s: State) {
    && s.subscriptions.Valid()
    && (forall id :: id in s.subscriptions.values ==>
          s.subscriptions.values[id].id == id && s.subscriptions.values[id].pending == id.Pending?)
    && (forall id :: id in s.subscriptions.values && id.Pending? ==>
          && id.request in s.requests && s.requests[id.request].timer
          && s.subscriptions.values[id].topic == id.topic == s.requests[id.request].topic
          && s.subscriptions.values[id].filter == s.requests[id.request].filter)
    && (forall r :: r in s.requests ==>
          && (s.requests[r].timer <==> !s.requests[r].answered && s.requests[r].outcome == Waiting)
          && (s.requests[r].outcome.Resolved? ==> s.requests[r].answered))
  }

  /** The promise of a request settles once. */
  function Settled(q: Request, outcome: Outcome): Request {
    if q.outcome == Waiting then q.(outcome := outcome) else q
  }

  /** The effect of a new request on the state. */
  function Asked(s: State, topic: EventTopic, filter: Filter, request: nat): State
    requires s.subscriptions.Valid()
  {
    var id := Pending(topic, request);
    State(s.subscriptions.Set(id, Subscription(id, topic, filter, true)),
          s.requests[request := Request(topic, filter, true, false, Waiting)])
  }

  /** The effect of one answer on the state. */
  function Answered(s: State, request: nat, response: Response): State
    requires s.subscriptions.Valid() && request in s.requests
  {
    var q := s.requests[request];
    var without := s.subscriptions.Delete(Pending(q.topic, request));
    var q' := q.(timer := false, answered := true);
    if response.subscribed then
      var id := Server(response.subscriptionId);
      State(without.Set(id, Subscription(id, q.topic, q.filter, false)),
            s.requests[request := Settled(q', Resolved(response.subscriptionId))])
    else
      State(without, s.requests[request := Settled(q', Rejected)])
  }

  /** The effect of the timeout of a request. */
  function TimedOut(s: State, request: nat): State
    requires s.subscriptions.Valid() && request in s.requests
  {
    var q := s.requests[request];
    State(s.subscriptions.Delete(Pending(q.topic, request)),
          s.requests[request := Settled(q.(timer := false), Rejected)])
  }

  /** A request, once there, stays with its topic and filter; once answered or settled it stays so. */
  ghost predicate Later(before: map<nat, Request>, after: map<nat, Request>) {
    forall r :: r in before ==>
      && r in after && after[r].topic == before[r].topic && after[r].filter == before[r].filter
      && (before[r].answered ==> after[r].answered)
      && (before[r].outcome != Waiting ==> after[r].outcome == before[r].outcome)
  }

  lemma LaterItself(a: map<nat, Request>)
    ensures Later(a, a)
  {
  }

  lemma LaterStill(a: map<nat, Request>, b: map<nat, Request>, c: map<nat, Request>)
    requires Later(a, b) && Later(b, c)
    ensures Later(a, c)
  {
  }

  lemma LaterAdded(a: map<nat, Request>, request: nat, q: Request)
    requires request !in a
    ensures Later(a, a[request := q])
  {
  }

  /** What an answer does, entry by entry and field by field. */
  lemma AnsweredMeaning(s: State, request: nat, response: Response)
    requires s.subscriptions.Valid() && request in s.requests
    ensures var q, id := s.requests[request], Server(response.subscriptionId);
            var without := s.subscriptions.values - {Pending(q.topic, request)};
            var outcome := if q.outcome != Waiting then q.outcome
                           else if response.subscribed then Resolved(response.subscriptionId) else Rejected;
            var s' := Answered(s, request, response);
            && s'.requests == s.requests[request := Request(q.topic, q.filter, false, true, outcome)]
            && s'.subscriptions.values ==
               if response.subscribed then without[id := Subscription(id, q.topic, q.filter, false)] else without
  {
  }

  /** An answer marks its request and touches no other. */
  lemma AnsweredMarks(s: State, request: nat, response: Response)
    requires Consistent(s) && request in s.requests
    ensures var requests := Answered(s, request, response).requests;
            && request in requests && requests[request].answered
            && requests == s.requests[request := requests[request]] && Later(s.requests, requests)
  {
  }

  lemma AnsweredConsistent(s: State, request: nat, response: Response)
    requires Consistent(s) && request in s.requests
    ensures Consistent(Answered(s, request, response))
  {
    PendingOfRequest(s, request);
  }

  lemma TimedOutConsistent(s: State, request: nat)
    requires Consistent(s) && request in s.requests
    ensures Consistent(TimedOut(s, request))
  {
    PendingOfRequest(s, request);
  }

  lemma SubscribedConsistent(s: State, topic: EventTopic, filter: Filter, request: nat)
    requires Consistent(s) && request !in s.requests
    ensures Consistent(Asked(s, topic, filter, request))
  {
  }

  /** A request has at most one pending entry. */
  lemma PendingOfRequest(s: State, request: nat)
    requires Consistent(s) && request in s.requests
    ensures forall id :: id in s.subscriptions.values && id.Pending? && id.request == request ==>
      id == Pending(s.requests[request].topic, request)
  {
  }

  /** The confirmed entry of a request under this id. */
  predicate Confirms(s: State, id: SubscriptionId, q: Request) {
    id in s.subscriptions.values && s.subscriptions.values[id] == Subscription(id, q.topic, q.filter, false)
  }

  /** A rejected `subscribe` leaves a confirmed entry behind exactly when the timeout fired before the server accepted,
      or the server rejects the request under the id of an equal entry that was there before. */
  lemma RejectedButConfirmedIff(s: State, request: nat, response: Response)
    requires Consistent(s) && request in s.requests && !s.requests[request].answered
    ensures var s', q, id := Answered(s, request, response), s.requests[request], Server(response.subscriptionId);
            && request in s'.requests
            && (s'.requests[request].outcome == Rejected && Confirms(s', id, q)
                <==> if response.subscribed then !q.timer else Confirms(s, id, q))
            && (!Confirms(s, id, q) ==>
                  (s'.requests[request].outcome == Rejected && Confirms(s', id, q)
                   <==> response.subscribed && !q.timer))
  {
    var q := s.requests[request];
    assert q.outcome == Waiting || q.outcome == Rejected || q.outcome.Resolved?;
  }

  /** The (topic, filter) pairs the server has confirmed. */
  ghost function ActivePairs(subs: Subscriptions): set<(EventTopic, Filter)> {
    set id | id in subs.values && !subs.values[id].pending :: (subs.values[id].topic, subs.values[id].filter)
  }

  ghost predicate NoMatchingPair(subs: Subscriptions) {
    forall id, id' | id in subs.values && id' in subs.values && id != id' ::
      subs.values[id].pending || subs.values[id'].pending
      || subs.values[id].topic != subs.values[id'].topic || subs.values[id].filter != subs.values[id'].filter
  }

  datatype SubscribeResult = NotConnected | Existing(id: SubscriptionId) | Requested(request: nat)

  datatype UnsubscribeResult = SocketDown | NotFound | Sent(call: nat)

  class SubscriptionManager {
    var subscriptions: Subscriptions
    var socket: WebSocketAdapter?
    var requestIdCounter: nat
    var requests: map<nat, Request>
    var setups: nat             // closures created by setupMessageHandlers
    var unsubscribeCalls: nat   // closures created by unsubscribe

    constructor ()
      ensures Valid() && subscriptions == Empty() && socket == null && requests == map[] && requestIdCounter == 0
    {
      subscriptions, socket, requestIdCounter, requests := Empty(), null, 0, map[];
      setups, unsubscribeCalls := 0, 0;
    }

    ghost function Sockets(): set<WebSocketAdapter>
      reads this`socket
    {
      if socket == null then {} else {socket}
    }

    ghost function CurrentState(): State
      reads this`subscriptions, this`requests
    {
      State(subscriptions, requests)
    }

    /** Entries, requests and the counter agree; the request ids in use are exactly those up to the counter. */
    ghost predicate Valid()
      reads this`subscriptions, this`requests, this`requestIdCounter
    {
      && Consistent(CurrentState())
      && forall r :: r in requests <==> 1 <= r <= requestIdCounter
    }

    method SetSocket(socket: WebSocketAdapter)
      modifies this`socket, this`setups, socket`handlers
      ensures this.socket == socket && setups == old(setups) + 2
      ensures socket.handlers == Added(Added(old(socket.handlers), SubscriptionResponse, Reemit(old(setups))),
                                       UnsubscribeResponse, Reemit(old(setups) + 1))
    {
      this.socket := socket;
      socket.On(SubscriptionResponse, Reemit(setups));
      socket.On(UnsubscribeResponse, Reemit(setups + 1));
      setups := setups + 2;
    }

    /** No entry inserted before this one is confirmed with this topic and filter. */
    ghost predicate FirstMatch(topic: EventTopic, filter: Filter, id: SubscriptionId)
      requires subscriptions.Valid()
      reads this`subscriptions
    {
      exists i ::
        && 0 <= i < |subscriptions.keys| && subscriptions.keys[i] == id
        && forall j :: 0 <= j < i ==>
             var s := subscriptions.values[subscriptions.keys[j]]; s.pending || s.topic != topic || s.filter != filter
    }

    /** The confirmed subscription that matches, if any, in insertion order. */
    method FindMatching(topic: EventTopic, filter: Filter) returns (r: Option<SubscriptionId>)
      requires Valid()
      ensures r.Some? ==>
        && r.value in subscriptions.values && !subscriptions.values[r.value].pending
        && subscriptions.values[r.value].topic == topic && subscriptions.values[r.value].filter == filter
      ensures r.Some? <==> (topic, filter) in ActivePairs(subscriptions)
      ensures r.Some? ==> FirstMatch(topic, filter, r.value)
    {
      for i := 0 to |subscriptions.keys|
        invariant forall j :: 0 <= j < i ==>
          var s := subscriptions.values[subscriptions.keys[j]]; s.pending || s.topic != topic || s.filter != filter
      {
        var id := subscriptions.keys[i];
        var handler := subscriptions.values[id];
        FiltersMatchIffEqual(handler.filter, filter);
        if !handler.pending && handler.topic == topic && FiltersMatch(handler.filter, filter) {
          return Some(id);
        }
      }
      return None;
    }

    method Subscribe(topic: EventTopic, filter: Filter) returns (r: SubscribeResult)
      requires Valid()
      modifies this`subscriptions, this`requests, this`requestIdCounter, Sockets()`handlers
      ensures Valid()
      ensures r == NotConnected <==> old(socket == null || !socket.connected)
      ensures r.Existing? ==>
        && r.id in subscriptions.values && !subscriptions.values[r.id].pending
        && subscriptions.values[r.id].topic == topic && subscriptions.values[r.id].filter == filter
        && FirstMatch(topic, filter, r.id)
      ensures r.Requested? <==>
        old(socket != null && socket.connected) && (topic, filter) !in ActivePairs(old(subscriptions))
      ensures !r.Requested? ==>
        CurrentState() == old(CurrentState()) && requestIdCounter == old(requestIdCounter)
        && (socket != null ==> socket.handlers == old(socket.handlers))
      ensures r.Requested? ==>
        && r.request !in old(requests) && r.request == requestIdCounter == old(requestIdCounter) + 1
        && CurrentState() == Asked(old(CurrentState()), topic, filter, r.request)
        && requests == old(requests)[r.request := Request(topic, filter, true, false, Waiting)]
        && subscriptions.values == old(subscriptions.values)[
             Pending(topic, r.request) := Subscription(Pending(topic, r.request), topic, filter, true)]
        && socket.handlers == Added(old(socket.handlers), SubscriptionResponseFor(r.request), SubscribeOnce(r.request))
    {
      hide Consistent, ActivePairs, Asked, FirstMatch;
      if socket == null || !socket.connected {
        return NotConnected;
      }
      var matching := FindMatching(topic, filter);
      if matching.Some? {
        return Existing(matching.value);
      }
      var requestId := SendRequest(topic, filter);
      return Requested(requestId);
    }

    /** The rest of `subscribe`: a fresh id, a pending entry, and the request's one-shot handler. */
    method SendRequest(topic: EventTopic, filter: Filter) returns (requestId: nat)
      requires Valid() && socket != null
      modifies this`subscriptions, this`requests, this`requestIdCounter, Sockets()`handlers
      ensures Valid()
      ensures requestId !in old(requests) && requestId == requestIdCounter == old(requestIdCounter) + 1
      ensures CurrentState() == Asked(old(CurrentState()), topic, filter, requestId)
      ensures requests == old(requests)[requestId := Request(topic, filter, true, false, Waiting)]
      ensures subscriptions.values == old(subscriptions.values)[
        Pending(topic, requestId) := Subscription(Pending(topic, requestId), topic, filter, true)]
      ensures socket.handlers ==
        Added(old(socket.handlers), SubscriptionResponseFor(requestId), SubscribeOnce(requestId))
    {
      hide Consistent, OrderedMap.Set;
      SubscribedConsistent(CurrentState(), topic, filter, requestIdCounter + 1);
      UnusedRequest(CurrentState(), topic, requestIdCounter + 1);
      requestIdCounter := requestIdCounter + 1;
      requestId := requestIdCounter;
      var pendingId := Pending(topic, requestId);
      subscriptions := subscriptions.Set(pendingId, Subscription(pendingId, topic, filter, true));
      requests := requests[requestId := Request(topic, filter, true, false, Waiting)];
      socket.On(SubscriptionResponseFor(requestId), SubscribeOnce(requestId));
    }

    /** The response handler of a request. */
    method OnSubscriptionResponse(request: nat, response: Response)
      requires Valid() && request in requests
      modifies this`subscriptions, this`requests
      ensures Valid() && CurrentState() == Answered(old(CurrentState()), request, response)
      ensures var q := old(requests)[request];
              requests == old(requests)[request := Request(q.topic, q.filter, false, true,
                if q.outcome != Waiting then q.outcome
                else if response.subscribed then Resolved(response.subscriptionId) else Rejected)]
      ensures var q, id := old(requests)[request], Server(response.subscriptionId);
              var without := old(subscriptions.values) - {Pending(q.topic, request)};
              subscriptions.values ==
                if response.subscribed then without[id := Subscription(id, q.topic, q.filter, false)] else without
    {
      AnsweredConsistent(CurrentState(), request, response);
      var q := requests[request];
      var answered := q.(timer := false, answered := true);
      subscriptions := subscriptions.Delete(Pending(q.topic, request));
      if response.subscribed {
        var id := Server(response.subscriptionId);
        subscriptions := subscriptions.Set(id, Subscription(id, q.topic, q.filter, false));
        requests := requests[request := Settled(answered, Resolved(response.subscriptionId))];
      } else {
        requests := requests[request := Settled(answered, Rejected)];
      }
    }

    /** The timeout of a request, which runs only while it is armed. */
    method OnSubscribeTimeout(request: nat)
      requires Valid() && request in requests && requests[request].timer
      modifies this`subscriptions, this`requests
      ensures Valid() && CurrentState() == TimedOut(old(CurrentState()), request)
      ensures var q := old(requests)[request];
              && requests == old(requests)[request := Request(q.topic, q.filter, false, q.answered, Rejected)]
              && subscriptions.values == old(subscriptions.values) - {Pending(q.topic, request)}
    {
      TimedOutConsistent(CurrentState(), request);
      var q := requests[request];
      subscriptions := subscriptions.Delete(Pending(q.topic, request));
      requests := requests[request := Settled(q.(timer := false), Rejected)];
    }

    method Unsubscribe(id: SubscriptionId) returns (r: UnsubscribeResult)
      requires Valid()
      modifies this`unsubscribeCalls, Sockets()`handlers
      ensures Valid() && CurrentState() == old(CurrentState())
      ensures r == SocketDown <==> socket == null || !socket.connected
      ensures r == NotFound ==> id !in subscriptions.values
      ensures r.Sent? <==> socket != null && socket.connected && id in subscriptions.values
      ensures r.Sent? ==>
        socket.handlers == Added(old(socket.handlers), UnsubscribeResponseFor(id), UnsubscribeOnce(r.call))
      ensures !r.Sent? && socket != null ==> socket.handlers == old(socket.handlers)
    {
      if socket == null || !socket.connected {
        return SocketDown;
      }
      if id !in subscriptions.values {
        return NotFound;
      }
      var call := unsubscribeCalls;
      unsubscribeCalls := unsubscribeCalls + 1;
      socket.On(UnsubscribeResponseFor(id), UnsubscribeOnce(call));
      return Sent(call);
    }

    method OnUnsubscribeResponse(id: SubscriptionId)
      requires Valid()
      modifies this`subscriptions
      ensures Valid() && subscriptions.values == old(subscriptions.values) - {id}
    {
      subscriptions := subscriptions.Delete(id);
    }

    /** The start of `resubscribeAll`: pending entries go, too. */
    method Clear()
      requires Valid()
      modifies this`subscriptions
      ensures Valid() && subscriptions == Empty()
    {
      subscriptions := Empty();
    }

    /** The confirmed entries in insertion order: `places` are their places, in ascending order. */
    method GetActiveSubscriptions() returns (active: seq<Subscription>, ghost places: seq<nat>)
      requires Valid()
      ensures PairsOf(active) == ActivePairs(subscriptions) && |active| <= |subscriptions.keys|
      ensures |places| == |active| && forall i, j :: 0 <= i < j < |places| ==> places[i] < places[j]
      ensures forall i :: 0 <= i < |active| ==>
        places[i] < |subscriptions.keys| && active[i] == subscriptions.values[subscriptions.keys[places[i]]]
    {
      hide Consistent;
      MapIsValid();
      active, places := [], [];
      for i := 0 to |subscriptions.keys|
        invariant |active| == |places| <= i
        invariant forall j :: 0 <= j < |active| ==>
          && places[j] < i && active[j] == subscriptions.values[subscriptions.keys[places[j]]] && !active[j].pending
        invariant forall j, k :: 0 <= j < k < |places| ==> places[j] < places[k]
        invariant forall j :: 0 <= j < i && !subscriptions.values[subscriptions.keys[j]].pending ==>
          subscriptions.values[subscriptions.keys[j]] in active
      {
        var handler := subscriptions.values[subscriptions.keys[i]];
        if !handler.pending {
          active, places := active + [handler], places + [i];
        }
      }
      ActiveArePairs(subscriptions, active, places);
    }

    lemma MapIsValid()
      requires Valid()
      ensures subscriptions.Valid()
    {
    }

    // ---------- delivering an answer ----------

    /** The request, as `q` before, has taken this answer: its promise, unless settled before, resolves with the id the
        server gave or is rejected, and an accepted subscription is confirmed under that id. */
    ghost predicate TakesAnswer(q: Request, request: nat, response: Response)
      reads this`subscriptions, this`requests
    {
      && request in requests
      && requests[request] == Request(q.topic, q.filter, false, true,
           if q.outcome != Waiting then q.outcome
           else if response.subscribed then Resolved(response.subscriptionId) else Rejected)
      && Pending(q.topic, request) !in subscriptions.values
      && (response.subscribed ==>
            var id := Server(response.subscriptionId);
            id in subscriptions.values && subscriptions.values[id] == Subscription(id, q.topic, q.filter, false))
    }

    /** The one-shot event of a request has no handler but the request's own. */
    ghost predicate OneShot(a: WebSocketAdapter, request: nat)
      reads this`requests, a`handlers
    {
      && At(a.handlers, SubscriptionResponseFor(request)) <= {SubscribeOnce(request)}
      && (Listens(a, request) ==> request in requests)
    }

    ghost predicate Listens(a: WebSocketAdapter, request: nat)
      reads a`handlers
    {
      SubscribeOnce(request) in At(a.handlers, SubscriptionResponseFor(request))
    }

    /** One dispatch of the one-shot event: the wrapper runs the handler and removes itself. */
    method EmitAnswer(a: WebSocketAdapter, request: nat, response: Response) returns (ran: bool)
      requires Valid() && OneShot(a, request)
      modifies this`subscriptions, this`requests, a`handlers
      ensures Valid() && ran == old(Listens(a, request))
      ensures ran ==> CurrentState() == Answered(old(CurrentState()), request, response)
      ensures !ran ==> CurrentState() == old(CurrentState())
      ensures a.handlers == Removed(old(a.handlers), SubscriptionResponseFor(request), SubscribeOnce(request)) || !ran
      ensures !ran ==> a.handlers == old(a.handlers)
    {
      hide Answered;
      var run := a.Snapshot(SubscriptionResponseFor(request));
      SnapshotOfOne(run, SubscribeOnce(request));
      ran := false;
      for i := 0 to |run|
        invariant ran == (i > 0)
        invariant i == 0 ==> CurrentState() == old(CurrentState()) && a.handlers == old(a.handlers)
        invariant i > 0 ==> CurrentState() == Answered(old(CurrentState()), request, response)
        invariant i > 0 ==>
          a.handlers == Removed(old(a.handlers), SubscriptionResponseFor(request), SubscribeOnce(request))
        invariant Valid()
      {
        assert i == 0 && run[0] in Elements(run);
        OnSubscriptionResponse(request, response);
        a.Off(SubscriptionResponseFor(request), SubscribeOnce(request));
        ran := true;
      }
    }

    /** The answer reaches the request's handler: on the adapter it arrives at, or through a re-emitting handler there
        and the manager's own open socket. */
    ghost predicate Reaches(a: WebSocketAdapter, request: nat)
      reads this`socket, a`handlers, Sockets()`handlers, Sockets()`ws
    {
      || Listens(a, request)
      || ((exists n :: Reemit(n) in At(a.handlers, SubscriptionResponse))
          && socket != null && socket.CanEmit() && Listens(socket, request))
    }

    /** The dispatch under the general name: every re-emitting handler passes the answer on to the manager's socket, but
        only the first can find the request's handler there. */
    method Redispatch(a: WebSocketAdapter, response: Response, request: nat) returns (runs: nat)
      requires Valid() && (socket != null ==> OneShot(socket, request))
      modifies this`subscriptions, this`requests, Sockets()`handlers
      ensures Valid()
      ensures runs == if (exists n :: Reemit(n) in At(old(a.handlers), SubscriptionResponse))
                         && old(socket != null && socket.CanEmit() && Listens(socket, request)) then 1 else 0
      ensures runs == 1 ==>
        && CurrentState() == Answered(old(CurrentState()), request, response)
        && socket.handlers == Removed(old(socket.handlers), SubscriptionResponseFor(request), SubscribeOnce(request))
      ensures runs == 0 ==>
        CurrentState() == old(CurrentState()) && (socket != null ==> socket.handlers == old(socket.handlers))
    {
      hide Answered;
      runs := 0;
      var general := a.Snapshot(SubscriptionResponse);
      for i := 0 to |general|
        invariant Valid() && (socket != null ==> OneShot(socket, request))
        invariant runs == if (exists j :: 0 <= j < i && general[j].Reemit?)
                             && old(socket != null && socket.CanEmit() && Listens(socket, request)) then 1 else 0
        invariant runs == 1 ==>
          && CurrentState() == Answered(old(CurrentState()), request, response)
          && socket.handlers == Removed(old(socket.handlers), SubscriptionResponseFor(request), SubscribeOnce(request))
        invariant runs == 0 ==>
          CurrentState() == old(CurrentState()) && (socket != null ==> socket.handlers == old(socket.handlers))
      {
        if general[i].Reemit? && socket != null && socket.CanEmit() {
          var ran := EmitAnswer(socket, request, response);
          runs := runs + if ran then 1 else 0;
        }
      }
      ReemitsIn(general, At(old(a.handlers), SubscriptionResponse));
    }

    /** A subscription response arrives at an adapter: it is dispatched under its general name, where every re-emitting
        handler passes it on to the current socket, and then under the name of its request. However many dispatches
        there are, the request's handler runs once if the answer reaches it, and not at all otherwise. */
    method DeliverResponse(a: WebSocketAdapter, response: Response, request: nat) returns (runs: nat)
      requires Valid() && response.request == Some(request)
      requires OneShot(a, request) && (socket != null ==> OneShot(socket, request))
      requires socket != null && socket != a ==> !(Listens(a, request) && Listens(socket, request))
      modifies this`subscriptions, this`requests, a`handlers, Sockets()`handlers
      ensures Valid()
      ensures runs == if old(Reaches(a, request)) then 1 else 0
      ensures runs == 1 <==> old(
        || SubscribeOnce(request) in At(a.handlers, SubscriptionResponseFor(request))
        || ((exists n :: Reemit(n) in At(a.handlers, SubscriptionResponse)) && socket != null && socket.ws == Some(Open)
            && SubscribeOnce(request) in At(socket.handlers, SubscriptionResponseFor(request))))
      ensures runs == 1 ==> CurrentState() == Answered(old(CurrentState()), request, response)
      ensures runs == 1 ==> request in old(requests) && TakesAnswer(old(requests)[request], request, response)
      ensures runs == 0 ==> CurrentState() == old(CurrentState())
      ensures runs == 1 ==>
        && request in requests && requests[request].answered && requests == old(requests)[request := requests[request]]
        && Later(old(requests), requests)
        && LosesOneShot(old(a.handlers), a.handlers, request)
        && (socket != null ==> LosesOneShot(old(socket.handlers), socket.handlers, request))
        && old(Listens(a, request) || (socket != null && Listens(socket, request)))
      ensures runs == 0 ==>
        a.handlers == old(a.handlers) && (socket != null ==> socket.handlers == old(socket.handlers))
    {
      hide Answered, Later;
      ghost var before := CurrentState();
      runs := Redispatch(a, response, request);
      var ran := EmitAnswer(a, request, response);
      runs := runs + if ran then 1 else 0;
      if runs == 1 {
        AnsweredMarks(before, request, response);
        AnsweredMeaning(before, request, response);
      }
    }

    /** Some unsubscribe call waits on this adapter for its answer. */
    ghost predicate Awaits(a: WebSocketAdapter, id: SubscriptionId)
      reads a`handlers
    {
      exists n :: UnsubscribeOnce(n) in At(a.handlers, UnsubscribeResponseFor(id))
    }

    /** One dispatch of an unsubscribe answer under its own name: every waiting call is settled and removed. */
    method EmitUnsubscribed(a: WebSocketAdapter, id: SubscriptionId)
      requires Valid()
      modifies this`subscriptions, a`handlers
      ensures Valid()
      ensures subscriptions.values ==
        if old(Awaits(a, id)) then old(subscriptions.values) - {id} else old(subscriptions.values)
      ensures forall e | e != UnsubscribeResponseFor(id) :: At(a.handlers, e) == old(At(a.handlers, e))
      ensures !Awaits(a, id)
    {
      hide Consistent;
      var run := a.Snapshot(UnsubscribeResponseFor(id));
      ghost var settled := false;
      for i := 0 to |run|
        invariant Valid()
        invariant settled == exists j :: 0 <= j < i && run[j].UnsubscribeOnce?
        invariant subscriptions.values ==
          if settled then old(subscriptions.values) - {id} else old(subscriptions.values)
        invariant forall e | e != UnsubscribeResponseFor(id) :: At(a.handlers, e) == old(At(a.handlers, e))
        invariant At(a.handlers, UnsubscribeResponseFor(id)) <= At(old(a.handlers), UnsubscribeResponseFor(id))
        invariant forall j :: 0 <= j < i && run[j].UnsubscribeOnce? ==>
          run[j] !in At(a.handlers, UnsubscribeResponseFor(id))
      {
        if run[i].UnsubscribeOnce? {
          OnUnsubscribeResponse(id);
          a.Off(UnsubscribeResponseFor(id), run[i]);
          settled := true;
        }
      }
      forall n ensures UnsubscribeOnce(n) !in At(a.handlers, UnsubscribeResponseFor(id)) {
        if UnsubscribeOnce(n) in At(old(a.handlers), UnsubscribeResponseFor(id)) {
          assert UnsubscribeOnce(n) in Elements(run);
        }
      }
      if settled {
        var j :| 0 <= j < |run| && run[j].UnsubscribeOnce?;
        assert run[j] in Elements(run) && run[j] == UnsubscribeOnce(run[j].call);
      } else {
        forall n ensures UnsubscribeOnce(n) !in At(old(a.handlers), UnsubscribeResponseFor(id)) {
          assert UnsubscribeOnce(n) !in Elements(run);
        }
      }
    }

    /** The manager's socket takes part in the dispatch of an unsubscribe answer that arrives at this adapter. */
    ghost predicate PassesOn(a: WebSocketAdapter)
      reads this`socket, a`handlers, Sockets()`ws
    {
      (exists n :: Reemit(n) in At(a.handlers, UnsubscribeResponse)) && socket != null && socket.CanEmit()
    }

    ghost predicate ReachesUnsubscribe(a: WebSocketAdapter, id: SubscriptionId)
      reads this`socket, a`handlers, Sockets()`handlers, Sockets()`ws
    {
      Awaits(a, id) || (PassesOn(a) && Awaits(socket, id))
    }

    /** The dispatch under the general name: every re-emitting handler passes the answer on to the manager's socket. */
    method RedispatchUnsubscribed(a: WebSocketAdapter, id: SubscriptionId)
      requires Valid()
      modifies this`subscriptions, Sockets()`handlers
      ensures Valid()
      ensures old(PassesOn(a)) ==>
        && !Awaits(socket, id)
        && (forall e | e != UnsubscribeResponseFor(id) :: At(socket.handlers, e) == old(At(socket.handlers, e)))
      ensures !old(PassesOn(a)) && socket != null ==> socket.handlers == old(socket.handlers)
      ensures subscriptions.values ==
        if old(PassesOn(a) && Awaits(socket, id)) then old(subscriptions.values) - {id} else old(subscriptions.values)
    {
      hide Consistent, Awaits;
      var general := a.Snapshot(UnsubscribeResponse);
      ghost var passed := false;
      for i := 0 to |general|
        invariant Valid()
        invariant passed == ((exists j :: 0 <= j < i && general[j].Reemit?) && socket != null && socket.CanEmit())
        invariant passed ==>
          && !Awaits(socket, id)
          && (forall e | e != UnsubscribeResponseFor(id) :: At(socket.handlers, e) == old(At(socket.handlers, e)))
        invariant !passed && socket != null ==> socket.handlers == old(socket.handlers)
        invariant subscriptions.values ==
          if passed && old(Awaits(socket, id)) then old(subscriptions.values) - {id} else old(subscriptions.values)
      {
        if general[i].Reemit? && socket != null && socket.CanEmit() {
          EmitUnsubscribed(socket, id);
          passed := true;
        }
      }
      ReemitsIn(general, At(old(a.handlers), UnsubscribeResponse));
    }

    /** An unsubscribe answer arrives at an adapter, and is dispatched like a subscription response. The entry goes
        exactly when the answer reaches a waiting call. */
    method DeliverUnsubscribed(a: WebSocketAdapter, id: SubscriptionId)
      requires Valid()
      modifies this`subscriptions, a`handlers, Sockets()`handlers
      ensures Valid()
      ensures subscriptions.values ==
        if old(ReachesUnsubscribe(a, id)) then old(subscriptions.values) - {id} else old(subscriptions.values)
      ensures old(ReachesUnsubscribe(a, id)) <==> old(
        || (exists n :: UnsubscribeOnce(n) in At(a.handlers, UnsubscribeResponseFor(id)))
        || ((exists n :: Reemit(n) in At(a.handlers, UnsubscribeResponse)) && socket != null && socket.ws == Some(Open)
            && exists n :: UnsubscribeOnce(n) in At(socket.handlers, UnsubscribeResponseFor(id))))
      ensures forall e | e != UnsubscribeResponseFor(id) :: At(a.handlers, e) == old(At(a.handlers, e))
      ensures socket != null ==>
        forall e | e != UnsubscribeResponseFor(id) :: At(socket.handlers, e) == old(At(socket.handlers, e))
    {
      hide Consistent;
      RedispatchUnsubscribed(a, id);
      EmitUnsubscribed(a, id);
    }

    // ---------- subscribing again after a reconnect ----------

    /** Requests that do not exist yet have no handlers. */
    ghost predicate NoEarlyHandlers(a: WebSocketAdapter)
      reads this`requestIdCounter, a`handlers
    {
      forall r :: r > requestIdCounter ==> At(a.handlers, SubscriptionResponseFor(r)) == {}
    }

    /** One turn of the loop below: an already restored pair is found, a missing one is requested and confirmed. */
    method SubscribeConfirmed(topic: EventTopic, filter: Filter, id: string) returns (used: bool)
      requires Valid() && socket != null && socket.connected && NoEarlyHandlers(socket)
      requires Server(id) !in subscriptions.values
      modifies this`subscriptions, this`requests, this`requestIdCounter, Sockets()`handlers
      ensures Valid() && NoEarlyHandlers(socket)
      ensures used <==> (topic, filter) !in ActivePairs(old(subscriptions))
      ensures !used ==> subscriptions == old(subscriptions)
      ensures used ==>
        subscriptions.values == old(subscriptions.values)[Server(id) := Subscription(Server(id), topic, filter, false)]
      ensures SameHandlers(old(socket.handlers), socket.handlers) && Extends(old(requests), requests)
    {
      hide Consistent, ActivePairs, Asked, Answered, Added, At, LosesOneShot, Later;
      ghost var before, handlers := CurrentState(), socket.handlers;
      var r := Subscribe(topic, filter);
      if r.Requested? {
        ConfirmedValues(before, topic, filter, r.request, id);
        OnlyOneAdded(handlers, SubscriptionResponseFor(r.request), SubscribeOnce(r.request));
        var runs := DeliverResponse(socket, Response(true, id, Some(r.request)), r.request);
        AddedThenLost(handlers, socket.handlers, r.request);
        return true;
      }
      return false;
    }

    /** Every confirmed subscription is requested again on the current socket, and each request is confirmed under the
        next of the server's `ids` before the following one is sent. */
    method ResubscribeAllConfirmed(ids: seq<string>)
      requires Valid() && socket != null && socket.connected && NoEarlyHandlers(socket)
      requires NoDup(ids) && |ids| >= |subscriptions.keys|
      modifies this`subscriptions, this`requests, this`requestIdCounter, Sockets()`handlers
      ensures Valid()
      ensures ActivePairs(subscriptions) == ActivePairs(old(subscriptions))
      ensures NoMatchingPair(subscriptions)
      ensures forall id :: id in subscriptions.values ==> !subscriptions.values[id].pending
      ensures SameHandlers(old(socket.handlers), socket.handlers) && Extends(old(requests), requests)
    {
      hide ActivePairs, NoMatchingPair, At, Consistent, PairsOf, SubscriptionManager.NoEarlyHandlers;
      var active;
      ghost var places;
      active, places := GetActiveSubscriptions();
      Clear();
      var used := 0;
      NothingActive();
      for i := 0 to |active|
        invariant Valid() && NoEarlyHandlers(socket) && used <= i
        invariant ActivePairs(subscriptions) == PairsOf(active[..i])
        invariant NoMatchingPair(subscriptions)
        invariant SameHandlers(old(socket.handlers), socket.handlers) && Extends(old(requests), requests)
        invariant forall id :: id in subscriptions.values ==>
          !subscriptions.values[id].pending && exists j :: 0 <= j < used && id == Server(ids[j])
      {
        assert Server(ids[used]) !in subscriptions.values;
        ghost var before := subscriptions;
        var isNew := SubscribeConfirmed(active[i].topic, active[i].filter, ids[used]);
        PairsOfSnoc(active, i);
        if isNew {
          PairAdded(before, Server(ids[used]), active[i].topic, active[i].filter, subscriptions);
          used := used + 1;
        }
      }
      assert active[..|active|] == active;
    }
  }

  lemma ActiveArePairs(subs: Subscriptions, active: seq<Subscription>, places: seq<nat>)
    requires subs.Valid() && |places| == |active|
    requires forall i :: 0 <= i < |active| ==>
      places[i] < |subs.keys| && active[i] == subs.values[subs.keys[places[i]]] && !active[i].pending
    requires forall j :: 0 <= j < |subs.keys| && !subs.values[subs.keys[j]].pending ==>
      subs.values[subs.keys[j]] in active
    ensures PairsOf(active) == ActivePairs(subs)
  {
    forall p ensures p in PairsOf(active) <==> p in ActivePairs(subs) {
      if p in PairsOf(active) {
        var i :| 0 <= i < |active| && p == (active[i].topic, active[i].filter);
        assert subs.keys[places[i]] in subs.values;
      }
      if p in ActivePairs(subs) {
        var id :| id in subs.values && !subs.values[id].pending && p == (subs.values[id].topic, subs.values[id].filter);
        assert id in subs.keys;
        var i :| 0 <= i < |active| && active[i] == subs.values[id];
      }
    }
  }

  lemma ReemitsIn(run: seq<Handler>, handlers: set<Handler>)
    requires Elements(run) == handlers
    ensures (exists j :: 0 <= j < |run| && run[j].Reemit?) <==> exists n :: Reemit(n) in handlers
  {
    if j :| 0 <= j < |run| && run[j].Reemit? {
      assert run[j] in Elements(run) && run[j] == Reemit(run[j].setup);
    }
    if n :| Reemit(n) in handlers {
      assert Reemit(n) in Elements(run);
    }
  }

  lemma OnlyOneAdded(t: Table, e: Event, h: Handler)
    requires At(t, e) == {}
    ensures At(Added(t, e, h), e) == {h}
  {
  }

  /** Two tables with the same handlers on every event. */
  ghost predicate SameHandlers(t: Table, t': Table) {
    forall e :: At(t', e) == At(t, e)
  }

  /** New requests joined, and no earlier one changed. */
  ghost predicate Extends(before: map<nat, Request>, after: map<nat, Request>) {
    forall r :: r in before ==> r in after && after[r] == before[r]
  }

  /** A request that is sent and answered leaves no handler behind. */
  lemma AddedThenLost(t: Table, u: Table, request: nat)
    requires At(t, SubscriptionResponseFor(request)) == {}
    requires LosesOneShot(Added(t, SubscriptionResponseFor(request), SubscribeOnce(request)), u, request)
    ensures SameHandlers(t, u)
  {
    var e, h := SubscriptionResponseFor(request), SubscribeOnce(request);
    assert forall f :: f != e ==> At(Added(t, e, h), f) == At(t, f);
  }

  /** A request and its confirmation together add one confirmed entry and nothing else. */
  lemma ConfirmedValues(s: State, topic: EventTopic, filter: Filter, request: nat, id: string)
    requires Consistent(s) && request !in s.requests
    ensures Answered(Asked(s, topic, filter, request), request, Response(true, id, Some(request))).subscriptions.values
            == s.subscriptions.values[Server(id) := Subscription(Server(id), topic, filter, false)]
  {
    hide Consistent, OrderedMap.Set, OrderedMap.Delete, OrderedMap.Valid;
    UnusedRequest(s, topic, request);
    var v, pending := s.subscriptions.values, Pending(topic, request);
    assert v[pending := Subscription(pending, topic, filter, true)] - {pending} == v;
  }

  /** What the server makes of a request; `Unanswered` ends in its timeout. */
  datatype Answer = Accepted(id: string) | Refused | Unanswered

  predicate DistinctIds(answers: seq<Answer>) {
    forall i, j :: 0 <= i < j < |answers| && answers[i].Accepted? && answers[j].Accepted? ==>
      answers[i].id != answers[j].id
  }

  lemma AskedIsWaiting(s: State, topic: EventTopic, filter: Filter, request: nat)
    requires Consistent(s) && request !in s.requests
    ensures s.subscriptions.Valid() && request in Asked(s, topic, filter, request).requests
    ensures Asked(s, topic, filter, request).requests[request].timer
  {
    hide Consistent, OrderedMap.Set;
    UnusedRequest(s, topic, request);
  }

  /** A request that is refused or times out leaves the map as it was. */
  lemma RejectedValues(s: State, topic: EventTopic, filter: Filter, request: nat, response: Response)
    requires Consistent(s) && request !in s.requests && !response.subscribed
    ensures var asked := Asked(s, topic, filter, request);
            && asked.subscriptions.Valid()
            && Answered(asked, request, response).subscriptions.values == s.subscriptions.values
            && TimedOut(asked, request).subscriptions.values == s.subscriptions.values
  {
    hide Consistent, OrderedMap.Set, OrderedMap.Delete, OrderedMap.Valid;
    UnusedRequest(s, topic, request);
    var v, pending := s.subscriptions.values, Pending(topic, request);
    assert v[pending := Subscription(pending, topic, filter, true)] - {pending} == v;
  }

  /** The pairs of the entries whose requests are accepted. */
  ghost function AcceptedPairs(active: seq<Subscription>, answers: seq<Answer>, n: nat): set<(EventTopic, Filter)>
    requires n <= |active| && n <= |answers|
  {
    set i | 0 <= i < n && answers[i].Accepted? :: (active[i].topic, active[i].filter)
  }

  lemma NoneAccepted(active: seq<Subscription>, answers: seq<Answer>)
    ensures AcceptedPairs(active, answers, 0) == {}
  {
  }

  lemma AcceptedPairsSnoc(active: seq<Subscription>, answers: seq<Answer>, n: nat)
    requires n < |active| && n < |answers|
    ensures AcceptedPairs(active, answers, n + 1) ==
      AcceptedPairs(active, answers, n) + if answers[n].Accepted? then {(active[n].topic, active[n].filter)} else {}
  {
    forall p
      ensures p in AcceptedPairs(active, answers, n + 1) <==>
        p in AcceptedPairs(active, answers, n) || (answers[n].Accepted? && p == (active[n].topic, active[n].filter))
    {
      if p in AcceptedPairs(active, answers, n + 1) {
        var i :| 0 <= i < n + 1 && answers[i].Accepted? && p == (active[i].topic, active[i].filter);
      }
    }
  }

  /** The pairs depend on the entries only. */
  lemma SameValuesSamePairs(a: Subscriptions, b: Subscriptions)
    requires a.values == b.values
    ensures ActivePairs(a) == ActivePairs(b) && (NoMatchingPair(a) <==> NoMatchingPair(b))
  {
  }

  ghost function PairsOf(active: seq<Subscription>): set<(EventTopic, Filter)> {
    set i | 0 <= i < |active| :: (active[i].topic, active[i].filter)
  }

  lemma PairsOfSnoc(active: seq<Subscription>, i: nat)
    requires i < |active|
    ensures PairsOf(active[..i + 1]) == PairsOf(active[..i]) + {(active[i].topic, active[i].filter)}
  {
    var a, b := active[..i + 1], active[..i];
    assert forall j :: 0 <= j < i ==> a[j] == b[j];
    assert a[i] == active[i];
    forall p ensures p in PairsOf(a) <==> p in PairsOf(b) + {(active[i].topic, active[i].filter)} {
      if p in PairsOf(b) {
        var j :| 0 <= j < i && p == (b[j].topic, b[j].filter);
        assert p == (a[j].topic, a[j].filter);
      }
    }
  }

  lemma NothingActive()
    ensures ActivePairs(Empty()) == {} == PairsOf([]) && NoMatchingPair(Empty())
  {
  }

  lemma ArmedIsWaiting(s: State, request: nat)
    requires Consistent(s) && request in s.requests && s.requests[request].timer
    ensures TimedOut(s, request).requests[request].outcome == Rejected
  {
  }

  /** A request number that was never used names no entry. */
  lemma UnusedRequest(s: State, topic: EventTopic, request: nat)
    requires Consistent(s) && request !in s.requests
    ensures s.subscriptions.Valid() && Pending(topic, request) !in s.subscriptions.values
  {
  }

  /** Adding a confirmed pair that is not there yet adds exactly that pair, and creates no match. */
  lemma PairAdded(before: Subscriptions, id: SubscriptionId, topic: EventTopic, filter: Filter, after: Subscriptions)
    requires id !in before.values && (topic, filter) !in ActivePairs(before) && NoMatchingPair(before)
    requires after.values == before.values[id := Subscription(id, topic, filter, false)]
    ensures ActivePairs(after) == ActivePairs(before) + {(topic, filter)}
    ensures NoMatchingPair(after)
  {
    forall p ensures p in ActivePairs(after) <==> p in ActivePairs(before) + {(topic, filter)} {
      if p in ActivePairs(before) {
        var k :| k in before.values && !before.values[k].pending
            && p == (before.values[k].topic, before.values[k].filter);
        assert k in after.values && after.values[k] == before.values[k];
      }
      if p == (topic, filter) {
        assert after.values[id] == Subscription(id, topic, filter, false);
      }
    }
    forall k | k in before.values && !before.values[k].pending
      ensures (before.values[k].topic, before.values[k].filter) in ActivePairs(before)
    {
    }
  }

  lemma SnapshotOfOne(run: seq<Handler>, h: Handler)
    requires NoDup(run) && Elements(run) <= {h}
    ensures |run| <= 1
    ensures |run| == 1 <==> h in Elements(run)
  {
    NoDupCardinality(run);
    if h in Elements(run) {
      assert Elements(run) == {h};
    } else {
      assert Elements(run) == {};
    }
  }
}
