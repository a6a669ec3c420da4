/** The client: how its managers and sockets are kept in step (src/websocket-client/arch-web-socket-client.ts). Every
    callback, every stretch of an async method between two awaits, and every event of a socket is one method; the
    stretches after an await may run at any time. */
module ArchWebSocketClients {
  import opened Prelude
  import opened OrderedMaps
  import opened WebSocketTypes
  import opened WsAdapters
  import opened EventManagers
  import opened ConnectionManagers
  import opened SubscriptionManagers
  import opened ReconnectionManagers
  import opened ClientStates

  /** The options of the client that the model needs; an absent one takes its default. */
  datatype ClientOptions = ClientOptions(
    autoReconnect: Option<bool>, backoffStrategy: Option<BackoffStrategy>, maxReconnectAttempts: Option<int>)

  /** What may happen next: a call by the user, the rest of a call after its await, a timer, or an event of a socket,
      which is given by its place among all adapters made so far. */
  datatype Step =
    | Listen(event: Event, callback: nat)
    | Unlisten(event: Event, callback: nat)
    | ConnectStarts(factory: Factory)
    | ConnectTimesOut
    | ConnectFinishes
    | Disconnects
    | SubscribeStarts(topic: EventTopic, filter: Filter)
    | SubscribeFinishes(topic: EventTopic, callback: nat)
    | SubscribeTimesOut(request: nat)
    | UnsubscribeStarts(id: SubscriptionId)
    | UnsubscribeFinishes(topic: EventTopic)
    | SocketOpens(socket: nat)
    | SocketCloses(socket: nat, random: real)
    | ResponseArrives(socket: nat, response: Response)
    | UnsubscribeArrives(socket: nat, id: SubscriptionId)
    | ReconnectTimerFires(timer: nat, factory: Factory)
    | ReconnectSucceeds(timer: nat)
    | ReconnectFails(timer: nat, random: real)
    | SetOptions(enabled: bool, strategy: BackoffStrategy, maxAttempts: int)

  predicate OnListeners(step: Step) {
    step.Listen? || step.Unlisten? || step.SubscribeFinishes? || step.UnsubscribeFinishes?
  }

  predicate OnConnection(step: Step) {
    step.ConnectStarts? || step.ConnectTimesOut? || step.ConnectFinishes?
  }

  predicate OnSockets(step: Step) {
    step.Disconnects? || step.SocketOpens? || step.SocketCloses?
  }

  predicate OnSubscriptions(step: Step) {
    step.SubscribeStarts? || step.SubscribeTimesOut? || step.ResponseArrives?
  }

  predicate OnUnsubscribing(step: Step) {
    step.UnsubscribeStarts? || step.UnsubscribeArrives?
  }

  predicate OnReconnection(step: Step) {
    step.ReconnectTimerFires? || step.ReconnectSucceeds? || step.ReconnectFails? || step.SetOptions?
  }

  /** What a step did to a request. */
  datatype Effect = Nothing | Issued(request: nat) | Consumed(request: nat)

  /** Only a close or a failed attempt arms a timer, an armed timer fires in its own step, and a disconnect cancels
      the one that is remembered. */
  ghost predicate TimersFollow(step: Step, t: Timers, t': Timers) {
    && HandlesBelowNext(t) && TimersStep(t, t')
    && (Arms(t, t') ==> step.SocketCloses? || step.ReconnectFails?)
    && (Fires(t, t') ==> step.ReconnectTimerFires?)
    && (step.Disconnects? ==> t' == Cancelled(t))
  }

  /** What each step does to what reconnecting depends on. */
  ghost predicate RetryFollows(step: Step, r: Retry, r': Retry) {
    match step
    case ConnectStarts(_) =>
      && r'.timers == r.timers && r'.enabled == r.enabled && r'.maxAttempts == r.maxAttempts
      && r'.currentAttempt == r.currentAttempt
    case ReconnectTimerFires(timer, _) =>
      if timer in r.timers.live then r'.timers == Fired(r.timers, timer) else SameRetries(r, r')
    case SetOptions(enabled, _, maxAttempts) =>
      && r'.timers == r.timers && r'.enabled == enabled && r'.maxAttempts == maxAttempts
      && r'.currentAttempt == r.currentAttempt
    case SocketCloses(_, _) => SameRetries(r, r') || AfterClose(r, r')
    case Disconnects => AfterDisconnect(r, r') && r'.free
    case ReconnectSucceeds(timer) => if timer in r.timers.flying then AfterSuccess(r, r', timer) else SameRetries(r, r')
    case ReconnectFails(timer, _) => if timer in r.timers.flying then AfterFailure(r, r', timer) else SameRetries(r, r')
    case _ => SameRetries(r, r')
  }

  lemma TimersFromRetry(step: Step, r: Retry, r': Retry)
    requires RetryFollows(step, r, r') && HandlesBelowNext(r.timers)
    ensures TimersFollow(step, r.timers, r'.timers)
  {
  }

  /** The user neither connects nor changes the options. */
  predicate LeavesAlone(step: Step) {
    !step.ConnectStarts? && !step.SetOptions?
  }

  lemma IdleStep(step: Step, r: Retry, r': Retry)
    requires LeavesAlone(step) && RetryFollows(step, r, r') && r.timers.live == {}
    ensures Idles(r, r')
  {
    hide SameRetries, AfterClose, AfterDisconnect, AfterSuccess, AfterFailure;
  }

  /** What reconnecting depends on, before a run and after each of its steps. */
  ghost predicate RetriesOfRun(steps: seq<Step>, retries: seq<Retry>) {
    && |retries| == |steps| + 1
    && forall i :: 0 <= i < |steps| ==> RetryFollows(steps[i], retries[i], retries[i + 1])
  }

  lemma NothingRun(r: Retry)
    requires HandlesBelowNext(r.timers)
    ensures RetriesOfRun([], [r]) && TimersOfRun([], [r.timers])
  {
  }

  lemma RetriesGrow(steps: seq<Step>, retries: seq<Retry>, step: Step, r: Retry)
    requires RetriesOfRun(steps, retries) && RetryFollows(step, retries[|steps|], r)
    ensures RetriesOfRun(steps + [step], retries + [r])
  {
    hide RetryFollows;
    var allSteps, all := steps + [step], retries + [r];
    forall i | 0 <= i < |allSteps| ensures RetryFollows(allSteps[i], all[i], all[i + 1]) {
      if i < |steps| {
        assert RetryFollows(steps[i], retries[i], retries[i + 1]);
      }
    }
  }

  /** Once a free client may not reconnect, no timer is armed or fires for as long as the user neither connects nor
      changes the options. */
  lemma {:induction false} QuietUpTo(steps: seq<Step>, retries: seq<Retry>, from: nat, n: nat)
    requires RetriesOfRun(steps, retries) && from <= n <= |steps|
    requires HandlesBelowNext(retries[from].timers) && retries[from].free && !retries[from].MayReconnect()
    requires forall i :: from <= i < n ==> LeavesAlone(steps[i])
    ensures HandlesBelowNext(retries[n].timers) && retries[n].free && !retries[n].MayReconnect()
    ensures forall i :: from <= i < n ==> !Reconnects(retries[i], retries[i + 1])
  {
    hide RetryFollows, Reconnects, HandlesBelowNext;
    if from < n {
      QuietUpTo(steps, retries, from, n - 1);
      assert RetryFollows(steps[n - 1], retries[n - 1], retries[n - 1 + 1]);
      IdleStep(steps[n - 1], retries[n - 1], retries[n]);
      StaysQuiet(retries[n - 1], retries[n]);
    }
  }

  /** Without stray sockets no close arms a timer, and if none was armed or in flight at the start, none ever is. */
  lemma {:induction false} NoTimerWithoutStray(steps: seq<Step>, retries: seq<Retry>, n: nat)
    requires RetriesOfRun(steps, retries) && n <= |steps|
    requires forall i :: 0 <= i <= |steps| ==> !retries[i].stray
    ensures forall i :: 0 <= i < n && steps[i].SocketCloses? ==> retries[i + 1].timers == retries[i].timers
    ensures retries[0].timers.live == retries[0].timers.flying == {} ==>
      forall i :: 0 <= i <= n ==> retries[i].timers.live == retries[i].timers.flying == {}
  {
    if n > 0 {
      NoTimerWithoutStray(steps, retries, n - 1);
      assert RetryFollows(steps[n - 1], retries[n - 1], retries[n - 1 + 1]);
      NoTimerStep(steps[n - 1], retries[n - 1], retries[n]);
    }
  }

  lemma NoTimerStep(step: Step, r: Retry, r': Retry)
    requires RetryFollows(step, r, r') && !r.stray
    ensures step.SocketCloses? ==> r'.timers == r.timers
    ensures r.timers.live == r.timers.flying == {} ==> r'.timers.live == r'.timers.flying == {}
  {
  }

  /** The timers before a run and after each of its steps. */
  ghost predicate TimersOfRun(steps: seq<Step>, timers: seq<Timers>) {
    && |timers| == |steps| + 1 && HandlesBelowNext(timers[0])
    && forall i :: 0 <= i < |steps| ==> TimersFollow(steps[i], timers[i], timers[i + 1])
  }

  /** Two attempts overlap somewhere in the run: one is scheduled while an earlier timer is still armed. */
  ghost predicate Overlaps(timers: seq<Timers>) {
    exists i :: 0 <= i < |timers| - 1 && Overlap(timers[i], timers[i + 1])
  }

  lemma TimersGrow(steps: seq<Step>, i: nat, timers: seq<Timers>, next: Timers)
    requires i < |steps| && TimersOfRun(steps[..i], timers) && TimersFollow(steps[i], timers[i], next)
    ensures TimersOfRun(steps[..i + 1], timers + [next])
  {
    hide TimersFollow, HandlesBelowNext;
    var all := timers + [next];
    forall j | 0 <= j < i + 1 ensures TimersFollow(steps[..i + 1][j], all[j], all[j + 1]) {
      if j < i {
        assert TimersFollow(steps[..i][j], timers[j], timers[j + 1]);
      }
    }
  }

  lemma RunIsTrace(steps: seq<Step>, timers: seq<Timers>)
    requires TimersOfRun(steps, timers)
    ensures TimersTrace(timers)
  {
    forall i | 0 <= i < |timers| - 1 ensures TimersStep(timers[i], timers[i + 1]) {
      assert TimersFollow(steps[i], timers[i], timers[i + 1]);
    }
  }

  /** A disconnect would leave no reconnect armed at every point of a run exactly when no two attempts of the run
      overlap; in that case every disconnect of the run did leave none. */
  lemma DisconnectsLeaveNothingIff(steps: seq<Step>, timers: seq<Timers>)
    requires TimersOfRun(steps, timers) && timers[0].live == {}
    ensures (forall i :: 0 <= i <= |steps| ==> Cancelled(timers[i]).live == {}) <==> !Overlaps(timers)
    ensures !Overlaps(timers) ==> forall i :: 0 <= i < |steps| && steps[i].Disconnects? ==> timers[i + 1].live == {}
  {
    RunIsTrace(steps, timers);
    CancelLeavesNothingIff(timers);
    if !Overlaps(timers) {
      forall i | 0 <= i < |steps| && steps[i].Disconnects? ensures timers[i + 1].live == {} {
        assert TimersFollow(steps[i], timers[i], timers[i + 1]);
      }
    }
  }

  // ---------- what settles a promise, and what confirms an entry ----------

  /** This step is the answer or the timeout that gives the request's promise this outcome. */
  predicate Settles(step: Step, request: nat, outcome: Outcome) {
    || (&& step.ResponseArrives? && step.response.request == Some(request)
        && outcome == if step.response.subscribed then Resolved(step.response.subscriptionId) else Rejected)
    || (step == SubscribeTimesOut(request) && outcome == Rejected)
  }

  /** This step is the server's acceptance, under this id, of a request for the topic and filter of the entry. */
  ghost predicate Grants(step: Step, entry: Subscription, requests: map<nat, Request>) {
    && step.ResponseArrives? && step.response.subscribed && step.response.request.Some?
    && entry.id == Server(step.response.subscriptionId)
    && var r := step.response.request.value;
       r in requests && requests[r].topic == entry.topic && requests[r].filter == entry.filter
  }

  predicate IsSettled(requests: map<nat, Request>, r: nat) {
    r in requests && requests[r].outcome != Waiting
  }

  predicate IsAnswered(requests: map<nat, Request>, r: nat) {
    r in requests && requests[r].answered
  }

  predicate HasEntry(subs: Subscriptions, entry: Subscription) {
    !entry.pending && entry.id in subs.values && subs.values[entry.id] == entry
  }

  /** One step: a promise that settles does so by this step, an entry that is confirmed is so by this step, and an
      answer leaves no promise waiting. */
  ghost predicate Accounts(step: Step, s: State, s': State) {
    && (forall r :: IsSettled(s'.requests, r) && !IsSettled(s.requests, r) ==>
          Settles(step, r, s'.requests[r].outcome))
    && (forall entry :: HasEntry(s'.subscriptions, entry) && !HasEntry(s.subscriptions, entry) ==>
          Grants(step, entry, s'.requests))
    && (forall r :: IsAnswered(s'.requests, r) && !IsAnswered(s.requests, r) ==> IsSettled(s'.requests, r))
  }

  /** The same over a run: each newly settled promise and newly confirmed entry goes back to a step of the run. */
  ghost predicate AccountsOfRun(steps: seq<Step>, s: State, s': State) {
    && (forall r :: IsSettled(s'.requests, r) && !IsSettled(s.requests, r) ==>
          exists i :: 0 <= i < |steps| && Settles(steps[i], r, s'.requests[r].outcome))
    && (forall entry :: HasEntry(s'.subscriptions, entry) && !HasEntry(s.subscriptions, entry) ==>
          exists i :: 0 <= i < |steps| && Grants(steps[i], entry, s'.requests))
    && (forall r :: IsAnswered(s'.requests, r) && !IsAnswered(s.requests, r) ==> IsSettled(s'.requests, r))
  }

  lemma AccountsGrow(steps: seq<Step>, n: nat, s: State, s1: State, s2: State)
    requires n < |steps| && AccountsOfRun(steps[..n], s, s1) && Accounts(steps[n], s1, s2)
    requires Later(s1.requests, s2.requests)
    ensures AccountsOfRun(steps[..n + 1], s, s2)
  {
    hide Settles, HasEntry;
    var before, all := steps[..n], steps[..n + 1];
    assert all[n] == steps[n] && forall i :: 0 <= i < n ==> all[i] == before[i];
    forall r | IsSettled(s2.requests, r) && !IsSettled(s.requests, r)
      ensures exists i :: 0 <= i < |all| && Settles(all[i], r, s2.requests[r].outcome)
    {
      if IsSettled(s1.requests, r) {
        var i :| 0 <= i < n && Settles(before[i], r, s1.requests[r].outcome);
        assert Settles(all[i], r, s2.requests[r].outcome);
      } else {
        assert Settles(all[n], r, s2.requests[r].outcome);
      }
    }
    forall entry | HasEntry(s2.subscriptions, entry) && !HasEntry(s.subscriptions, entry)
      ensures exists i :: 0 <= i < |all| && Grants(all[i], entry, s2.requests)
    {
      if HasEntry(s1.subscriptions, entry) {
        var i :| 0 <= i < n && Grants(before[i], entry, s1.requests);
        assert Grants(all[i], entry, s2.requests);
      } else {
        assert Grants(all[n], entry, s2.requests);
      }
    }
  }

  lemma NothingAccounted(s: State)
    ensures AccountsOfRun([], s, s)
  {
  }

  /** Without an answer or a timeout: no promise settles, and entries only go or are pending. */
  lemma AccountsQuiet(step: Step, s: State, s': State)
    requires forall r :: r in s'.requests ==>
      if r in s.requests then s'.requests[r] == s.requests[r]
      else s'.requests[r].outcome == Waiting && !s'.requests[r].answered
    requires forall entry :: HasEntry(s'.subscriptions, entry) ==> HasEntry(s.subscriptions, entry)
    ensures Accounts(step, s, s')
  {
  }

  lemma AccountsAnswer(step: Step, s: State, request: nat)
    requires step.ResponseArrives? && step.response.request == Some(request)
    requires s.subscriptions.Valid() && request in s.requests
    ensures Accounts(step, s, Answered(s, request, step.response))
  {
    AnsweredMeaning(s, request, step.response);
    hide Answered;
    var s' := Answered(s, request, step.response);
  }

  lemma AccountsTimeout(s: State, request: nat)
    requires s.subscriptions.Valid() && request in s.requests
    ensures Accounts(SubscribeTimesOut(request), s, TimedOut(s, request))
  {
  }

  class ArchWebSocketClient {
    const connectionManager: ConnectionManager
    const subscriptionManager: SubscriptionManager
    const eventManager: EventManager
    const reconnectionManager: ReconnectionManager
    const autoReconnect: bool
    var autoReconnectHandler: Option<Handler>
    var socket: WebSocketAdapter?
    var bindings: nat                     // function objects made by `bind`
    var adapters: seq<WebSocketAdapter>   // every adapter made so far; the runtime may still call them

    ghost function State(): ClientState
      reads this, connectionManager, subscriptionManager, eventManager, adapters
    {
      ClientState(map a | a in adapters :: a.handlers, socket, connectionManager.socket, subscriptionManager.socket,
                  eventManager.listeners, autoReconnectHandler, subscriptionManager.requests)
    }

    ghost predicate Valid()
      reads this, connectionManager, subscriptionManager, eventManager, reconnectionManager, adapters
    {
      && InStep(State())
      && OnlyCallbacks(eventManager.listeners)
      && (!autoReconnect ==> autoReconnectHandler == None)
      && subscriptionManager.Valid() && reconnectionManager.Valid()
    }

    constructor (options: ClientOptions)
      ensures Valid() && socket == null && adapters == [] && autoReconnect == options.autoReconnect.GetOr(false)
      ensures fresh(connectionManager) && fresh(subscriptionManager) && fresh(eventManager)
        && fresh(reconnectionManager)
      ensures connectionManager.socket == null && !connectionManager.isConnecting
      ensures subscriptionManager.CurrentState() == SubscriptionManagers.State(Empty(), map[])
      ensures subscriptionManager.requestIdCounter == 0 && subscriptionManager.socket == null
      ensures eventManager.listeners == map[]
      ensures reconnectionManager.Now() == Timers({}, {}, None, 0) && reconnectionManager.currentAttempt == 0
      ensures reconnectionManager.enabled == autoReconnect && reconnectionManager.WithinLimit()
      ensures reconnectionManager.strategy == StrategyInEffect(options.backoffStrategy)
      ensures reconnectionManager.maxAttempts == options.maxReconnectAttempts.GetOr(5)
    {
      this.autoReconnect := options.autoReconnect.GetOr(false);
      connectionManager := new ConnectionManager();
      subscriptionManager := new SubscriptionManager();
      eventManager := new EventManager();
      var reconnection := new ReconnectionManager(DEFAULT_BACKOFF_STRATEGY);
      reconnection.SetOptions(options.autoReconnect.GetOr(false), StrategyInEffect(options.backoffStrategy),
                              options.maxReconnectAttempts.GetOr(5));
      reconnectionManager := reconnection;
      autoReconnectHandler, socket, bindings, adapters := None, null, 0, [];
    }

    // ---------- listeners ----------

    ghost function Sockets(): set<WebSocketAdapter>
      reads this`socket
    {
      if socket == null then {} else {socket}
    }

    method On(event: Event, callback: Handler)
      requires Valid() && callback.Callback? && UserEvent(event)
      modifies eventManager, Sockets()`handlers
      ensures Valid()
      ensures eventManager.listeners == Added(old(eventManager.listeners), event, callback)
      ensures socket != null ==> socket.handlers == Added(old(socket.handlers), event, callback)
      ensures AutosShrink(old(State()), State())
    {
      hide InStep, AutosShrink, Added, OnlyCallbacks, SubscriptionManager.Valid, ReconnectionManager.Valid;
      ghost var s := State();
      Known(s);
      CallbackAdded(eventManager.listeners, event, callback);
      ListenerAdded(s, event, callback);
      eventManager.AddListener(event, callback);
      if socket != null {
        socket.On(event, callback);
      }
      assert State() == WithListeners(s, eventManager.listeners, if socket == null then map[] else socket.handlers);
    }

    method Off(event: Event, callback: Handler)
      requires Valid() && callback.Callback? && UserEvent(event)
      modifies eventManager, Sockets()`handlers
      ensures Valid()
      ensures eventManager.listeners == ListenerTableWithout(old(eventManager.listeners), event, callback)
      ensures socket != null ==> socket.handlers == Removed(old(socket.handlers), event, callback)
      ensures AutosShrink(old(State()), State())
    {
      hide InStep, AutosShrink, Removed, OnlyCallbacks, SubscriptionManager.Valid, ReconnectionManager.Valid;
      ghost var s := State();
      Known(s);
      ListenerTableWithoutMeaning(s.listeners, event, callback);
      CallbacksShrink(s.listeners, ListenerTableWithout(s.listeners, event, callback));
      ListenerRemoved(s, event, callback);
      eventManager.RemoveListener(event, callback);
      if socket != null {
        socket.Off(event, callback);
      }
      assert State() == WithListeners(s, eventManager.listeners, if socket == null then map[] else socket.handlers);
    }

    /** The part of `subscribe` after the request was confirmed. */
    method FinishSubscribe(topic: EventTopic, callback: Handler)
      requires Valid() && callback.Callback?
      modifies eventManager, Sockets()`handlers
      ensures Valid()
      ensures eventManager.listeners == Added(old(eventManager.listeners), Topic(topic), callback)
      ensures socket != null ==> socket.handlers == Added(old(socket.handlers), Topic(topic), callback)
      ensures AutosShrink(old(State()), State())
    {
      On(Topic(topic), callback);
    }

    /** The part of `unsubscribe` and `unsubscribeById` after the server's answer: every listener of the topic goes. */
    method FinishUnsubscribe(topic: EventTopic)
      requires Valid()
      modifies eventManager, Sockets()`handlers
      ensures Valid()
      ensures eventManager.listeners == old(eventManager.listeners) - {Topic(topic)}
      ensures socket != null ==> forall e ::
        At(socket.handlers, e) == if e == Topic(topic) then {} else old(At(socket.handlers, e))
      ensures AutosShrink(old(State()), State())
    {
      hide InStep, AutosShrink, OnlyCallbacks, SubscriptionManager.Valid, ReconnectionManager.Valid;
      ghost var s := State();
      Known(s);
      if socket != null {
        ListenersOfCurrent(s);
        DetachListeners(topic, eventManager.GetListeners(Topic(topic)));
      }
      CallbacksShrink(s.listeners, s.listeners - {Topic(topic)});
      TopicCleared(s, topic, if socket == null then map[] else socket.handlers);
      eventManager.RemoveAllListeners(Topic(topic));
      assert State() == WithListeners(s, eventManager.listeners, if socket == null then map[] else socket.handlers);
    }

    /** Every given callback goes off the topic on the current socket. */
    method DetachListeners(topic: EventTopic, callbacks: set<Handler>)
      requires socket != null
      modifies socket`handlers
      ensures forall e ::
        At(socket.handlers, e) == old(At(socket.handlers, e)) - (if e == Topic(topic) then callbacks else {})
    {
      var rest := callbacks;
      while rest != {}
        invariant rest <= callbacks
        invariant forall e ::
          At(socket.handlers, e) == old(At(socket.handlers, e)) - (if e == Topic(topic) then callbacks - rest else {})
        decreases rest
      {
        var callback :| callback in rest;
        rest := rest - {callback};
        socket.Off(Topic(topic), callback);
      }
    }

    /** A broadcast on the current socket runs each registered listener exactly once. */
    method Broadcast(topic: EventTopic) returns (run: seq<Handler>)
      requires Valid() && socket != null
      ensures NoDup(run) && Elements(run) == At(eventManager.listeners, Topic(topic))
    {
      ListenersOfCurrent(State());
      run := socket.Snapshot(Topic(topic));
    }

    // ---------- connecting and disconnecting ----------

    /** The connection manager's socket has just been made, and is the one adapter more. */
    ghost predicate Joined(before: seq<WebSocketAdapter>, factory: Factory)
      reads this, connectionManager, adapters
    {
      && |adapters| == |before| + 1 && adapters[..|before|] == before
      && connectionManager.isConnecting == (factory != Throws)
      && var a := adapters[|before|];
         && connectionManager.socket == a && !a.connected && a.handlers == ConnectionManager.InitialHandlers()
         && a.ws == if factory == Creates then Some(Connecting) else None
    }

    /** The part of `connect` before its await: the connection manager may start an attempt on a new adapter. */
    method ConnectCall(factory: Factory) returns (r: ConnectStart)
      requires Valid()
      modifies this`adapters, connectionManager
      ensures Valid()
      ensures r == AlreadyConnected <==> old(connectionManager.IsConnected())
      ensures r == AttemptPending <==> old(connectionManager.isConnecting && !connectionManager.IsConnected())
      ensures r == Started || r == Failed ==> Joined(old(adapters), factory) && fresh(connectionManager.socket)
      ensures AutosShrink(old(State()), State())
      ensures r == AlreadyConnected || r == AttemptPending ==>
        adapters == old(adapters) && unchanged(connectionManager`socket, connectionManager`isConnecting)
    {
      hide InStep, AutosShrink, OnlyCallbacks, NoListeners, AutoHandlers, ConnectionManager.InitialHandlers, At,
        SubscriptionManager.Valid, ReconnectionManager.Valid;
      ghost var s := State();
      r := connectionManager.StartConnect(factory);
      if r == Started || r == Failed {
        var adapter := connectionManager.socket;
        adapters := adapters + [adapter];
        InitialHandlersAreClean();
        AdapterAdded(s, State(), adapter);
      } else {
        assert State() == s;
        AutosSame(s, State());
      }
    }

    method ConnectTimeout()
      requires Valid()
      modifies connectionManager`isConnecting
      ensures Valid() && !connectionManager.isConnecting && State() == old(State())
    {
      hide InStep, OnlyCallbacks;
      connectionManager.ConnectTimesOut();
      assert State() == old(State());
    }

    /** Every listener of the event manager goes onto the current socket. */
    method AttachAllListeners()
      requires socket != null
      modifies socket`handlers
      ensures forall e :: At(socket.handlers, e) == old(At(socket.handlers, e)) + At(eventManager.listeners, e)
    {
      var events := eventManager.listeners.Keys;
      while events != {}
        invariant events <= eventManager.listeners.Keys
        invariant forall e ::
          At(socket.handlers, e) == old(At(socket.handlers, e))
            + (if e in events then {} else At(eventManager.listeners, e))
        decreases events
      {
        var event :| event in events;
        AttachListeners(event, eventManager.listeners[event]);
        events := events - {event};
      }
    }

    method AttachListeners(event: Event, callbacks: set<Handler>)
      requires socket != null
      modifies socket`handlers
      ensures forall e :: At(socket.handlers, e) == old(At(socket.handlers, e)) + (if e == event then callbacks else {})
    {
      var rest := callbacks;
      while rest != {}
        invariant rest <= callbacks
        invariant forall e ::
          At(socket.handlers, e) == old(At(socket.handlers, e)) + (if e == event then callbacks - rest else {})
        decreases rest
      {
        var callback :| callback in rest;
        rest := rest - {callback};
        socket.On(event, callback);
      }
    }

    /** The reconnect handler of the current socket is replaced by a new binding. */
    method RenewAutoReconnect()
      requires socket != null && (autoReconnectHandler.Some? ==> autoReconnectHandler.value.AutoReconnect?)
      modifies this`autoReconnectHandler, this`bindings, socket`handlers
      ensures autoReconnectHandler == Some(AutoReconnect(old(bindings))) && bindings == old(bindings) + 1
      ensures AutoHandlers(socket.handlers) ==
        AutoHandlers(old(socket.handlers)) - Only(old(autoReconnectHandler)) + Only(autoReconnectHandler)
      ensures At(socket.handlers, Disconnect) ==
        old(At(socket.handlers, Disconnect)) - Only(old(autoReconnectHandler)) + Only(autoReconnectHandler)
      ensures forall e :: e != Disconnect ==> At(socket.handlers, e) == old(At(socket.handlers, e))
      ensures forall e :: Served(socket.handlers, e) == Served(old(socket.handlers), e)
    {
      hide AutoHandlers, At, Served, Added, Removed;
      if autoReconnectHandler.Some? {
        AutoRemovedFrom(socket.handlers, autoReconnectHandler.value);
        socket.Off(Disconnect, autoReconnectHandler.value);
      }
      autoReconnectHandler := Some(AutoReconnect(bindings));
      bindings := bindings + 1;
      AutoAddedTo(socket.handlers, autoReconnectHandler.value);
      socket.On(Disconnect, autoReconnectHandler.value);
    }

    /** What `connect` does to the socket that has become current. */
    method AttachCurrent()
      requires socket != null && OnlyCallbacks(eventManager.listeners)
      requires !autoReconnect ==> autoReconnectHandler == None
      requires autoReconnectHandler.Some? ==> autoReconnectHandler.value.AutoReconnect?
      modifies this`autoReconnectHandler, this`bindings, subscriptionManager`socket, subscriptionManager`setups,
        socket`handlers
      ensures subscriptionManager.socket == socket
      ensures autoReconnectHandler == if autoReconnect then Some(AutoReconnect(old(bindings)))
                                      else old(autoReconnectHandler)
      ensures HandlersAttached(old(socket.handlers), socket.handlers, eventManager.listeners,
                               old(subscriptionManager.setups), old(autoReconnectHandler), autoReconnectHandler)
    {
      hide AutoHandlers, At, Served, Added, Removed, OnlyCallbacks;
      ghost var t0, setup := socket.handlers, subscriptionManager.setups;
      subscriptionManager.SetSocket(socket);
      ReemitsAdded(t0, setup);
      AttachAllListeners();
      if autoReconnect {
        RenewAutoReconnect();
      }
    }

    /** The part of `connect` after its await: the connection manager's socket becomes the client's. */
    method FinishConnect()
      requires Valid()
      modifies this`socket, this`autoReconnectHandler, this`bindings, subscriptionManager`socket,
        subscriptionManager`setups,
        (if connectionManager.socket == null then {} else {connectionManager.socket})`handlers
      ensures Valid() && socket == connectionManager.socket
      ensures socket != null ==> subscriptionManager.socket == socket
      ensures socket != null ==>
        HandlersAttached(old(connectionManager.socket.handlers), socket.handlers, eventManager.listeners,
                         old(subscriptionManager.setups), old(autoReconnectHandler), autoReconnectHandler)
      ensures autoReconnectHandler == if socket != null && autoReconnect then Some(AutoReconnect(old(bindings)))
                                      else old(autoReconnectHandler)
      ensures !autoReconnect || connectionManager.socket == null ==> AutosShrink(old(State()), State())
    {
      hide InStep, AutosShrink, OnlyCallbacks, Completed, AutoAgrees, HandlersAttached, SubscriptionManager.Valid,
        ReconnectionManager.Valid;
      ghost var s := State();
      Known(s);
      AutoIsReconnect(s);
      socket := connectionManager.socket;
      if socket == null {
        CurrentDropped(s);
        assert State() == s.(current := null);
      } else {
        assert s.tables[socket] == socket.handlers;
        ghost var setup := subscriptionManager.setups;
        AttachCurrent();
        ConnectionAttaches(s, socket.handlers, setup, s.auto, autoReconnectHandler);
        assert State() == WithTable(s, socket, socket.handlers).(
          current := socket, subscriber := socket, auto := autoReconnectHandler);
      }
    }

    /** The reconnect handler goes off the current socket and is forgotten. */
    method ForgetAutoReconnect()
      requires Valid()
      modifies this`autoReconnectHandler, Sockets()`handlers
      ensures Valid() && autoReconnectHandler == None
      ensures State().listeners == old(State().listeners) && State().connecting == old(State().connecting)
      ensures socket != null ==> AutoHandlers(socket.handlers) == {}
      ensures socket != null ==> forall e ::
        At(socket.handlers, e) ==
        old(At(socket.handlers, e)) - (if e == Disconnect then Only(old(autoReconnectHandler)) else {})
      ensures AutosShrink(old(State()), State())
    {
      hide InStep, AutosShrink, OnlyCallbacks, SameListeners, AutoHandlers, At, Served, Removed,
        SubscriptionManager.Valid, ReconnectionManager.Valid;
      ghost var s := State();
      Known(s);
      if autoReconnectHandler.Some? {
        if socket != null {
          AutoIsReconnect(s);
          ListenersOfCurrent(s);
          AutoRemovedFrom(socket.handlers, autoReconnectHandler.value);
          socket.Off(Disconnect, autoReconnectHandler.value);
          ListenersKept(s.tables[socket], socket.handlers, s.listeners);
          AutoRemoved(s, socket.handlers);
          autoReconnectHandler := None;
          assert State() == WithTable(s, socket, socket.handlers).(auto := None);
        } else {
          AutoForgotten(s);
          autoReconnectHandler := None;
          assert State() == s.(auto := None);
        }
      } else {
        if socket != null {
          ListenersOfCurrent(s);
          assert s.tables[socket] == socket.handlers;
        }
        AutosSame(s, State());
      }
    }

    /** The socket is connected or may still open. */
    static predicate Alive(a: WebSocketAdapter)
      reads a`connected, a`ws
    {
      a.connected || a.ws == Some(Connecting)
    }

    /** A socket that may still close with a reconnect handler on it. */
    predicate Stray(k: nat)
      requires k < |adapters|
      reads this`adapters, adapters
    {
      Alive(adapters[k]) && AutoHandlers(adapters[k].handlers) != {}
    }

    predicate AnyStray()
      reads this`adapters, adapters
    {
      exists k :: 0 <= k < |adapters| && Stray(k)
    }

    /** A stray socket besides the client's own. */
    predicate OtherStray()
      reads this`adapters, this`socket, adapters
    {
      exists k :: 0 <= k < |adapters| && adapters[k] != socket && Stray(k)
    }

    /** A disconnect takes the reconnect handler off the client's own socket only. */
    twostate lemma StraysAfterDisconnect()
      requires adapters == old(adapters) && socket == old(socket)
        && (socket != null ==> AutoHandlers(socket.handlers) == {})
      requires old(connectionManager.socket) != null && old(connectionManager.socket) != socket ==>
        AutoHandlers(old(connectionManager.socket.handlers)) == {}
      requires forall a | a in adapters ::
        && unchanged(a`connected) && (a != socket ==> unchanged(a`handlers))
        && (a != old(connectionManager.socket) ==> unchanged(a`ws))
      ensures AnyStray() <==> old(OtherStray())
    {
      hide AutoHandlers;
      forall k | 0 <= k < |adapters| ensures Stray(k) <==> adapters[k] != socket && old(Stray(k)) {
        var a := adapters[k];
        assert a in adapters;
      }
      if k :| 0 <= k < |adapters| && Stray(k) {
        assert old(Stray(k));
      }
    }

    method DisconnectCall()
      requires Valid()
      modifies this`autoReconnectHandler, Sockets()`handlers, reconnectionManager`reconnectTimer,
        reconnectionManager`live,
        connectionManager`socket, (if connectionManager.socket == null then {} else {connectionManager.socket})`ws
      ensures Valid() && connectionManager.socket == null && autoReconnectHandler == None && socket == old(socket)
      ensures socket != null ==> forall e ::
        At(socket.handlers, e) ==
        old(At(socket.handlers, e)) - (if e == Disconnect then Only(old(autoReconnectHandler)) else {})
      ensures reconnectionManager.Now() == Cancelled(old(reconnectionManager.Now()))
      ensures reconnectionManager.live == {} <==> old(OnlyLatest(reconnectionManager.Now()))
      ensures old(connectionManager.socket) != null ==> old(connectionManager.socket).ws == None
      ensures reconnectionManager.WithinLimit() == old(reconnectionManager.WithinLimit())
      ensures AnyStray() <==> old(OtherStray())
      ensures AutosShrink(old(State()), State())
    {
      hide InStep, AutosShrink, OnlyCallbacks, SubscriptionManager.Valid, HandlesBelowNext, AutoHandlers, OtherStray,
        AnyStray, Valid;
      ghost var s0 := State();
      ConnectingLacksAuto();
      ForgetAutoReconnect();
      ghost var s := State();
      EndConnection();
      StraysAfterDisconnect();
      AutosShrinkTwice(s0, s, State());
    }

    lemma ConnectingLacksAuto()
      requires Valid()
      ensures connectionManager.socket != null && connectionManager.socket != socket ==>
        AutoHandlers(connectionManager.socket.handlers) == {}
    {
      hide InStep, OnlyCallbacks, AutoHandlers, SubscriptionManager.Valid, ReconnectionManager.Valid;
      ConnectingHasNoAuto(State());
    }

    /** The rest of `disconnect`: the remembered timer is cancelled, and the connection manager lets its socket go. */
    method EndConnection()
      requires Valid()
      modifies reconnectionManager`reconnectTimer, reconnectionManager`live, connectionManager`socket,
        (if connectionManager.socket == null then {} else {connectionManager.socket})`ws
      ensures Valid() && connectionManager.socket == null
      ensures reconnectionManager.Now() == Cancelled(old(reconnectionManager.Now()))
      ensures reconnectionManager.live == {} <==> old(OnlyLatest(reconnectionManager.Now()))
      ensures old(connectionManager.socket) != null ==> old(connectionManager.socket).ws == None
      ensures reconnectionManager.WithinLimit() == old(reconnectionManager.WithinLimit())
      ensures AutosShrink(old(State()), State())
    {
      hide InStep, AutosShrink, OnlyCallbacks, SubscriptionManager.Valid, HandlesBelowNext;
      ghost var s := State();
      reconnectionManager.CancelReconnect();
      ConnectingDropped(s);
      connectionManager.DisconnectSocket();
      assert State() == s.(connecting := null);
    }

    // ---------- socket events ----------

    /** A socket opens. Listeners are attached only after the await of `connect`, so the registered listeners of the
        connect event run exactly when the socket was the current one before it opened; a new socket runs none. */
    method SocketOpens(i: nat) returns (run: seq<Handler>)
      requires Valid() && i < |adapters|
      modifies connectionManager`isConnecting, adapters[i]
      ensures Valid() && adapters[i].connected
      ensures adapters[i].ws == if old(adapters[i].ws) == None then None else Some(Open)
      ensures connectionManager.socket == old(connectionManager.socket)
      ensures adapters[i].handlers == Removed(old(adapters[i].handlers), Connect, ConnectOnce)
      ensures connectionManager.isConnecting ==
        (old(connectionManager.isConnecting) && ConnectOnce !in At(old(adapters[i].handlers), Connect))
      ensures NoDup(run) && Elements(run) == At(old(adapters[i].handlers), Connect)
      ensures adapters[i] == socket ==> Callbacks(run) == At(eventManager.listeners, Connect)
      ensures adapters[i] == connectionManager.socket && adapters[i] != socket ==> Callbacks(run) == {}
      ensures AutosShrink(old(State()), State())
    {
      hide InStep, AutosShrink, OnlyCallbacks, SameWhereItMatters, Removed, Served, Callbacks;
      ghost var s := State();
      var adapter := adapters[i];
      assert s.tables[adapter] == adapter.handlers;
      OpeningServes(s, adapter);
      ConnectOnceUnseen(adapter.handlers);
      run := connectionManager.SocketOpens(adapter);
      CallbacksAreServed(run, s.tables[adapter], Connect);
      IrrelevantChange(s, adapter, adapter.handlers);
      assert State() == WithTable(s, adapter, adapter.handlers);
    }

    /** The reconnect handler: one more attempt, if any is left. */
    method AutoReconnectHandlerImpl(random: real)
      requires reconnectionManager.Valid()
      modifies reconnectionManager
      ensures reconnectionManager.Valid()
      ensures reconnectionManager.currentAttempt ==
        old(reconnectionManager.currentAttempt) + if old(reconnectionManager.ShouldReconnect()) then 1 else 0
      ensures reconnectionManager.Now() ==
        if old(reconnectionManager.ShouldReconnect()) then Armed(old(reconnectionManager.Now()))
        else old(reconnectionManager.Now())
      ensures unchanged(reconnectionManager`enabled, reconnectionManager`strategy, reconnectionManager`maxAttempts)
      ensures reconnectionManager.maxAttempts == old(reconnectionManager.maxAttempts)
      ensures old(reconnectionManager.WithinLimit()) ==> reconnectionManager.WithinLimit()
    {
      if reconnectionManager.ShouldReconnect() {
        var delay := reconnectionManager.ScheduleReconnect(random);
      }
    }

    /** The disconnect event of a socket: among its handlers at most one schedules a reconnect. */
    method EmitDisconnect(adapter: WebSocketAdapter, random: real)
      requires reconnectionManager.Valid()
      requires forall h, h' :: h in AutoHandlers(adapter.handlers) && h' in AutoHandlers(adapter.handlers) ==> h == h'
      modifies reconnectionManager
      ensures reconnectionManager.Valid()
      ensures reconnectionManager.currentAttempt == old(reconnectionManager.currentAttempt) +
        if AutoHandlers(adapter.handlers) != {} && old(reconnectionManager.ShouldReconnect()) then 1 else 0
      ensures reconnectionManager.Now() ==
        if AutoHandlers(adapter.handlers) != {} && old(reconnectionManager.ShouldReconnect())
        then Armed(old(reconnectionManager.Now()))
        else old(reconnectionManager.Now())
      ensures unchanged(reconnectionManager`enabled, reconnectionManager`strategy, reconnectionManager`maxAttempts)
      ensures old(reconnectionManager.WithinLimit()) ==> reconnectionManager.WithinLimit()
    {
      var run := adapter.Snapshot(Disconnect);
      for j := 0 to |run|
        invariant reconnectionManager.Valid()
        invariant reconnectionManager.currentAttempt == old(reconnectionManager.currentAttempt) +
          if (exists k :: 0 <= k < j && run[k].AutoReconnect?) && old(reconnectionManager.ShouldReconnect())
          then 1 else 0
        invariant reconnectionManager.Now() ==
          if (exists k :: 0 <= k < j && run[k].AutoReconnect?) && old(reconnectionManager.ShouldReconnect())
          then Armed(old(reconnectionManager.Now())) else old(reconnectionManager.Now())
        invariant unchanged(reconnectionManager`enabled, reconnectionManager`strategy, reconnectionManager`maxAttempts)
        invariant (forall k :: 0 <= k < j ==> !run[k].AutoReconnect?) ==> unchanged(reconnectionManager)
        invariant old(reconnectionManager.WithinLimit()) ==> reconnectionManager.WithinLimit()
      {
        if run[j].AutoReconnect? {
          forall k | 0 <= k < j ensures !run[k].AutoReconnect? {
            assert run[k] in Elements(run) && run[j] in Elements(run);
            assert run[k].AutoReconnect? ==> run[k] in AutoHandlers(adapter.handlers);
            assert run[j] in AutoHandlers(adapter.handlers);
          }
          AutoReconnectHandlerImpl(random);
        }
      }
      AutoAmong(run, adapter.handlers);
    }

    /** Closing this socket schedules a reconnect: it was connected, it has the handler, and an attempt is left. */
    ghost predicate CloseSchedules(i: nat)
      requires i < |adapters|
      reads this, adapters, reconnectionManager
    {
      adapters[i].connected && AutoHandlers(adapters[i].handlers) != {} && reconnectionManager.ShouldReconnect()
    }

    /** A socket closes. Whatever is attached to it, one reconnect is scheduled if it was connected, has the handler and
        an attempt is left, and none otherwise. */
    method SocketCloses(i: nat, random: real)
      requires Valid() && i < |adapters|
      modifies adapters[i], reconnectionManager
      ensures Valid() && !adapters[i].connected
      ensures reconnectionManager.currentAttempt == old(reconnectionManager.currentAttempt) +
        if old(CloseSchedules(i)) then 1 else 0
      ensures old(CloseSchedules(i)) <==> old(
        && adapters[i].connected && (exists n :: AutoReconnect(n) in At(adapters[i].handlers, Disconnect))
        && reconnectionManager.enabled
        && (reconnectionManager.maxAttempts == 0
            || reconnectionManager.currentAttempt < reconnectionManager.maxAttempts))
      ensures adapters[i].handlers == old(adapters[i].handlers)
      ensures adapters[i].ws == if old(adapters[i].ws) == None then None else Some(ReadyState.Closed)
      ensures reconnectionManager.Now() ==
        if old(CloseSchedules(i)) then Armed(old(reconnectionManager.Now()))
        else old(reconnectionManager.Now())
      ensures unchanged(reconnectionManager`enabled, reconnectionManager`strategy, reconnectionManager`maxAttempts)
      ensures old(reconnectionManager.WithinLimit()) ==> reconnectionManager.WithinLimit()
      ensures State() == old(State())
    {
      hide InStep, OnlyCallbacks, SubscriptionManager.Valid, AutoHandlers, Armed, HandlesBelowNext;
      ghost var s := State();
      var adapter := adapters[i];
      AutosByBinding(adapter.handlers);
      OneAutoEach(s, adapter);
      assert s.tables[adapter] == adapter.handlers;
      var wasConnected := adapter.Closes();
      if wasConnected {
        EmitDisconnect(adapter, random);
      }
      assert State() == s;
    }

    // ---------- reconnecting ----------

    /** A timer fires: its attempt is in flight, and its `connect` runs up to the await. */
    method TimerFires(timer: nat, factory: Factory) returns (r: ConnectStart)
      requires Valid() && timer in reconnectionManager.live
      modifies reconnectionManager`live, reconnectionManager`flying, this`adapters, connectionManager
      ensures Valid() && reconnectionManager.Now() == Fired(old(reconnectionManager.Now()), timer)
      ensures reconnectionManager.WithinLimit() == old(reconnectionManager.WithinLimit())
      ensures AutosShrink(old(State()), State())
      ensures r == AlreadyConnected <==> old(connectionManager.IsConnected())
      ensures r == AttemptPending <==> old(connectionManager.isConnecting && !connectionManager.IsConnected())
      ensures r == Started || r == Failed ==> Joined(old(adapters), factory) && fresh(connectionManager.socket)
      ensures r == AlreadyConnected || r == AttemptPending ==>
        adapters == old(adapters) && unchanged(connectionManager`socket, connectionManager`isConnecting)
    {
      hide InStep, OnlyCallbacks, AutosShrink;
      reconnectionManager.TimerFires(timer);
      assert State() == old(State());
      r := ConnectCall(factory);
    }

    /** The timer's connect succeeded: the attempts start over, and the map is cleared before the subscriptions are
        requested again. */
    method ReconnectSucceeds(timer: nat)
      requires Valid() && timer in reconnectionManager.flying
      modifies reconnectionManager`currentAttempt, reconnectionManager`scheduled, reconnectionManager`flying,
        subscriptionManager`subscriptions
      ensures Valid() && reconnectionManager.WithinLimit() && reconnectionManager.currentAttempt == 0
      ensures reconnectionManager.Now() == Landed(old(reconnectionManager.Now()), timer)
      ensures subscriptionManager.subscriptions == Empty() && State() == old(State())
    {
      hide InStep, OnlyCallbacks;
      reconnectionManager.ResetAttempts();
      reconnectionManager.AttemptEnds(timer);
      subscriptionManager.Clear();
      assert State() == old(State());
    }

    /** The timer's connect failed: the handler runs again, whether or not the client was disconnected meanwhile. */
    method ReconnectFails(timer: nat, random: real)
      requires Valid() && timer in reconnectionManager.flying
      modifies reconnectionManager
      ensures Valid()
      ensures reconnectionManager.currentAttempt ==
        old(reconnectionManager.currentAttempt) + if old(reconnectionManager.ShouldReconnect()) then 1 else 0
      ensures reconnectionManager.Now() ==
        if old(reconnectionManager.ShouldReconnect()) then Armed(Landed(old(reconnectionManager.Now()), timer))
        else Landed(old(reconnectionManager.Now()), timer)
      ensures unchanged(reconnectionManager`enabled, reconnectionManager`strategy, reconnectionManager`maxAttempts)
      ensures old(reconnectionManager.WithinLimit()) ==> reconnectionManager.WithinLimit()
    {
      hide InStep, OnlyCallbacks;
      reconnectionManager.AttemptEnds(timer);
      AutoReconnectHandlerImpl(random);
      assert State() == old(State());
    }

    method SetReconnectOptions(enabled: bool, strategy: BackoffStrategy, maxAttempts: int)
      requires Valid()
      modifies reconnectionManager`enabled, reconnectionManager`strategy, reconnectionManager`maxAttempts
      ensures Valid() && reconnectionManager.enabled == enabled
      ensures reconnectionManager.strategy == strategy && reconnectionManager.maxAttempts == maxAttempts
    {
      hide InStep, OnlyCallbacks;
      reconnectionManager.SetOptions(enabled, strategy, maxAttempts);
      assert State() == old(State());
    }

    // ---------- subscriptions ----------

    method SubscribeCall(topic: EventTopic, filter: Filter) returns (r: SubscribeResult)
      requires Valid()
      modifies subscriptionManager`subscriptions, subscriptionManager`requests, subscriptionManager`requestIdCounter,
        subscriptionManager.Sockets()`handlers
      ensures Valid()
      ensures Later(old(subscriptionManager.requests), subscriptionManager.requests)
      ensures r.Requested? <==>
        && old(subscriptionManager.socket != null && subscriptionManager.socket.connected)
        && (topic, filter) !in ActivePairs(old(subscriptionManager.subscriptions))
      ensures r == NotConnected <==>
        old(subscriptionManager.socket == null || !subscriptionManager.socket.connected)
      ensures r.Existing? ==>
        && r.id in subscriptionManager.subscriptions.values
        && !subscriptionManager.subscriptions.values[r.id].pending
        && subscriptionManager.subscriptions.values[r.id].topic == topic
        && subscriptionManager.subscriptions.values[r.id].filter == filter
      ensures !r.Requested? ==>
        && subscriptionManager.CurrentState() == old(subscriptionManager.CurrentState())
        && subscriptionManager.requestIdCounter == old(subscriptionManager.requestIdCounter)
      ensures r.Requested? ==>
        && subscriptionManager.subscriptions.values == old(subscriptionManager.subscriptions.values)[
             Pending(topic, r.request) := Subscription(Pending(topic, r.request), topic, filter, true)]
        && r.request !in old(subscriptionManager.requests) && r.request in subscriptionManager.requests
        && r.request == subscriptionManager.requestIdCounter == old(subscriptionManager.requestIdCounter) + 1
        && subscriptionManager.CurrentState() ==
           Asked(old(subscriptionManager.CurrentState()), topic, filter, r.request)
        && subscriptionManager.socket.handlers ==
           Added(old(subscriptionManager.socket.handlers), SubscriptionResponseFor(r.request), SubscribeOnce(r.request))
      ensures AutosShrink(old(State()), State())
    {
      hide InStep, AutosShrink, OnlyCallbacks, Consistent, ActivePairs, Added, Later, Asked, ReconnectionManager.Valid,
        SubscriptionManager.FirstMatch;
      ghost var s := State();
      Known(s);
      LaterItself(s.requests);
      r := subscriptionManager.Subscribe(topic, filter);
      if r.Requested? {
        var a := subscriptionManager.socket;
        LaterAdded(s.requests, r.request, Request(topic, filter, true, false, Waiting));
        RequestAdded(s, r.request, Request(topic, filter, true, false, Waiting), a.handlers);
        assert State() == WithTable(s, a, a.handlers).(
          requests := s.requests[r.request := Request(topic, filter, true, false, Waiting)]);
      } else {
        assert State() == s;
        AutosSame(s, State());
      }
    }

    method SubscribeTimeout(request: nat)
      requires Valid() && request in subscriptionManager.requests && subscriptionManager.requests[request].timer
      modifies subscriptionManager`subscriptions, subscriptionManager`requests
      ensures Valid()
      ensures subscriptionManager.requests[request].outcome == Rejected
      ensures subscriptionManager.CurrentState() == TimedOut(old(subscriptionManager.CurrentState()), request)
      ensures Later(old(subscriptionManager.requests), subscriptionManager.requests)
      ensures AutosShrink(old(State()), State())
    {
      hide InStep, AutosShrink, OnlyCallbacks;
      ghost var s := State();
      ArmedIsWaiting(subscriptionManager.CurrentState(), request);
      subscriptionManager.OnSubscribeTimeout(request);
      RequestsChange(s, subscriptionManager.requests);
      assert State() == s.(requests := subscriptionManager.requests);
    }

    /** An answer reaches at most one handler once, and only if its request has not been answered before. */
    method ResponseArrives(i: nat, response: Response, request: nat) returns (runs: nat)
      requires Valid() && i < |adapters| && response.request == Some(request)
      modifies subscriptionManager`subscriptions, subscriptionManager`requests, Elements(adapters)`handlers
      ensures Valid() && runs == if old(subscriptionManager.Reaches(adapters[i], request)) then 1 else 0
      ensures runs == 1 ==>
        && request in old(subscriptionManager.requests) && !old(subscriptionManager.requests)[request].answered
        && request in subscriptionManager.requests && subscriptionManager.requests[request].answered
        && subscriptionManager.TakesAnswer(old(subscriptionManager.requests)[request], request, response)
        && subscriptionManager.CurrentState() == Answered(old(subscriptionManager.CurrentState()), request, response)
      ensures runs == 0 ==> subscriptionManager.CurrentState() == old(subscriptionManager.CurrentState())
      ensures Later(old(subscriptionManager.requests), subscriptionManager.requests)
      ensures AutosShrink(old(State()), State())
    {
      hide InStep, AutosShrink, OnlyCallbacks, At, LosesOneShot, Answered, TwoTablesDiffer, Later,
        SubscriptionManager.Reaches, SubscriptionManager.TakesAnswer;
      ghost var s := State();
      LaterItself(s.requests);
      var adapter := adapters[i];
      OneShotParts(s, request);
      Known(s);
      ghost var c;
      runs, c := Deliver(adapter, response, request);
      if runs == 1 {
        TwoTablesUpdated(s, State(), adapter, c);
        AnswerConsumed(s, adapter, adapter.handlers, c, c.handlers, request, subscriptionManager.requests[request]);
      } else {
        AutosSame(s, State());
      }
    }

    /** The delivery of an answer as the client's state sees it; `other` is the second socket it may reach. */
    method Deliver(adapter: WebSocketAdapter, response: Response, request: nat)
        returns (runs: nat, ghost other: WebSocketAdapter)
      requires Valid() && adapter in adapters && response.request == Some(request)
      modifies subscriptionManager`subscriptions, subscriptionManager`requests, adapter`handlers,
        subscriptionManager.Sockets()`handlers
      ensures subscriptionManager.Valid() && other in adapters
      ensures runs == if old(subscriptionManager.Reaches(adapter, request)) then 1 else 0
      ensures runs == 0 ==>
        && State() == old(State())
        && subscriptionManager.CurrentState() == old(subscriptionManager.CurrentState())
      ensures runs == 1 ==>
        && request in old(subscriptionManager.requests) && request in subscriptionManager.requests
        && subscriptionManager.requests[request].answered
        && subscriptionManager.TakesAnswer(old(subscriptionManager.requests)[request], request, response)
        && subscriptionManager.CurrentState() == Answered(old(subscriptionManager.CurrentState()), request, response)
        && LosesOneShot(old(adapter.handlers), adapter.handlers, request)
        && LosesOneShot(old(other.handlers), other.handlers, request)
        && (Waits(old(adapter.handlers), request) || Waits(old(other.handlers), request))
        && TwoTablesDiffer(old(State()), State(), adapter, other)
        && Later(old(subscriptionManager.requests), subscriptionManager.requests)
        && subscriptionManager.requests ==
           old(subscriptionManager.requests)[request := subscriptionManager.requests[request]]
    {
      hide InStep, OnlyCallbacks, At, Answered, LosesOneShot, Consistent, Later, ReconnectionManager.Valid,
        SubscriptionManager.Reaches, SubscriptionManager.TakesAnswer;
      ghost var s := State();
      Known(s);
      OneShotParts(s, request);
      other := if subscriptionManager.socket == null then adapter else subscriptionManager.socket;
      assert s.tables[adapter] == adapter.handlers && s.tables[other] == other.handlers;
      runs := subscriptionManager.DeliverResponse(adapter, response, request);
    }

    /** One subscription is requested again on the subscription manager's socket, and its request meets this answer. */
    method RestoreOne(k: nat, topic: EventTopic, filter: Filter, answer: Answer)
      requires Valid() && k < |adapters| && subscriptionManager.socket == adapters[k] && adapters[k].connected
      requires NoMatchingPair(subscriptionManager.subscriptions)
      requires answer.Accepted? ==> Server(answer.id) !in subscriptionManager.subscriptions.values
      modifies subscriptionManager`subscriptions, subscriptionManager`requests, subscriptionManager`requestIdCounter,
        Elements(adapters)`handlers
      ensures Valid() && Later(old(subscriptionManager.requests), subscriptionManager.requests)
      ensures ActivePairs(subscriptionManager.subscriptions) ==
        ActivePairs(old(subscriptionManager.subscriptions)) + if answer.Accepted? then {(topic, filter)} else {}
      ensures NoMatchingPair(subscriptionManager.subscriptions)
      ensures var values := subscriptionManager.subscriptions.values;
              values == old(subscriptionManager.subscriptions.values)
              || (answer.Accepted? && values == old(subscriptionManager.subscriptions.values)[
                    Server(answer.id) := Subscription(Server(answer.id), topic, filter, false)])
    {
      hide Valid, Later, Consistent, ActivePairs, NoMatchingPair, Asked, Answered, TimedOut, Added, At, AutosShrink,
        SubscriptionManager.Reaches, State;
      ghost var before, requests := subscriptionManager.CurrentState(), subscriptionManager.requests;
      IsConsistent();
      LaterItself(requests);
      ghost var handlers := adapters[k].handlers;
      var r := SubscribeCall(topic, filter);
      if !r.Requested? {
        assert ActivePairs(subscriptionManager.subscriptions) ==
          ActivePairs(subscriptionManager.subscriptions) + {(topic, filter)};
        return;
      }
      ghost var asked := subscriptionManager.requests;
      AskedIsWaiting(before, topic, filter, r.request);
      if answer.Unanswered? {
        RejectedValues(before, topic, filter, r.request, Response(false, "", None));
        SubscribeTimeout(r.request);
        SameValuesSamePairs(before.subscriptions, subscriptionManager.subscriptions);
      } else {
        AddedReaches(handlers, r.request, adapters[k]);
        var response := if answer.Accepted? then Response(true, answer.id, Some(r.request))
                        else Response(false, "", Some(r.request));
        var runs := ResponseArrives(k, response, r.request);
        if answer.Accepted? {
          ConfirmedValues(before, topic, filter, r.request, answer.id);
          PairAdded(before.subscriptions, Server(answer.id), topic, filter, subscriptionManager.subscriptions);
        } else {
          RejectedValues(before, topic, filter, r.request, response);
          SameValuesSamePairs(before.subscriptions, subscriptionManager.subscriptions);
        }
      }
      LaterStill(requests, asked, subscriptionManager.requests);
    }

    lemma IsConsistent()
      requires Valid()
      ensures Consistent(subscriptionManager.CurrentState())
    {
    }

    lemma AddedReaches(t: Table, request: nat, a: WebSocketAdapter)
      requires a.handlers == Added(t, SubscriptionResponseFor(request), SubscribeOnce(request))
      ensures subscriptionManager.Reaches(a, request)
    {
    }

    /** What follows a reconnect when nothing interleaves, whatever the server does: each confirmed subscription is
        requested again, the requests meet their answers, and exactly the accepted pairs survive. */
    method ResubscribeAnswered(answers: seq<Answer>) returns (active: seq<Subscription>)
      requires Valid() && subscriptionManager.socket != null && subscriptionManager.socket.connected
      requires DistinctIds(answers) && |answers| >= |subscriptionManager.subscriptions.keys|
      modifies subscriptionManager`subscriptions, subscriptionManager`requests, subscriptionManager`requestIdCounter,
        Elements(adapters)`handlers
      ensures Valid() && |active| <= |answers|
      ensures PairsOf(active) == ActivePairs(old(subscriptionManager.subscriptions))
      ensures ActivePairs(subscriptionManager.subscriptions) == AcceptedPairs(active, answers, |active|)
      ensures NoMatchingPair(subscriptionManager.subscriptions)
      ensures forall id :: id in subscriptionManager.subscriptions.values ==>
        !subscriptionManager.subscriptions.values[id].pending
      ensures Later(old(subscriptionManager.requests), subscriptionManager.requests)
    {
      hide Valid, Later, ActivePairs, NoMatchingPair, AcceptedPairs, PairsOf;
      SocketsListed();
      assert subscriptionManager.socket in subscriptionManager.Sockets();
      var k :| 0 <= k < |adapters| && adapters[k] == subscriptionManager.socket;
      LaterItself(subscriptionManager.requests);
      active := ClearForResubscribing();
      NothingActive();
      NoneAccepted(active, answers);
      for i := 0 to |active|
        invariant Valid() && Later(old(subscriptionManager.requests), subscriptionManager.requests)
        invariant ActivePairs(subscriptionManager.subscriptions) == AcceptedPairs(active, answers, i)
        invariant NoMatchingPair(subscriptionManager.subscriptions)
        invariant forall id :: id in subscriptionManager.subscriptions.values ==>
          && !subscriptionManager.subscriptions.values[id].pending
          && exists j :: 0 <= j < i && answers[j].Accepted? && id == Server(answers[j].id)
      {
        ghost var requests := subscriptionManager.requests;
        RestoreOne(k, active[i].topic, active[i].filter, answers[i]);
        AcceptedPairsSnoc(active, answers, i);
        LaterStill(old(subscriptionManager.requests), requests, subscriptionManager.requests);
      }
    }

    /** The confirmed subscriptions are listed and the map is cleared, pending entries included. */
    method ClearForResubscribing() returns (active: seq<Subscription>)
      requires Valid()
      modifies subscriptionManager`subscriptions
      ensures Valid() && subscriptionManager.subscriptions == Empty()
      ensures PairsOf(active) == ActivePairs(old(subscriptionManager.subscriptions))
      ensures |active| <= |old(subscriptionManager.subscriptions).keys|
    {
      hide InStep, OnlyCallbacks, PairsOf, ActivePairs;
      ghost var places;
      active, places := subscriptionManager.GetActiveSubscriptions();
      subscriptionManager.Clear();
      assert State() == old(State());
    }

    /** A valid client meets what subscribing again asks of the socket. */
    lemma ReadyToResubscribe()
      requires Valid() && subscriptionManager.socket != null
      ensures subscriptionManager.NoEarlyHandlers(subscriptionManager.socket)
    {
      hide InStep, OnlyCallbacks, At, Consistent;
      ghost var s := State();
      Known(s);
      assert s.tables[subscriptionManager.socket] == subscriptionManager.socket.handlers;
      forall r | r > subscriptionManager.requestIdCounter
        ensures At(subscriptionManager.socket.handlers, SubscriptionResponseFor(r)) == {}
      {
        OneShotParts(s, r);
      }
    }

    /** What follows a reconnect when the server confirms each request, over the current socket of the subscription
        manager, before the next one is sent: the invariant holds, and the active pairs are the ones before. */
    method ResubscribeConfirmed(ids: seq<string>)
      requires Valid() && subscriptionManager.socket != null && subscriptionManager.socket.connected
      requires NoDup(ids) && |ids| >= |subscriptionManager.subscriptions.keys|
      modifies subscriptionManager`subscriptions, subscriptionManager`requests, subscriptionManager`requestIdCounter,
        subscriptionManager.Sockets()`handlers
      ensures Valid()
      ensures ActivePairs(subscriptionManager.subscriptions) == ActivePairs(old(subscriptionManager.subscriptions))
      ensures NoMatchingPair(subscriptionManager.subscriptions)
      ensures forall id :: id in subscriptionManager.subscriptions.values ==>
        !subscriptionManager.subscriptions.values[id].pending
      ensures Extends(old(subscriptionManager.requests), subscriptionManager.requests)
    {
      hide InStep, AutosShrink, OnlyCallbacks, SameHandlers, ActivePairs, NoMatchingPair, ReconnectionManager.Valid,
        SameWhereItMatters, SubscriptionManager.NoEarlyHandlers;
      ghost var s := State();
      Known(s);
      ReadyToResubscribe();
      var a := subscriptionManager.socket;
      assert s.tables[a] == a.handlers;
      subscriptionManager.ResubscribeAllConfirmed(ids);
      SameHandlersUnseen(s.tables[a], a.handlers);
      IrrelevantChange(s, a, a.handlers);
      RequestsChange(WithTable(s, a, a.handlers), subscriptionManager.requests);
      assert State() == WithTable(s, a, a.handlers).(requests := subscriptionManager.requests);
    }

    method UnsubscribeCall(id: SubscriptionId) returns (r: UnsubscribeResult)
      requires Valid()
      modifies subscriptionManager`unsubscribeCalls, subscriptionManager.Sockets()`handlers
      ensures Valid() && subscriptionManager.CurrentState() == old(subscriptionManager.CurrentState())
      ensures r.Sent? <==>
        && subscriptionManager.socket != null && subscriptionManager.socket.connected
        && id in subscriptionManager.subscriptions.values
      ensures r.Sent? ==>
        subscriptionManager.socket.handlers ==
        Added(old(subscriptionManager.socket.handlers), UnsubscribeResponseFor(id), UnsubscribeOnce(r.call))
      ensures !r.Sent? && subscriptionManager.socket != null ==>
        subscriptionManager.socket.handlers == old(subscriptionManager.socket.handlers)
      ensures AutosShrink(old(State()), State())
    {
      hide InStep, AutosShrink, OnlyCallbacks, SameWhereItMatters, Added, At, Consistent, SubscriptionManager.Valid,
        ReconnectionManager.Valid;
      ghost var s := State();
      Known(s);
      r := subscriptionManager.Unsubscribe(id);
      if r.Sent? {
        var a := subscriptionManager.socket;
        UnsubscribeOnceUnseen(s.tables[a], id, r.call);
        IrrelevantChange(s, a, a.handlers);
        assert State() == WithTable(s, a, a.handlers);
      } else {
        assert State() == s;
        AutosSame(s, State());
      }
    }

    method UnsubscribeArrives(i: nat, id: SubscriptionId)
      requires Valid() && i < |adapters|
      modifies subscriptionManager`subscriptions, Elements(adapters)`handlers
      ensures Valid()
      ensures subscriptionManager.subscriptions.values ==
        if old(subscriptionManager.ReachesUnsubscribe(adapters[i], id)) then
          old(subscriptionManager.subscriptions.values) - {id}
        else old(subscriptionManager.subscriptions.values)
      ensures AutosShrink(old(State()), State())
    {
      hide InStep, AutosShrink, OnlyCallbacks, At, SubscriptionManager.Valid, ReconnectionManager.Valid,
        SubscriptionManager.ReachesUnsubscribe;
      ghost var s := State();
      var adapter := adapters[i];
      Known(s);
      ghost var other := if subscriptionManager.socket == null then adapter else subscriptionManager.socket;
      assert s.tables[adapter] == adapter.handlers && s.tables[other] == other.handlers;
      subscriptionManager.DeliverUnsubscribed(adapter, id);
      UnsubscribeAnswered(s, State(), adapter, other, id);
    }

    // ---------- runs ----------

    /** Every socket that a manager or the client refers to is one of the adapters. */
    lemma SocketsListed()
      requires Valid()
      ensures forall a :: a in Sockets() || a in subscriptionManager.Sockets() ==> a in adapters
      ensures connectionManager.socket != null ==> connectionManager.socket in adapters
    {
      hide InStep, OnlyCallbacks, SubscriptionManager.Valid, ReconnectionManager.Valid;
      Known(State());
    }

    // ---------- what reconnecting depends on ----------

    ghost function RetryNow(): Retry
      reads this, connectionManager, reconnectionManager, adapters
    {
      Retry(reconnectionManager.Now(), reconnectionManager.enabled, reconnectionManager.maxAttempts,
            reconnectionManager.currentAttempt, AnyStray(),
            connectionManager.socket == null && autoReconnectHandler == None)
    }

    /** No earlier socket comes back to life. */
    twostate predicate LinksShrink()
      reads this, adapters
    {
      forall k | 0 <= k < |adapters| ::
        adapters[k] in old(adapters) && Alive(adapters[k]) ==> (var a := adapters[k]; old(Alive(a)))
    }

    twostate lemma StrayBefore()
      requires AutosShrink(old(State()), State()) && LinksShrink()
      ensures AnyStray() ==> old(AnyStray())
    {
      hide AutoHandlers;
      if k :| 0 <= k < |adapters| && Stray(k) {
        var a := adapters[k];
        assert AutoHandlers(State().tables[a]) <=
          if a in old(State()).tables then AutoHandlers(old(State()).tables[a]) else {};
        assert a in old(adapters);
        var j :| 0 <= j < |old(adapters)| && old(adapters)[j] == a;
        assert old(Stray(j));
      }
    }

    twostate lemma RetriesSame()
      requires unchanged(this, connectionManager, reconnectionManager) && SameLinks()
      requires AutosShrink(old(State()), State())
      ensures SameRetries(old(RetryNow()), RetryNow())
    {
      hide AutosShrink, AutoHandlers;
      StrayBefore();
    }

    // ---------- what each step does ----------

    /** No socket opens, closes or joins; only handler tables may change. */
    twostate predicate SameLinks()
      reads this, adapters
    {
      adapters == old(adapters) && forall a | a in adapters :: unchanged(a`connected, a`ws)
    }

    twostate predicate SameSockets()
      reads this, adapters
    {
      adapters == old(adapters) && forall a | a in adapters :: unchanged(a)
    }

    /** The current socket's handlers change like this, if there is a current socket. */
    twostate predicate ListenersChange(listeners: Table, handlers: Table)
      reads this, connectionManager, subscriptionManager, eventManager, reconnectionManager, adapters
    {
      && unchanged(this, connectionManager, subscriptionManager, reconnectionManager) && SameLinks()
      && eventManager.listeners == listeners
      && (socket != null ==> socket in adapters && socket.handlers == handlers)
    }

    ghost function SocketHandlers(): Table
      reads this`socket, Sockets()`handlers
    {
      if socket == null then map[] else socket.handlers
    }

    /** A step of the connection manager: all the rest but the timers stays. */
    twostate predicate OnlyConnects(factory: Factory)
      reads this, connectionManager, subscriptionManager, eventManager, adapters
    {
      && unchanged(subscriptionManager, eventManager)
      && unchanged(this`socket, this`autoReconnectHandler)
      && |old(adapters)| <= |adapters| && adapters[..|old(adapters)|] == old(adapters)
      && (forall k | 0 <= k < |old(adapters)| :: unchanged(adapters[k]))
      && if old(connectionManager.IsConnected() || connectionManager.isConnecting) then
           adapters == old(adapters) && unchanged(connectionManager`socket, connectionManager`isConnecting)
         else
           && |adapters| == |old(adapters)| + 1
           && var a := adapters[|old(adapters)|];
              && fresh(a) && connectionManager.socket == a && connectionManager.isConnecting == (factory != Throws)
              && !a.connected && a.handlers == ConnectionManager.InitialHandlers()
              && a.ws == if factory == Creates then Some(Connecting) else None
    }

    /** A step of the subscription manager, on its own maps and on handler tables. */
    twostate predicate OnlySubscriptions()
      reads this, connectionManager, subscriptionManager, eventManager, reconnectionManager, adapters
    {
      unchanged(this, connectionManager, eventManager, reconnectionManager, subscriptionManager`socket) && SameLinks()
    }

    /** A step of the reconnection manager, on its counter and timers. */
    twostate predicate OnlyReconnection(timers: Timers)
      reads this, connectionManager, subscriptionManager, eventManager, reconnectionManager, adapters
    {
      && unchanged(this, connectionManager, eventManager)
      && unchanged(reconnectionManager`enabled, reconnectionManager`strategy, reconnectionManager`maxAttempts)
      && reconnectionManager.Now() == timers
    }

    /** What a step on the caller's listeners does, and what it leaves alone. */
    twostate predicate DidListeners(step: Step)
      reads this, connectionManager, subscriptionManager, eventManager, reconnectionManager, adapters
    {
      match step
      case Listen(event, callback) =>
        if event.Topic? || event == Connect || event == Disconnect then
          ListenersChange(Added(old(eventManager.listeners), event, Callback(callback)),
                          Added(old(SocketHandlers()), event, Callback(callback)))
        else ListenersChange(old(eventManager.listeners), old(SocketHandlers()))
      case Unlisten(event, callback) =>
        if event.Topic? || event == Connect || event == Disconnect then
          ListenersChange(ListenerTableWithout(old(eventManager.listeners), event, Callback(callback)),
                          Removed(old(SocketHandlers()), event, Callback(callback)))
        else ListenersChange(old(eventManager.listeners), old(SocketHandlers()))
      case SubscribeFinishes(topic, callback) =>
        ListenersChange(Added(old(eventManager.listeners), Topic(topic), Callback(callback)),
                        Added(old(SocketHandlers()), Topic(topic), Callback(callback)))
      case UnsubscribeFinishes(topic) =>
        && unchanged(this, connectionManager, subscriptionManager, reconnectionManager) && SameLinks()
        && eventManager.listeners == old(eventManager.listeners) - {Topic(topic)}
        && (socket != null ==>
              socket in adapters && forall e ::
                At(socket.handlers, e) == if e == Topic(topic) then {} else old(At(socket.handlers, e)))
      case _ => true
    }

    /** What a step on the connection does, and what it leaves alone. */
    twostate predicate DidConnection(step: Step)
      reads this, connectionManager, subscriptionManager, eventManager, reconnectionManager, adapters
    {
      match step
      case ConnectStarts(factory) => OnlyConnects(factory) && unchanged(reconnectionManager)
      case ConnectTimesOut =>
        && unchanged(this, subscriptionManager, eventManager, reconnectionManager, connectionManager`socket)
        && SameSockets() && !connectionManager.isConnecting
      case ConnectFinishes =>
        && unchanged(connectionManager, eventManager, reconnectionManager, this`adapters) && SameLinks()
        && unchanged(subscriptionManager`subscriptions, subscriptionManager`requests,
                     subscriptionManager`requestIdCounter)
        && socket == connectionManager.socket && (forall a | a in adapters && a != socket :: unchanged(a`handlers))
        && autoReconnectHandler == (if socket != null && autoReconnect then Some(AutoReconnect(old(bindings)))
                                    else old(autoReconnectHandler))
        && (socket != null ==>
              && subscriptionManager.socket == socket && socket in adapters
              && HandlersAttached(old(connectionManager.socket.handlers), socket.handlers, eventManager.listeners,
                                  old(subscriptionManager.setups), old(autoReconnectHandler), autoReconnectHandler))
      case _ => true
    }

    /** What the opening or closing of a socket or a disconnect does, and what it leaves alone. */
    twostate predicate DidSockets(step: Step)
      reads this, connectionManager, subscriptionManager, eventManager, reconnectionManager, adapters
    {
      match step
      case Disconnects =>
        && unchanged(subscriptionManager, eventManager, this`socket, this`adapters, connectionManager`isConnecting)
        && connectionManager.socket == null && autoReconnectHandler == None
        && (AnyStray() <==> old(OtherStray()))
        && (forall a | a in adapters :: unchanged(a`connected) && (a != socket ==> unchanged(a`handlers)))
        && (socket != null ==>
              socket in adapters && forall e ::
                At(socket.handlers, e) ==
                old(At(socket.handlers, e)) - (if e == Disconnect then Only(old(autoReconnectHandler)) else {}))
        && (forall a | a in adapters :: a.ws == if a == old(connectionManager.socket) then None else old(a.ws))
        && reconnectionManager.Now() == Cancelled(old(reconnectionManager.Now()))
        && unchanged(reconnectionManager`enabled, reconnectionManager`strategy, reconnectionManager`maxAttempts,
                     reconnectionManager`currentAttempt)
      case SocketOpens(i) =>
        && unchanged(this, subscriptionManager, eventManager, reconnectionManager, connectionManager`socket)
        && (forall k | 0 <= k < |adapters| && (i < |adapters| ==> adapters[k] != adapters[i]) :: unchanged(adapters[k]))
        && if i < |adapters| && old(adapters[i].ws) == Some(Connecting) then
             && adapters[i].connected && adapters[i].ws == Some(Open)
             && adapters[i].handlers == Removed(old(adapters[i].handlers), Connect, ConnectOnce)
             && connectionManager.isConnecting ==
                (old(connectionManager.isConnecting) && ConnectOnce !in At(old(adapters[i].handlers), Connect))
           else
             unchanged(connectionManager`isConnecting) && SameSockets()
      case SocketCloses(i, random) =>
        && OnlyReconnection(
             if i < |old(adapters)| && old(CloseSchedules(i)) then Armed(old(reconnectionManager.Now()))
             else old(reconnectionManager.Now()))
        && unchanged(subscriptionManager)
        && (forall k | 0 <= k < |adapters| && (i < |adapters| ==> adapters[k] != adapters[i]) :: unchanged(adapters[k]))
        && (i < |adapters| ==>
              && !adapters[i].connected && adapters[i].handlers == old(adapters[i].handlers)
              && adapters[i].ws == if old(adapters[i].ws) == None then None else Some(ReadyState.Closed))
        && reconnectionManager.currentAttempt ==
           old(reconnectionManager.currentAttempt) + if i < |old(adapters)| && old(CloseSchedules(i)) then 1 else 0
      case _ => true
    }

    /** What a step on subscriptions does, and what it leaves alone. */
    twostate predicate DidSubscriptions(step: Step, effect: Effect)
      requires old(subscriptionManager.subscriptions.Valid())
      reads this, connectionManager, subscriptionManager, eventManager, reconnectionManager, adapters
    {
      match step
      case SubscribeStarts(topic, filter) =>
        && OnlySubscriptions()
        && if old(subscriptionManager.socket != null && subscriptionManager.socket.connected)
              && (topic, filter) !in ActivePairs(old(subscriptionManager.subscriptions)) then
             && subscriptionManager.requestIdCounter == old(subscriptionManager.requestIdCounter) + 1
             && effect == Issued(subscriptionManager.requestIdCounter)
             && subscriptionManager.CurrentState() ==
                Asked(old(subscriptionManager.CurrentState()), topic, filter, effect.request)
             && subscriptionManager.subscriptions.values == old(subscriptionManager.subscriptions.values)[
                  Pending(topic, effect.request) :=
                    Subscription(Pending(topic, effect.request), topic, filter, true)]
             && subscriptionManager.socket in adapters
             && subscriptionManager.socket.handlers ==
                Added(old(subscriptionManager.socket.handlers), SubscriptionResponseFor(effect.request),
                      SubscribeOnce(effect.request))
           else
             && effect == Nothing && unchanged(subscriptionManager`requestIdCounter)
             && subscriptionManager.CurrentState() == old(subscriptionManager.CurrentState())
      case SubscribeTimesOut(request) =>
        && OnlySubscriptions() && SameSockets() && unchanged(subscriptionManager`requestIdCounter)
        && subscriptionManager.CurrentState() ==
           if request in old(subscriptionManager.requests) && old(subscriptionManager.requests)[request].timer then
             TimedOut(old(subscriptionManager.CurrentState()), request)
           else old(subscriptionManager.CurrentState())
      case ResponseArrives(i, response) =>
        && OnlySubscriptions() && unchanged(subscriptionManager`requestIdCounter)
        && if i < |adapters| && response.request.Some?
              && old(subscriptionManager.Reaches(adapters[i], response.request.value))
              && response.request.value in old(subscriptionManager.requests) then
             && effect == Consumed(response.request.value)
             && subscriptionManager.TakesAnswer(old(subscriptionManager.requests)[response.request.value],
                                                response.request.value, response)
             && subscriptionManager.CurrentState() ==
                Answered(old(subscriptionManager.CurrentState()), response.request.value, response)
           else
             effect == Nothing && subscriptionManager.CurrentState() == old(subscriptionManager.CurrentState())
      case _ => true
    }

    /** What a step of an unsubscribe does, and what it leaves alone. */
    twostate predicate DidUnsubscribing(step: Step)
      reads this, connectionManager, subscriptionManager, eventManager, reconnectionManager, adapters
    {
      match step
      case UnsubscribeStarts(id) =>
        && OnlySubscriptions() && subscriptionManager.CurrentState() == old(subscriptionManager.CurrentState())
        && (subscriptionManager.socket != null ==>
              && subscriptionManager.socket in adapters
              && if subscriptionManager.socket.connected && id in subscriptionManager.subscriptions.values then
                   exists n ::
                     subscriptionManager.socket.handlers ==
                     Added(old(subscriptionManager.socket.handlers), UnsubscribeResponseFor(id), UnsubscribeOnce(n))
                 else unchanged(subscriptionManager.socket`handlers))
      case UnsubscribeArrives(i, id) =>
        && OnlySubscriptions() && unchanged(subscriptionManager`requests, subscriptionManager`requestIdCounter)
        && subscriptionManager.subscriptions.values ==
           if i < |adapters| && old(subscriptionManager.ReachesUnsubscribe(adapters[i], id)) then
             old(subscriptionManager.subscriptions.values) - {id}
           else old(subscriptionManager.subscriptions.values)
      case _ => true
    }

    /** What a step on reconnecting does, and what it leaves alone. */
    twostate predicate DidReconnection(step: Step)
      reads this, connectionManager, subscriptionManager, eventManager, reconnectionManager, adapters
    {
      match step
      case ReconnectTimerFires(timer, factory) =>
        && unchanged(reconnectionManager`enabled, reconnectionManager`strategy, reconnectionManager`maxAttempts,
                     reconnectionManager`currentAttempt)
        && if timer in old(reconnectionManager.live) then
             OnlyConnects(factory) && reconnectionManager.Now() == Fired(old(reconnectionManager.Now()), timer)
           else
             && unchanged(this, connectionManager, subscriptionManager, eventManager) && SameSockets()
             && reconnectionManager.Now() == old(reconnectionManager.Now())
      case ReconnectSucceeds(timer) =>
        && SameSockets() && unchanged(subscriptionManager`socket, subscriptionManager`requestIdCounter)
        && if timer in old(reconnectionManager.flying) then
             && OnlyReconnection(Landed(old(reconnectionManager.Now()), timer))
             && reconnectionManager.currentAttempt == 0
             && subscriptionManager.CurrentState() ==
                SubscriptionManagers.State(Empty(), old(subscriptionManager.requests))
           else
             && OnlyReconnection(old(reconnectionManager.Now())) && unchanged(reconnectionManager`currentAttempt)
             && subscriptionManager.CurrentState() == old(subscriptionManager.CurrentState())
      case ReconnectFails(timer, random) =>
        && unchanged(subscriptionManager) && SameSockets()
        && var schedules := timer in old(reconnectionManager.flying) && old(reconnectionManager.ShouldReconnect());
           && OnlyReconnection(
                if schedules then Armed(Landed(old(reconnectionManager.Now()), timer))
                else if timer in old(reconnectionManager.flying) then Landed(old(reconnectionManager.Now()), timer)
                else old(reconnectionManager.Now()))
           && reconnectionManager.currentAttempt ==
              old(reconnectionManager.currentAttempt) + if schedules then 1 else 0
      case SetOptions(enabled, strategy, maxAttempts) =>
        && unchanged(this, connectionManager, subscriptionManager, eventManager) && SameSockets()
        && reconnectionManager.Now() == old(reconnectionManager.Now()) && unchanged(reconnectionManager`currentAttempt)
        && reconnectionManager.enabled == enabled && reconnectionManager.strategy == strategy
        && reconnectionManager.maxAttempts == maxAttempts
      case _ => true
    }

    twostate predicate Did(step: Step, effect: Effect)
      requires old(subscriptionManager.subscriptions.Valid())
      reads this, connectionManager, subscriptionManager, eventManager, reconnectionManager, adapters
    {
      if OnListeners(step) then DidListeners(step)
      else if OnConnection(step) then DidConnection(step)
      else if OnSockets(step) then DidSockets(step)
      else if OnSubscriptions(step) then DidSubscriptions(step, effect)
      else if OnUnsubscribing(step) then DidUnsubscribing(step)
      else DidReconnection(step)
    }

    /** What every step keeps. */
    twostate predicate Kept(step: Step, effect: Effect)
      reads this, connectionManager, subscriptionManager, eventManager, reconnectionManager, adapters
    {
      && Valid() && (forall k :: 0 <= k < |adapters| ==> adapters[k] in old(adapters) || fresh(adapters[k]))
      && Later(old(subscriptionManager.requests), subscriptionManager.requests)
      && (effect.Issued? ==>
            effect.request !in old(subscriptionManager.requests) && effect.request in subscriptionManager.requests)
      && (effect.Consumed? ==>
            && effect.request in old(subscriptionManager.requests)
            && !old(subscriptionManager.requests)[effect.request].answered
            && effect.request in subscriptionManager.requests && subscriptionManager.requests[effect.request].answered)
      && (old(reconnectionManager.WithinLimit()) && !step.SetOptions? ==> reconnectionManager.WithinLimit())
      && TimersFollow(step, old(reconnectionManager.Now()), reconnectionManager.Now())
      && (AutosShrink(old(State()), State())
          || (step.ConnectFinishes? && autoReconnect && connectionManager.socket != null))
    }

    method PerformListeners(step: Step) returns (effect: Effect)
      requires Valid() && OnListeners(step)
      modifies this, connectionManager, subscriptionManager, eventManager, reconnectionManager, adapters
      ensures Kept(step, effect) && DidListeners(step)
      ensures RetryFollows(step, old(RetryNow()), RetryNow())
    {
      hide Valid, AutosShrink, SameRetries, TimersFollow, Later, ReconnectionManager.WithinLimit, Added, Removed, At;
      SocketsListed();
      HandlesInOrder();
      AutosSame(State(), State());
      effect := Nothing;
      match step {
      case Listen(event, callback) =>
        if UserEvent(event) {
          On(event, Callback(callback));
        }
      case Unlisten(event, callback) =>
        if UserEvent(event) {
          Off(event, Callback(callback));
        }
      case SubscribeFinishes(topic, callback) => FinishSubscribe(topic, Callback(callback));
      case UnsubscribeFinishes(topic) => FinishUnsubscribe(topic);
      }
      RetriesSame();
      TimersFromRetry(step, old(RetryNow()), RetryNow());
    }

    twostate lemma ConnectionRetry(step: Step)
      requires OnConnection(step) && DidConnection(step)
        && (AutosShrink(old(State()), State()) || (step.ConnectFinishes? && connectionManager.socket != null))
      ensures RetryFollows(step, old(RetryNow()), RetryNow())
    {
      hide AutosShrink, AutoHandlers, Added, Removed, At;
      if old(RetryNow()).free {
        StrayBefore();
      }
    }

    method PerformConnection(step: Step) returns (effect: Effect)
      requires Valid() && OnConnection(step)
      modifies this, connectionManager, subscriptionManager, eventManager, reconnectionManager, adapters
      ensures Kept(step, effect) && DidConnection(step)
      ensures RetryFollows(step, old(RetryNow()), RetryNow())
    {
      hide Valid, AutosShrink, RetryFollows, TimersFollow, HandlesBelowNext, Later, ReconnectionManager.WithinLimit,
        Added, Removed, At, HandlersAttached;
      SocketsListed();
      HandlesInOrder();
      AutosSame(State(), State());
      effect := Nothing;
      match step {
      case ConnectStarts(factory) => var started := ConnectCall(factory);
      case ConnectTimesOut => ConnectTimeout();
      case ConnectFinishes => FinishConnect();
      }
      ConnectionRetry(step);
      TimersFromRetry(step, old(RetryNow()), RetryNow());
    }

    twostate lemma SocketsRetry(step: Step)
      requires OnSockets(step) && DidSockets(step) && AutosShrink(old(State()), State())
      ensures RetryFollows(step, old(RetryNow()), RetryNow())
    {
      hide AutosShrink, AutoHandlers, Added, Removed, At;
      if step.SocketCloses? && step.socket < |old(adapters)| {
        assert old(CloseSchedules(step.socket)) ==> old(Stray(step.socket));
      }
      if old(RetryNow()).free {
        StrayBefore();
      }
    }

    method PerformSockets(step: Step) returns (effect: Effect)
      requires Valid() && OnSockets(step)
      modifies this, connectionManager, subscriptionManager, eventManager, reconnectionManager, adapters
      ensures Kept(step, effect) && DidSockets(step)
      ensures RetryFollows(step, old(RetryNow()), RetryNow())
    {
      hide Valid, AutosShrink, RetryFollows, TimersFollow, HandlesBelowNext, Later, ReconnectionManager.WithinLimit,
        Added, Removed, At, AutoHandlers, Only, AnyStray, OtherStray, CloseSchedules;
      SocketsListed();
      HandlesInOrder();
      AutosSame(State(), State());
      effect := Nothing;
      match step {
      case Disconnects => DisconnectCall();
      case SocketOpens(i) =>
        if i < |adapters| && adapters[i].ws == Some(Connecting) {
          var run := SocketOpens(i);
        }
      case SocketCloses(i, random) =>
        if i < |adapters| {
          SocketCloses(i, random);
        }
      }
      SocketsRetry(step);
      TimersFromRetry(step, old(RetryNow()), RetryNow());
    }

    twostate lemma SubscriptionsRetry(step: Step)
      requires (OnSubscriptions(step) || OnUnsubscribing(step))
        && OnlySubscriptions() && AutosShrink(old(State()), State())
      ensures RetryFollows(step, old(RetryNow()), RetryNow())
    {
      hide AutosShrink, SameRetries;
      RetriesSame();
    }

    method PerformSubscriptions(step: Step) returns (effect: Effect)
      requires Valid() && OnSubscriptions(step)
      modifies this, connectionManager, subscriptionManager, eventManager, reconnectionManager, adapters
      ensures Kept(step, effect) && DidSubscriptions(step, effect)
      ensures RetryFollows(step, old(RetryNow()), RetryNow())
    {
      hide Valid, AutosShrink, RetryFollows, TimersFollow, HandlesBelowNext, AutoHandlers, LosesOneShot, Asked,
        TimedOut, Answered, Added, At, ActivePairs, Later, ReconnectionManager.WithinLimit,
        SubscriptionManager.Reaches, SubscriptionManager.ReachesUnsubscribe, SubscriptionManager.TakesAnswer;
      SocketsListed();
      HandlesInOrder();
      AutosSame(State(), State());
      effect := Nothing;
      match step {
      case SubscribeStarts(topic, filter) =>
        var r := SubscribeCall(topic, filter);
        if r.Requested? {
          effect := Issued(r.request);
        }
      case SubscribeTimesOut(request) =>
        if request in subscriptionManager.requests && subscriptionManager.requests[request].timer {
          SubscribeTimeout(request);
        }
      case ResponseArrives(i, response) =>
        if i < |adapters| && response.request.Some? {
          var runs := ResponseArrives(i, response, response.request.value);
          if runs == 1 {
            effect := Consumed(response.request.value);
          }
        }
      }
      SubscriptionsRetry(step);
      TimersFromRetry(step, old(RetryNow()), RetryNow());
    }

    method PerformUnsubscribing(step: Step) returns (effect: Effect)
      requires Valid() && OnUnsubscribing(step)
      modifies this, connectionManager, subscriptionManager, eventManager, reconnectionManager, adapters
      ensures Kept(step, effect) && DidUnsubscribing(step)
      ensures RetryFollows(step, old(RetryNow()), RetryNow())
    {
      hide Valid, AutosShrink, RetryFollows, TimersFollow, HandlesBelowNext, AutoHandlers, LosesOneShot, Asked,
        TimedOut, Answered, Added, At, ActivePairs, Later, ReconnectionManager.WithinLimit,
        SubscriptionManager.Reaches, SubscriptionManager.ReachesUnsubscribe;
      SocketsListed();
      HandlesInOrder();
      AutosSame(State(), State());
      effect := Nothing;
      match step {
      case UnsubscribeStarts(id) => var sent := UnsubscribeCall(id);
      case UnsubscribeArrives(i, id) =>
        if i < |adapters| {
          UnsubscribeArrives(i, id);
        }
      }
      SubscriptionsRetry(step);
      TimersFromRetry(step, old(RetryNow()), RetryNow());
    }

    twostate lemma ReconnectionRetry(step: Step)
      requires OnReconnection(step) && DidReconnection(step) && AutosShrink(old(State()), State())
      ensures RetryFollows(step, old(RetryNow()), RetryNow())
    {
      hide AutosShrink, AutoHandlers, Added, Removed, At;
      if old(RetryNow()).free {
        StrayBefore();
      }
    }

    method PerformReconnection(step: Step) returns (effect: Effect)
      requires Valid() && OnReconnection(step)
      modifies this, connectionManager, subscriptionManager, eventManager, reconnectionManager, adapters
      ensures Kept(step, effect) && DidReconnection(step)
      ensures RetryFollows(step, old(RetryNow()), RetryNow())
    {
      hide Valid, AutosShrink, RetryFollows, TimersFollow, HandlesBelowNext, Later, ReconnectionManager.WithinLimit,
        Added, Removed, At;
      SocketsListed();
      HandlesInOrder();
      AutosSame(State(), State());
      effect := Nothing;
      match step {
      case ReconnectTimerFires(timer, factory) =>
        if timer in reconnectionManager.live {
          var started := TimerFires(timer, factory);
        }
      case ReconnectSucceeds(timer) =>
        if timer in reconnectionManager.flying {
          ReconnectSucceeds(timer);
        }
      case ReconnectFails(timer, random) =>
        if timer in reconnectionManager.flying {
          ReconnectFails(timer, random);
        }
      case SetOptions(enabled, strategy, maxAttempts) => SetReconnectOptions(enabled, strategy, maxAttempts);
      }
      ReconnectionRetry(step);
      TimersFromRetry(step, old(RetryNow()), RetryNow());
    }

    /** The current socket has the client's reconnect handler. */
    lemma CurrentHasAuto()
      requires Valid() && socket != null && autoReconnectHandler.Some?
      ensures AutoHandlers(socket.handlers) == {autoReconnectHandler.value}
    {
      hide InStep, OnlyCallbacks, AutoHandlers, SubscriptionManager.Valid, ReconnectionManager.Valid;
      ghost var s := State();
      Known(s);
      ListenersOfCurrent(s);
      assert s.tables[socket] == socket.handlers;
    }

    /** One step, or nothing when the step is not possible in the current state. */
    method Perform(step: Step) returns (effect: Effect)
      requires Valid()
      modifies this, connectionManager, subscriptionManager, eventManager, reconnectionManager, adapters
      ensures Kept(step, effect) && Did(step, effect)
      ensures RetryFollows(step, old(RetryNow()), RetryNow())
    {
      hide Valid, Kept, RetryFollows, DidListeners, DidConnection, DidSockets, DidSubscriptions, DidUnsubscribing,
        DidReconnection;
      if OnListeners(step) {
        effect := PerformListeners(step);
      } else if OnConnection(step) {
        effect := PerformConnection(step);
      } else if OnSockets(step) {
        effect := PerformSockets(step);
      } else if OnSubscriptions(step) {
        effect := PerformSubscriptions(step);
      } else if OnUnsubscribing(step) {
        effect := PerformUnsubscribing(step);
      } else {
        effect := PerformReconnection(step);
      }
    }

    /** What each step does accounts for the promises that settle and the entries that are confirmed. */
    twostate lemma StepAccounts(step: Step, new effect: Effect)
      requires old(subscriptionManager.subscriptions.Valid())
      requires Did(step, effect)
      requires effect.Issued? ==> effect.request !in old(subscriptionManager.requests)
      ensures Accounts(step, old(subscriptionManager.CurrentState()), subscriptionManager.CurrentState())
    {
      hide Accounts, Answered, TimedOut, HandlersAttached, ActivePairs, Added, Removed, At, Consistent, AutoHandlers,
        SubscriptionManager.TakesAnswer, SubscriptionManager.Reaches, SubscriptionManager.ReachesUnsubscribe;
      var s, s' := old(subscriptionManager.CurrentState()), subscriptionManager.CurrentState();
      if s' != s && step.ResponseArrives? {
        AccountsAnswer(step, s, step.response.request.value);
      } else if s' != s && step.SubscribeTimesOut? {
        AccountsTimeout(s, step.request);
      } else {
        AccountsQuiet(step, s, s');
      }
    }

    method PerformAccounted(step: Step) returns (effect: Effect)
      requires Valid()
      modifies this, connectionManager, subscriptionManager, eventManager, reconnectionManager, adapters
      ensures Kept(step, effect) && RetryFollows(step, old(RetryNow()), RetryNow())
      ensures Accounts(step, old(subscriptionManager.CurrentState()), subscriptionManager.CurrentState())
    {
      hide Valid, Did, RetryFollows, Accounts, TimersFollow, Later, AutosShrink, ReconnectionManager.WithinLimit;
      MapIsValid();
      effect := Perform(step);
      StepAccounts(step, effect);
    }

    /** What holds between any two steps. */
    ghost predicate Reliable()
      reads this, subscriptionManager, eventManager, adapters
    {
      && (socket != null ==> socket in adapters && SameListeners(socket.handlers, eventManager.listeners))
      && forall id :: id in subscriptionManager.subscriptions.values ==>
           && subscriptionManager.subscriptions.values[id].id == id
           && (id.Pending? ==>
                 && id.request in subscriptionManager.requests
                 && !subscriptionManager.requests[id.request].answered
                 && subscriptionManager.requests[id.request].outcome == Waiting)
    }

    lemma ValidIsReliable()
      requires Valid()
      ensures Reliable()
    {
      hide InStep, OnlyCallbacks, ReconnectionManager.Valid, SameListeners;
      ghost var s := State();
      Known(s);
      if socket != null {
        ListenersOfCurrent(s);
        assert s.tables[socket] == socket.handlers;
      }
    }

    lemma MapIsValid()
      requires Valid()
      ensures subscriptionManager.subscriptions.Valid()
    {
    }

    lemma HandlesInOrder()
      requires Valid()
      ensures HandlesBelowNext(reconnectionManager.Now())
        && Later(subscriptionManager.requests, subscriptionManager.requests)
    {
      hide InStep, OnlyCallbacks, HandlesBelowNext;
      LaterItself(subscriptionManager.requests);
    }

    lemma NoAutosNoStray()
      ensures NoAutos(State()) ==> !RetryNow().stray
    {
      hide AutoHandlers;
      forall k | 0 <= k < |adapters| ensures NoAutos(State()) ==> !Stray(k) {
        assert adapters[k] in State().tables && State().tables[adapters[k]] == adapters[k].handlers;
      }
    }

    /** Every run: whatever steps come in whatever order, the current socket serves exactly the registered listeners,
        a pending entry waits for an open request, no request id is issued twice, no request is answered twice, and
        unless the options change there are never more attempts than the limit. */
    method Run(steps: seq<Step>)
        returns (issued: seq<nat>, consumed: seq<nat>, ghost timers: seq<Timers>,
                 ghost retries: seq<Retry>)
      requires Valid()
      modifies this, connectionManager, subscriptionManager, eventManager, reconnectionManager, adapters
      ensures Valid() && Reliable()
      ensures NoDup(issued) && forall r :: r in issued ==> r !in old(subscriptionManager.requests)
      ensures NoDup(consumed) && forall r :: r in consumed ==>
        r in subscriptionManager.requests && subscriptionManager.requests[r].answered
        && (r in old(subscriptionManager.requests) ==> !old(subscriptionManager.requests)[r].answered)
      ensures Later(old(subscriptionManager.requests), subscriptionManager.requests)
      ensures AccountsOfRun(steps, old(subscriptionManager.CurrentState()), subscriptionManager.CurrentState())
      ensures old(reconnectionManager.WithinLimit()) && (forall step :: step in steps ==> !step.SetOptions?) ==>
        reconnectionManager.WithinLimit()
      ensures TimersOfRun(steps, timers)
      ensures timers[0] == old(reconnectionManager.Now()) && timers[|steps|] == reconnectionManager.Now()
      ensures old(reconnectionManager.live) == {} ==>
        ((forall i :: 0 <= i <= |steps| ==> Cancelled(timers[i]).live == {}) <==> !Overlaps(timers))
      ensures RetriesOfRun(steps, retries)
      ensures retries[0] == old(RetryNow()) && retries[|steps|] == RetryNow()
      ensures !autoReconnect && old(NoAutos(State())) ==> forall i :: 0 <= i <= |steps| ==> !retries[i].stray
    {
      hide Valid, Reliable, ReconnectionManager.WithinLimit, Did, TimersFollow, HandlesBelowNext, RetryFollows,
        AutosShrink, NoAutos, Accounts, AccountsOfRun, TimersOfRun, RetriesOfRun, Overlaps;
      HandlesInOrder();
      NothingAccounted(subscriptionManager.CurrentState());
      NothingRun(RetryNow());
      issued, consumed, timers, retries := [], [], [reconnectionManager.Now()], [RetryNow()];
      NoAutosNoStray();
      for i := 0 to |steps|
        invariant Valid() && forall k :: 0 <= k < |adapters| ==> adapters[k] in old(adapters) || fresh(adapters[k])
        invariant Later(old(subscriptionManager.requests), subscriptionManager.requests)
        invariant NoDup(issued)
        invariant forall r :: r in issued ==>
          r !in old(subscriptionManager.requests) && r in subscriptionManager.requests
        invariant NoDup(consumed)
        invariant forall r :: r in consumed ==>
          r in subscriptionManager.requests && subscriptionManager.requests[r].answered
          && (r in old(subscriptionManager.requests) ==> !old(subscriptionManager.requests)[r].answered)
        invariant old(reconnectionManager.WithinLimit()) && (forall step :: step in steps ==> !step.SetOptions?) ==>
          reconnectionManager.WithinLimit()
        invariant AccountsOfRun(steps[..i], old(subscriptionManager.CurrentState()), subscriptionManager.CurrentState())
        invariant |timers| == |retries| == i + 1
        invariant TimersOfRun(steps[..i], timers)
        invariant RetriesOfRun(steps[..i], retries)
        invariant retries[0] == old(RetryNow()) && retries[i] == RetryNow()
        invariant !autoReconnect && old(NoAutos(State())) ==>
          NoAutos(State()) && forall j :: 0 <= j <= i ==> !retries[j].stray
        invariant timers[0] == old(reconnectionManager.Now()) && timers[i] == reconnectionManager.Now()
      {
        ghost var before, s := subscriptionManager.requests, State();
        ghost var state := subscriptionManager.CurrentState();
        var effect := PerformAccounted(steps[i]);
        AccountsGrow(steps, i, old(subscriptionManager.CurrentState()), state, subscriptionManager.CurrentState());
        LaterStill(old(subscriptionManager.requests), before, subscriptionManager.requests);
        if !autoReconnect && NoAutos(s) {
          NoAutosStay(s, State());
        }
        NoAutosNoStray();
        RetriesGrow(steps[..i], retries, steps[i], RetryNow());
        assert steps[..i + 1] == steps[..i] + [steps[i]];
        retries := retries + [RetryNow()];
        TimersGrow(steps, i, timers, reconnectionManager.Now());
        timers := timers + [reconnectionManager.Now()];
        match effect
        case Nothing =>
        case Issued(request) => issued := issued + [request];
        case Consumed(request) => consumed := consumed + [request];
      }
      ValidIsReliable();
      assert steps[..|steps|] == steps;
      if old(reconnectionManager.live) == {} {
        DisconnectsLeaveNothingIff(steps, timers);
      }
    }
  }
}
