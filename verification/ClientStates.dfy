/** The part of the client's state that its managers share, as one value, and what every step keeps of it. */
module ClientStates {
  import opened Prelude
  import opened WebSocketTypes
  import opened WsAdapters
  import opened ConnectionManagers
  import opened SubscriptionManagers

  /** `tables` has the handler table of every adapter made so far. `current` is the client's socket, `connecting` the
      connection manager's, `subscriber` the subscription manager's; they often are the same object, and often not. */
  datatype ClientState = ClientState(
    tables: map<WebSocketAdapter, Table>,
    current: WebSocketAdapter?,
    connecting: WebSocketAdapter?,
    subscriber: WebSocketAdapter?,
    listeners: Table,
    auto: Option<Handler>,
    requests: map<nat, Request>)

  // ---------- the invariant ----------

  /** The handlers that schedule a reconnect. */
  function AutoHandlers(t: Table): set<Handler> {
    set h | h in At(t, Disconnect) && h.AutoReconnect?
  }

  ghost function Only(h: Option<Handler>): set<Handler> {
    if h.Some? then {h.value} else {}
  }

  /** The events a caller may name. */
  predicate UserEvent(e: Event) {
    e.Topic? || e == Connect || e == Disconnect
  }

  /** What serves the caller on an event: on a topic every handler, on the other two the callbacks among the client's
      own handlers. */
  ghost function Served(t: Table, e: Event): set<Handler> {
    if e.Topic? then At(t, e) else set h | h in At(t, e) && h.Callback?
  }

  /** On every event that a caller may name, the table serves exactly these listeners. */
  ghost predicate SameListeners(t: Table, listeners: Table) {
    forall e | UserEvent(e) :: Served(t, e) == At(listeners, e)
  }

  ghost predicate NoListeners(t: Table) {
    forall e | UserEvent(e) :: Served(t, e) == {}
  }

  ghost predicate SocketsKnown(s: ClientState) {
    && (s.current != null ==> s.current in s.tables && s.subscriber == s.current)
    && (s.connecting != null ==> s.connecting in s.tables)
    && (s.subscriber != null ==> s.subscriber in s.tables)
  }

  /** The current socket agrees with the event manager on every topic; a connecting one has no topic handlers yet. */
  ghost predicate ListenersAgree(s: ClientState)
    requires SocketsKnown(s)
  {
    && (s.current != null ==> SameListeners(s.tables[s.current], s.listeners))
    && (s.connecting != null && s.connecting != s.current ==> NoListeners(s.tables[s.connecting]))
  }

  /** The current socket has exactly the client's own reconnect handler, a connecting one none, no socket two. */
  ghost predicate AutoAgrees(s: ClientState)
    requires SocketsKnown(s)
  {
    && (s.auto.Some? ==> s.auto.value.AutoReconnect?)
    && (s.current != null ==> AutoHandlers(s.tables[s.current]) == Only(s.auto))
    && (s.connecting != null && s.connecting != s.current ==> AutoHandlers(s.tables[s.connecting]) == {})
    && (forall a, h, h' :: a in s.tables && h in AutoHandlers(s.tables[a]) && h' in AutoHandlers(s.tables[a]) ==>
          h == h')
  }

  ghost predicate Waits(t: Table, request: nat) {
    SubscribeOnce(request) in At(t, SubscriptionResponseFor(request))
  }

  /** A one-shot event has its request's handler only, for a request that is not answered, on one socket at most. */
  ghost predicate OneShots(s: ClientState) {
    && (forall a, r :: a in s.tables ==> At(s.tables[a], SubscriptionResponseFor(r)) <= {SubscribeOnce(r)})
    && (forall a, r :: a in s.tables && Waits(s.tables[a], r) ==> r in s.requests && !s.requests[r].answered)
    && (forall a, b, r :: a in s.tables && b in s.tables && Waits(s.tables[a], r) && Waits(s.tables[b], r) ==> a == b)
  }

  ghost predicate InStep(s: ClientState) {
    SocketsKnown(s) && ListenersAgree(s) && AutoAgrees(s) && OneShots(s)
  }

  // ---------- what the steps keep ----------

  /** Two tables that the invariant cannot tell apart. */
  ghost predicate SameWhereItMatters(t: Table, t': Table) {
    && (forall e | UserEvent(e) :: Served(t, e) == Served(t', e))
    && AutoHandlers(t) == AutoHandlers(t')
    && forall r :: At(t, SubscriptionResponseFor(r)) == At(t', SubscriptionResponseFor(r))
  }

  ghost function WithTable(s: ClientState, a: WebSocketAdapter, t: Table): ClientState {
    s.(tables := s.tables[a := t])
  }

  /** One-shot events that only lose handlers keep their part of the invariant. */
  lemma OneShotsShrink(s: ClientState, a: WebSocketAdapter, t: Table)
    requires OneShots(s) && a in s.tables
    requires forall r :: At(t, SubscriptionResponseFor(r)) <= At(s.tables[a], SubscriptionResponseFor(r))
    ensures OneShots(WithTable(s, a, t))
  {
    hide At, Served;
    var s' := WithTable(s, a, t);
    forall b, r | b in s'.tables
      ensures At(s'.tables[b], SubscriptionResponseFor(r)) <= At(s.tables[b], SubscriptionResponseFor(r))
    {
    }
    forall b, r | b in s'.tables && Waits(s'.tables[b], r) ensures Waits(s.tables[b], r) {
    }
  }

  /** No socket gains a handler that schedules a reconnect; a new one has none. */
  ghost predicate AutosShrink(s: ClientState, s': ClientState) {
    forall a | a in s'.tables :: AutoHandlers(s'.tables[a]) <= if a in s.tables then AutoHandlers(s.tables[a]) else {}
  }

  ghost predicate NoAutos(s: ClientState) {
    forall a | a in s.tables :: AutoHandlers(s.tables[a]) == {}
  }

  lemma AutosSame(s: ClientState, s': ClientState)
    requires s'.tables == s.tables
    ensures AutosShrink(s, s')
  {
    hide AutoHandlers;
  }

  lemma TableShrinks(s: ClientState, a: WebSocketAdapter, t: Table, s': ClientState)
    requires a in s.tables && s'.tables == s.tables[a := t] && AutoHandlers(t) <= AutoHandlers(s.tables[a])
    ensures AutosShrink(s, s')
  {
    hide AutoHandlers;
  }

  lemma AutosShrinkTwice(a: ClientState, b: ClientState, c: ClientState)
    requires AutosShrink(a, b) && AutosShrink(b, c)
    ensures AutosShrink(a, c)
  {
    hide AutoHandlers;
  }

  lemma NoAutosStay(s: ClientState, s': ClientState)
    requires NoAutos(s) && AutosShrink(s, s')
    ensures NoAutos(s')
  {
    hide AutoHandlers;
  }

  lemma IrrelevantChange(s: ClientState, a: WebSocketAdapter, t: Table)
    requires InStep(s) && a in s.tables && SameWhereItMatters(s.tables[a], t)
    ensures InStep(WithTable(s, a, t))
    ensures AutosShrink(s, WithTable(s, a, t))
  {
    hide At, Served, AutoHandlers, OneShots;
    OneShotsShrink(s, a, t);
  }

  /** Changing one table only in the handlers of topics keeps everything but the agreement on topics. */
  ghost predicate SameButListeners(t: Table, t': Table) {
    && AutoHandlers(t) == AutoHandlers(t')
    && forall r :: At(t, SubscriptionResponseFor(r)) == At(t', SubscriptionResponseFor(r))
  }

  lemma ListenersAndCurrentChange(s: ClientState, listeners: Table, t: Table)
    requires InStep(s) && s.current != null
    requires SameButListeners(s.tables[s.current], t) && SameListeners(t, listeners)
    ensures InStep(WithTable(s, s.current, t).(listeners := listeners))
    ensures AutosShrink(s, WithTable(s, s.current, t).(listeners := listeners))
  {
    hide At, Served, AutoHandlers;
    OneShotsShrink(s, s.current, t);
  }

  lemma ListenersChangeUnseen(s: ClientState, listeners: Table)
    requires InStep(s) && s.current == null
    ensures InStep(s.(listeners := listeners))
    ensures AutosShrink(s, s.(listeners := listeners))
  {
    hide At, Served, AutoHandlers;
  }

  /** A table after a connection: the caller's listeners are attached, and the reconnect handler is the given one. */
  ghost predicate Attached(t: Table, t': Table, listeners: Table, auto: Option<Handler>) {
    && SameListeners(t', listeners)
    && AutoHandlers(t') == Only(auto)
    && forall r :: At(t, SubscriptionResponseFor(r)) == At(t', SubscriptionResponseFor(r))
  }

  /** The connecting socket becomes the current one. */
  lemma ConnectingBecomesCurrent(s: ClientState, t: Table, auto: Option<Handler>)
    requires InStep(s) && s.connecting != null && (auto.Some? ==> auto.value.AutoReconnect?)
    requires Attached(s.tables[s.connecting], t, s.listeners, auto)
    ensures InStep(WithTable(s, s.connecting, t).(current := s.connecting, subscriber := s.connecting, auto := auto))
  {
    hide At, Served, AutoHandlers;
  }

  /** The state with one more adapter, which is the connecting one. */
  ghost predicate AdapterJoins(s: ClientState, s': ClientState, a: WebSocketAdapter) {
    && a !in s.tables && a in s'.tables && s'.connecting == a
    && (forall x :: x in s.tables ==> x in s'.tables && s'.tables[x] == s.tables[x])
    && (forall x :: x in s'.tables ==> x == a || x in s.tables)
    && s' == s.(tables := s'.tables, connecting := s'.connecting)
  }

  /** A fresh adapter replaces the connecting one. */
  lemma AdapterAdded(s: ClientState, s': ClientState, a: WebSocketAdapter)
    requires InStep(s) && AdapterJoins(s, s', a)
    requires NoListeners(s'.tables[a]) && AutoHandlers(s'.tables[a]) == {}
    requires forall r :: At(s'.tables[a], SubscriptionResponseFor(r)) == {}
    ensures InStep(s')
    ensures AutosShrink(s, s')
  {
    hide At, Served, AutoHandlers;
  }

  lemma ConnectingDropped(s: ClientState)
    requires InStep(s)
    ensures InStep(s.(connecting := null))
    ensures AutosShrink(s, s.(connecting := null))
  {
    hide At, Served, AutoHandlers;
  }

  /** The client only ever loses its socket to a connection manager that has none. */
  lemma CurrentDropped(s: ClientState)
    requires InStep(s) && s.connecting == null
    ensures InStep(s.(current := null))
    ensures AutosShrink(s, s.(current := null))
  {
    hide At, Served, AutoHandlers;
  }

  /** The client takes its reconnect handler off the current socket and forgets it. */
  lemma AutoRemoved(s: ClientState, t: Table)
    requires InStep(s) && s.current != null
    requires SameListeners(t, s.listeners) && AutoHandlers(t) == {}
    requires forall r :: At(s.tables[s.current], SubscriptionResponseFor(r)) == At(t, SubscriptionResponseFor(r))
    ensures InStep(WithTable(s, s.current, t).(auto := None))
    ensures AutosShrink(s, WithTable(s, s.current, t).(auto := None))
  {
    hide At, Served, AutoHandlers, AutosShrink;
    TableShrinks(s, s.current, t, WithTable(s, s.current, t).(auto := None));
  }

  lemma AutoForgotten(s: ClientState)
    requires InStep(s) && s.current == null
    ensures InStep(s.(auto := None))
    ensures AutosShrink(s, s.(auto := None))
  {
    hide At, Served, AutoHandlers;
  }

  lemma OneShotAdded(s: ClientState, request: nat, q: Request, t: Table)
    requires OneShots(s) && s.subscriber in s.tables && request !in s.requests && !q.answered
    requires forall r ::
      At(t, SubscriptionResponseFor(r)) ==
      At(s.tables[s.subscriber], SubscriptionResponseFor(r)) + (if r == request then {SubscribeOnce(request)} else {})
    ensures OneShots(WithTable(s, s.subscriber, t).(requests := s.requests[request := q]))
  {
    hide At, Served;
    var s' := WithTable(s, s.subscriber, t).(requests := s.requests[request := q]);
    forall b | b in s.tables ensures !Waits(s.tables[b], request) {
    }
    forall b, r | b in s'.tables && Waits(s'.tables[b], r)
      ensures (r == request && b == s.subscriber) || (r != request && Waits(s.tables[b], r))
    {
    }
    forall b, r | b in s'.tables ensures At(s'.tables[b], SubscriptionResponseFor(r)) <= {SubscribeOnce(r)} {
      assert At(s.tables[b], SubscriptionResponseFor(r)) <= {SubscribeOnce(r)};
    }
  }

  /** A new request registers its one-shot handler on the subscriber. */
  lemma RequestAdded(s: ClientState, request: nat, q: Request, t: Table)
    requires InStep(s) && s.subscriber != null && request !in s.requests && !q.answered
    requires t == Added(s.tables[s.subscriber], SubscriptionResponseFor(request), SubscribeOnce(request))
    ensures InStep(WithTable(s, s.subscriber, t).(requests := s.requests[request := q]))
    ensures AutosShrink(s, WithTable(s, s.subscriber, t).(requests := s.requests[request := q]))
  {
    hide At, Served, AutoHandlers, OneShots, Added;
    AddedElsewhere(s.tables[s.subscriber], SubscriptionResponseFor(request), SubscribeOnce(request));
    OneShotAdded(s, request, q, t);
  }

  lemma AddedElsewhere(t: Table, e: Event, h: Handler)
    requires e != Disconnect || !h.AutoReconnect?
    ensures AutoHandlers(Added(t, e, h)) == AutoHandlers(t)
    ensures forall f :: At(Added(t, e, h), f) == if f == e then At(t, f) + {h} else At(t, f)
    ensures forall f ::
      Served(Added(t, e, h), f) == if f == e && (f.Topic? || h.Callback?) then Served(t, f) + {h} else Served(t, f)
  {
  }

  lemma RemovedElsewhere(t: Table, e: Event, h: Handler)
    requires e != Disconnect || !h.AutoReconnect?
    ensures AutoHandlers(Removed(t, e, h)) == AutoHandlers(t)
    ensures forall f :: At(Removed(t, e, h), f) == if f == e then At(t, f) - {h} else At(t, f)
    ensures forall f ::
      Served(Removed(t, e, h), f) == if f == e && (f.Topic? || h.Callback?) then Served(t, f) - {h} else Served(t, f)
  {
  }

  /** Requests change without a new answer: nothing else notices. */
  lemma RequestsChange(s: ClientState, requests: map<nat, Request>)
    requires InStep(s)
    requires forall r :: r in s.requests ==> r in requests && (requests[r].answered ==> s.requests[r].answered)
    ensures InStep(s.(requests := requests))
    ensures AutosShrink(s, s.(requests := requests))
  {
    hide At, Served, AutoHandlers;
  }

  /** No socket waits for this request any more, so it may count as answered. */
  lemma AnsweredRequest(s: ClientState, request: nat, q: Request)
    requires InStep(s) && forall a :: a in s.tables ==> !Waits(s.tables[a], request)
    ensures InStep(s.(requests := s.requests[request := q]))
    ensures AutosShrink(s, s.(requests := s.requests[request := q]))
  {
    hide At, Served, AutoHandlers;
  }

  /** A one-shot handler goes away. */
  lemma WaitEnds(s: ClientState, a: WebSocketAdapter, t: Table)
    requires InStep(s) && a in s.tables
    requires forall e | UserEvent(e) :: Served(s.tables[a], e) == Served(t, e)
    requires AutoHandlers(s.tables[a]) == AutoHandlers(t)
    requires forall r :: At(t, SubscriptionResponseFor(r)) <= At(s.tables[a], SubscriptionResponseFor(r))
    ensures InStep(WithTable(s, a, t))
    ensures AutosShrink(s, WithTable(s, a, t))
  {
    hide At, Served, AutoHandlers, OneShots;
    OneShotsShrink(s, a, t);
  }

  // ---------- the caller's listeners ----------

  /** The event manager holds callbacks only, and only for the events a caller may name. */
  ghost predicate OnlyCallbacks(t: Table) {
    forall e :: AllCallbacks(At(t, e)) && (At(t, e) != {} ==> UserEvent(e))
  }

  ghost predicate AllCallbacks(handlers: set<Handler>) {
    forall h :: h in handlers ==> h.Callback?
  }

  /** The state after the caller's listener changed in the event manager and on the current socket. */
  ghost function WithListeners(s: ClientState, listeners: Table, t: Table): ClientState {
    if s.current == null then s.(listeners := listeners) else WithTable(s, s.current, t).(listeners := listeners)
  }

  lemma Known(s: ClientState)
    requires InStep(s)
    ensures SocketsKnown(s)
  {
  }

  lemma CallbackAdded(t: Table, e: Event, h: Handler)
    requires OnlyCallbacks(t) && h.Callback? && UserEvent(e)
    ensures OnlyCallbacks(Added(t, e, h))
  {
    hide Added, At, Served;
    AddedElsewhere(t, e, h);
    forall f ensures AllCallbacks(At(Added(t, e, h), f)) && (At(Added(t, e, h), f) != {} ==> UserEvent(f)) {
      assert AllCallbacks(At(t, f));
    }
  }

  lemma CallbacksShrink(t: Table, t': Table)
    requires OnlyCallbacks(t) && forall e :: At(t', e) <= At(t, e)
    ensures OnlyCallbacks(t')
  {
    hide At, Served;
    forall f ensures AllCallbacks(At(t', f)) && (At(t', f) != {} ==> UserEvent(f)) {
      assert AllCallbacks(At(t, f));
    }
  }

  lemma ListenerAdded(s: ClientState, e: Event, h: Handler)
    requires InStep(s) && h.Callback? && UserEvent(e)
    ensures var t := if s.current == null then map[] else Added(s.tables[s.current], e, h);
            InStep(WithListeners(s, Added(s.listeners, e, h), t))
            && AutosShrink(s, WithListeners(s, Added(s.listeners, e, h), t))
  {
    hide InStep, Added;
    Known(s);
    AddedElsewhere(s.listeners, e, h);
    if s.current == null {
      ListenersChangeUnseen(s, Added(s.listeners, e, h));
    } else {
      AddedElsewhere(s.tables[s.current], e, h);
      ListenersOfCurrent(s);
      ListenersAndCurrentChange(s, Added(s.listeners, e, h), Added(s.tables[s.current], e, h));
    }
  }

  lemma ListenersOfCurrent(s: ClientState)
    requires InStep(s) && s.current != null
    ensures SocketsKnown(s) && SameListeners(s.tables[s.current], s.listeners)
    ensures AutoHandlers(s.tables[s.current]) == Only(s.auto)
  {
  }

  /** The event manager's table after a listener is removed: the entry goes with its last listener. */
  ghost function ListenerTableWithout(t: Table, e: Event, h: Handler): Table {
    if At(t, e) - {h} == {} && e in t then t - {e} else Removed(t, e, h)
  }

  lemma ListenerTableWithoutMeaning(t: Table, e: Event, h: Handler)
    ensures forall f :: At(ListenerTableWithout(t, e, h), f) == if f == e then At(t, f) - {h} else At(t, f)
  {
  }

  lemma ListenerRemoved(s: ClientState, e: Event, h: Handler)
    requires InStep(s) && h.Callback? && UserEvent(e)
    ensures var t := if s.current == null then map[] else Removed(s.tables[s.current], e, h);
            InStep(WithListeners(s, ListenerTableWithout(s.listeners, e, h), t))
            && AutosShrink(s, WithListeners(s, ListenerTableWithout(s.listeners, e, h), t))
  {
    hide InStep, Removed, ListenerTableWithout;
    Known(s);
    var listeners := ListenerTableWithout(s.listeners, e, h);
    ListenerTableWithoutMeaning(s.listeners, e, h);
    if s.current == null {
      ListenersChangeUnseen(s, listeners);
    } else {
      RemovedElsewhere(s.tables[s.current], e, h);
      ListenersOfCurrent(s);
      ListenersAndCurrentChange(s, listeners, Removed(s.tables[s.current], e, h));
    }
  }

  /** All listeners of a topic go, from the event manager and from the current socket. */
  lemma TopicCleared(s: ClientState, topic: EventTopic, t: Table)
    requires InStep(s)
    requires s.current != null ==>
      forall e :: At(t, e) == if e == Topic(topic) then {} else At(s.tables[s.current], e)
    ensures InStep(WithListeners(s, s.listeners - {Topic(topic)}, t))
    ensures AutosShrink(s, WithListeners(s, s.listeners - {Topic(topic)}, t))
  {
    hide InStep;
    Known(s);
    var listeners := s.listeners - {Topic(topic)};
    forall f ensures At(listeners, f) == if f == Topic(topic) then {} else At(s.listeners, f) {
    }
    if s.current == null {
      ListenersChangeUnseen(s, listeners);
    } else {
      ListenersOfCurrent(s);
      ListenersAndCurrentChange(s, listeners, t);
    }
  }

  // ---------- connecting ----------

  lemma InitialHandlersAreClean()
    ensures var t := ConnectionManager.InitialHandlers();
            NoListeners(t) && AutoHandlers(t) == {} && forall r :: At(t, SubscriptionResponseFor(r)) == {}
  {
  }

  /** The table of a socket whose connection is complete: the subscription manager's two re-emitting handlers, the
      caller's listeners, and the reconnect handler `auto` in place of the earlier one. */
  ghost predicate Completed(t: Table, t': Table, listeners: Table, before: Option<Handler>, auto: Option<Handler>) {
    && (forall e | UserEvent(e) :: Served(t', e) == Served(t, e) + At(listeners, e))
    && AutoHandlers(t') == AutoHandlers(t) - Only(before) + Only(auto)
    && (forall r :: At(t', SubscriptionResponseFor(r)) == At(t, SubscriptionResponseFor(r)))
  }

  /** Every handler of that socket: what it had, two re-emitting handlers, the registered listeners, and the reconnect
      handler in place of the earlier one. */
  ghost predicate HandlersAttached(t: Table, t': Table, listeners: Table, setup: nat, before: Option<Handler>,
                                   auto: Option<Handler>)
  {
    forall e ::
      At(t', e) ==
      At(t, e) + At(listeners, e)
        + (if e == SubscriptionResponse then {Reemit(setup)}
           else if e == UnsubscribeResponse then {Reemit(setup + 1)} else {})
        - (if e == Disconnect then Only(before) else {}) + (if e == Disconnect then Only(auto) else {})
  }

  lemma AttachedCompletes(t: Table, t': Table, listeners: Table, setup: nat, before: Option<Handler>,
                          auto: Option<Handler>)
    requires OnlyCallbacks(listeners) && HandlersAttached(t, t', listeners, setup, before, auto)
    requires (before.Some? ==> before.value.AutoReconnect?) && (auto.Some? ==> auto.value.AutoReconnect?)
    ensures Completed(t, t', listeners, before, auto)
  {
    hide At, Served, AllCallbacks;
    forall e | UserEvent(e) ensures Served(t', e) == Served(t, e) + At(listeners, e) {
      assert AllCallbacks(At(listeners, e));
      ServedAttached(t, t', At(listeners, e), before, auto, e);
    }
    assert AllCallbacks(At(listeners, Disconnect));
    AutosAttached(t, t', At(listeners, Disconnect), before, auto);
    forall r ensures At(t', SubscriptionResponseFor(r)) == At(t, SubscriptionResponseFor(r)) {
      assert At(listeners, SubscriptionResponseFor(r)) == {};
    }
  }

  lemma ServedAttached(t: Table, t': Table, added: set<Handler>, before: Option<Handler>, auto: Option<Handler>,
                       e: Event)
    requires UserEvent(e) && AllCallbacks(added)
    requires (before.Some? ==> before.value.AutoReconnect?) && (auto.Some? ==> auto.value.AutoReconnect?)
    requires At(t', e) == if e == Disconnect then At(t, e) + added - Only(before) + Only(auto) else At(t, e) + added
    ensures Served(t', e) == Served(t, e) + added
  {
    hide At;
  }

  lemma AutosAttached(t: Table, t': Table, added: set<Handler>, before: Option<Handler>, auto: Option<Handler>)
    requires AllCallbacks(added)
    requires (before.Some? ==> before.value.AutoReconnect?) && (auto.Some? ==> auto.value.AutoReconnect?)
    requires At(t', Disconnect) == At(t, Disconnect) + added - Only(before) + Only(auto)
    ensures AutoHandlers(t') == AutoHandlers(t) - Only(before) + Only(auto)
  {
    hide At;
  }

  lemma ConnectionCompletes(s: ClientState, t: Table, auto: Option<Handler>)
    requires InStep(s) && s.connecting != null && (auto.Some? ==> auto.value.AutoReconnect?)
    requires s.connecting in s.tables && Completed(s.tables[s.connecting], t, s.listeners, s.auto, auto)
    ensures InStep(WithTable(s, s.connecting, t).(current := s.connecting, subscriber := s.connecting, auto := auto))
    ensures auto == s.auto == None ==>
      AutosShrink(s, WithTable(s, s.connecting, t).(current := s.connecting, subscriber := s.connecting, auto := auto))
  {
    hide OneShots, AutoHandlers, At, Served, AutosShrink;
    assert Attached(s.tables[s.connecting], t, s.listeners, auto);
    ConnectingBecomesCurrent(s, t, auto);
    if auto == s.auto == None {
      TableShrinks(s, s.connecting, t,
                   WithTable(s, s.connecting, t).(current := s.connecting, subscriber := s.connecting, auto := auto));
    }
  }

  /** The two together: after `connect` the connecting socket is current, with these handlers. */
  lemma ConnectionAttaches(s: ClientState, t: Table, setup: nat, before: Option<Handler>, auto: Option<Handler>)
    requires InStep(s) && OnlyCallbacks(s.listeners) && s.connecting != null && s.connecting in s.tables
    requires before == s.auto && (auto.Some? ==> auto.value.AutoReconnect?)
    requires HandlersAttached(s.tables[s.connecting], t, s.listeners, setup, before, auto)
    ensures InStep(WithTable(s, s.connecting, t).(current := s.connecting, subscriber := s.connecting, auto := auto))
    ensures auto == s.auto == None ==>
      AutosShrink(s, WithTable(s, s.connecting, t).(current := s.connecting, subscriber := s.connecting, auto := auto))
  {
    hide InStep, OnlyCallbacks, Completed, HandlersAttached, AutosShrink;
    AutoIsReconnect(s);
    AttachedCompletes(s.tables[s.connecting], t, s.listeners, setup, before, auto);
    ConnectionCompletes(s, t, auto);
  }

  lemma ReemitsAdded(t: Table, n: nat)
    ensures var t' := Added(Added(t, SubscriptionResponse, Reemit(n)), UnsubscribeResponse, Reemit(n + 1));
            forall e ::
              At(t', e) == At(t, e) + (if e == SubscriptionResponse then {Reemit(n)}
                                       else if e == UnsubscribeResponse then {Reemit(n + 1)} else {})
  {
  }

  lemma AutoRemovedFrom(t: Table, h: Handler)
    ensures AutoHandlers(Removed(t, Disconnect, h)) == AutoHandlers(t) - {h}
    ensures At(Removed(t, Disconnect, h), Disconnect) == At(t, Disconnect) - {h}
    ensures forall e :: e != Disconnect ==> At(Removed(t, Disconnect, h), e) == At(t, e)
    ensures h.AutoReconnect? ==> forall e :: Served(Removed(t, Disconnect, h), e) == Served(t, e)
  {
  }

  lemma AutoAddedTo(t: Table, h: Handler)
    requires h.AutoReconnect?
    ensures AutoHandlers(Added(t, Disconnect, h)) == AutoHandlers(t) + {h}
    ensures At(Added(t, Disconnect, h), Disconnect) == At(t, Disconnect) + {h}
    ensures forall e :: e != Disconnect ==> At(Added(t, Disconnect, h), e) == At(t, e)
    ensures forall e :: Served(Added(t, Disconnect, h), e) == Served(t, e)
  {
  }

  lemma AutoIsReconnect(s: ClientState)
    requires InStep(s)
    ensures s.auto.Some? ==> s.auto.value.AutoReconnect?
  {
  }

  lemma ListenersKept(t: Table, t': Table, listeners: Table)
    requires SameListeners(t, listeners) && forall e :: Served(t', e) == Served(t, e)
    ensures SameListeners(t', listeners)
  {
    hide At, Served;
  }

  lemma ConnectOnceUnseen(t: Table)
    ensures SameWhereItMatters(t, Removed(t, Connect, ConnectOnce))
  {
    hide Removed, AutoHandlers;
    RemovedElsewhere(t, Connect, ConnectOnce);
  }

  /** What a socket serves on its connect event: the registered listeners once it is current, nothing before. */
  lemma OpeningServes(s: ClientState, a: WebSocketAdapter)
    requires InStep(s) && a in s.tables
    ensures a == s.current ==> Served(s.tables[a], Connect) == At(s.listeners, Connect)
    ensures a == s.connecting && a != s.current ==> Served(s.tables[a], Connect) == {}
  {
    hide At, Served;
  }

  /** The caller's callbacks among the handlers of a dispatch. */
  ghost function Callbacks(run: seq<Handler>): set<Handler> {
    set h | h in run && h.Callback?
  }

  lemma CallbacksAreServed(run: seq<Handler>, t: Table, e: Event)
    requires Elements(run) == At(t, e) && !e.Topic?
    ensures Callbacks(run) == Served(t, e)
  {
    forall h ensures h in Callbacks(run) <==> h in Served(t, e) {
      assert h in run <==> h in Elements(run);
    }
  }

  lemma ConnectingHasNoAuto(s: ClientState)
    requires InStep(s)
    ensures s.connecting != null && s.connecting != s.current ==>
      s.connecting in s.tables && AutoHandlers(s.tables[s.connecting]) == {}
  {
    hide At, Served, AutoHandlers;
  }

  lemma AutosByBinding(t: Table)
    ensures AutoHandlers(t) != {} <==> exists n :: AutoReconnect(n) in At(t, Disconnect)
  {
    if n :| AutoReconnect(n) in At(t, Disconnect) {
      assert AutoReconnect(n) in AutoHandlers(t);
    }
    if h :| h in AutoHandlers(t) {
      assert h == AutoReconnect(h.binding);
    }
  }

  lemma OneAutoEach(s: ClientState, a: WebSocketAdapter)
    requires InStep(s) && a in s.tables
    ensures forall h, h' :: h in AutoHandlers(s.tables[a]) && h' in AutoHandlers(s.tables[a]) ==> h == h'
  {
    hide At, Served;
  }

  lemma AutoAmong(run: seq<Handler>, t: Table)
    requires Elements(run) == At(t, Disconnect)
    ensures AutoHandlers(t) != {} <==> exists k :: 0 <= k < |run| && run[k].AutoReconnect?
  {
    if k :| 0 <= k < |run| && run[k].AutoReconnect? {
      assert run[k] in Elements(run) && run[k] in AutoHandlers(t);
    }
    if h :| h in AutoHandlers(t) {
      assert h in Elements(run);
    }
  }

  /** What the invariant says about one request. */
  lemma OneShotParts(s: ClientState, r: nat)
    requires InStep(s)
    ensures forall a :: a in s.tables ==> At(s.tables[a], SubscriptionResponseFor(r)) <= {SubscribeOnce(r)}
    ensures forall a :: a in s.tables && Waits(s.tables[a], r) ==> r in s.requests && !s.requests[r].answered
    ensures forall a, b :: a in s.tables && b in s.tables && Waits(s.tables[a], r) && Waits(s.tables[b], r) ==> a == b
  {
    hide At, Served;
  }

  /** Only the tables of two sockets and the requests differ. */
  ghost predicate TwoTablesDiffer(s: ClientState, s': ClientState, a: WebSocketAdapter, b: WebSocketAdapter) {
    && a in s.tables && b in s.tables && s'.tables.Keys == s.tables.Keys
    && (forall x :: x in s.tables && x != a && x != b ==> s'.tables[x] == s.tables[x])
    && s' == s.(tables := s'.tables, requests := s'.requests)
  }

  lemma TwoTablesUpdated(s: ClientState, s': ClientState, a: WebSocketAdapter, b: WebSocketAdapter)
    requires TwoTablesDiffer(s, s', a, b)
    ensures a in s'.tables && b in s'.tables
    ensures s' == WithTable(WithTable(s, a, s'.tables[a]), b, s'.tables[b]).(requests := s'.requests)
  {
  }

  /** An unsubscribe answer touches its own one-shot event only, on at most two sockets. */
  lemma UnsubscribeAnswered(s: ClientState, s': ClientState, a: WebSocketAdapter, b: WebSocketAdapter,
                            id: SubscriptionId)
    requires InStep(s) && TwoTablesDiffer(s, s', a, b) && s'.requests == s.requests
    requires forall e | e != UnsubscribeResponseFor(id) :: At(s'.tables[a], e) == At(s.tables[a], e)
    requires forall e | e != UnsubscribeResponseFor(id) :: At(s'.tables[b], e) == At(s.tables[b], e)
    ensures InStep(s')
    ensures AutosShrink(s, s')
  {
    hide InStep, SameWhereItMatters, At, Served;
    TwoTablesUpdated(s, s', a, b);
    UnsubscribeUnseen(s.tables[a], s'.tables[a], id);
    UnsubscribeUnseen(s.tables[b], s'.tables[b], id);
    IrrelevantChange(s, a, s'.tables[a]);
    var s1 := WithTable(s, a, s'.tables[a]);
    if a == b {
      assert s' == s1;
    } else {
      IrrelevantChange(s1, b, s'.tables[b]);
      assert s' == WithTable(s1, b, s'.tables[b]);
    }
  }

  lemma UnsubscribeOnceUnseen(t: Table, id: SubscriptionId, call: nat)
    ensures SameWhereItMatters(t, Added(t, UnsubscribeResponseFor(id), UnsubscribeOnce(call)))
  {
    hide Added, AutoHandlers;
    AddedElsewhere(t, UnsubscribeResponseFor(id), UnsubscribeOnce(call));
  }

  lemma SameHandlersUnseen(t: Table, t': Table)
    requires SameHandlers(t, t')
    ensures SameWhereItMatters(t, t')
  {
    hide At;
  }

  lemma UnsubscribeUnseen(t: Table, t': Table, id: SubscriptionId)
    requires forall e | e != UnsubscribeResponseFor(id) :: At(t', e) == At(t, e)
    ensures SameWhereItMatters(t, t')
  {
    hide At;
  }

  lemma OneShotLost(s: ClientState, a: WebSocketAdapter, t: Table, request: nat)
    requires InStep(s) && a in s.tables && LosesOneShot(s.tables[a], t, request)
    ensures InStep(WithTable(s, a, t)) && !Waits(t, request)
    ensures AutosShrink(s, WithTable(s, a, t))
  {
    assert AutoHandlers(t) == AutoHandlers(s.tables[a]);
    hide At, Served, AutoHandlers, InStep;
    WaitEnds(s, a, t);
  }

  /** An answer is consumed: the handler is gone from every socket that had it, and the request is answered. */
  lemma AnswerConsumed(s: ClientState, a: WebSocketAdapter, t: Table, b: WebSocketAdapter, u: Table,
                       request: nat, q: Request)
    requires InStep(s) && a in s.tables && b in s.tables && (a == b ==> t == u)
    requires LosesOneShot(s.tables[a], t, request) && LosesOneShot(s.tables[b], u, request)
    requires Waits(s.tables[a], request) || Waits(s.tables[b], request)
    ensures InStep(WithTable(WithTable(s, a, t), b, u).(requests := s.requests[request := q]))
    ensures AutosShrink(s, WithTable(WithTable(s, a, t), b, u).(requests := s.requests[request := q]))
  {
    hide At, Served, AutoHandlers, InStep, Waits, LosesOneShot;
    OneShotParts(s, request);
    OneShotLost(s, a, t, request);
    var s1 := WithTable(s, a, t);
    StillLosesOneShot(s.tables[b], u, t, request);
    OneShotLost(s1, b, u, request);
    AnsweredRequest(WithTable(s1, b, u), request, q);
  }

  lemma StillLosesOneShot(t: Table, u: Table, v: Table, request: nat)
    requires LosesOneShot(t, u, request)
    ensures LosesOneShot(u, u, request)
  {
  }
}
