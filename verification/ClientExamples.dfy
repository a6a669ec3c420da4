/** Runs of the client that end in states a caller would not expect. */
module ClientExamples {
  import opened Prelude
  import opened OrderedMaps
  import opened WebSocketTypes
  import opened WsAdapters
  import opened ConnectionManagers
  import opened SubscriptionManagers
  import opened ReconnectionManagers
  import opened ClientStates
  import opened ArchWebSocketClients
  import opened ClientSteps

  // ---------- a connection ----------

  /** A connection from start to finish: a new socket is made, opens and becomes the current one. */
  method OpenNewSocket(client: ArchWebSocketClient)
    requires client.Valid() && !client.connectionManager.IsConnected() && !client.connectionManager.isConnecting
    modifies client, client.connectionManager, client.subscriptionManager, client.eventManager,
      client.reconnectionManager, client.adapters
    ensures client.Valid() && client.socket != null && fresh(client.socket)
    ensures client.adapters == old(client.adapters) + [client.socket]
    ensures client.connectionManager.socket == client.socket == client.subscriptionManager.socket
    ensures client.socket.connected && client.socket.ws == Some(Open) && !client.connectionManager.isConnecting
    ensures client.autoReconnect ==> client.autoReconnectHandler.Some?
    ensures client.subscriptionManager.CurrentState() == old(client.subscriptionManager.CurrentState())
    ensures client.subscriptionManager.requestIdCounter == old(client.subscriptionManager.requestIdCounter)
    ensures unchanged(client.reconnectionManager)
    ensures forall a | a in old(client.adapters) :: unchanged(a`handlers, a`connected, a`ws)
  {
    hide ArchWebSocketClient.Valid, HandlersAttached, ArchWebSocketClient.RetryNow, RetryFollows,
      ReconnectionManager.Now, Removed, ListenerTableWithout;
    ghost var n := |client.adapters|;
    var effect := ConnectionStep(client, ConnectStarts(Creates));
    InitialHandlersHaveConnectOnce();
    effect := SocketsStep(client, Step.SocketOpens(|client.adapters| - 1));
    effect := ConnectionStep(client, ConnectFinishes);
  }

  lemma InitialHandlersHaveConnectOnce()
    ensures ConnectOnce in At(ConnectionManager.InitialHandlers(), Connect)
  {
  }

  // ---------- a late answer ----------

  /** A fresh client connects and asks for a subscription; its request is number 1, on its only socket. */
  method AskOnNewSocket(topic: EventTopic, filter: Filter) returns (client: ArchWebSocketClient)
    ensures fresh(client) && client.Valid() && |client.adapters| == 1 && fresh(client.adapters[0])
    ensures fresh(client.connectionManager) && fresh(client.subscriptionManager) && fresh(client.eventManager)
    ensures fresh(client.reconnectionManager)
    ensures client.subscriptionManager.CurrentState() == Asked(State(Empty(), map[]), topic, filter, 1)
    ensures client.subscriptionManager.Listens(client.adapters[0], 1)
  {
    hide ArchWebSocketClient.Valid, HandlersAttached, ArchWebSocketClient.RetryNow, RetryFollows,
      ReconnectionManager.Now, ActivePairs, Asked;
    client := new ArchWebSocketClient(ClientOptions(None, None, None));
    OpenNewSocket(client);
    NothingActive();
    var effect := SubscriptionsStep(client, SubscribeStarts(topic, filter));
  }

  /** A subscription whose request timed out is confirmed all the same: its promise is rejected, and its entry is
      there. */
  method LateAnswer(topic: EventTopic, filter: Filter, id: string) returns (client: ArchWebSocketClient)
    ensures fresh(client) && client.Valid()
    ensures 1 in client.subscriptionManager.requests && client.subscriptionManager.requests[1].outcome == Rejected
    ensures Confirms(client.subscriptionManager.CurrentState(), Server(id), client.subscriptionManager.requests[1])
    ensures client.subscriptionManager.requests[1].topic == topic
      && client.subscriptionManager.requests[1].filter == filter
  {
    hide ArchWebSocketClient.Valid, HandlersAttached, ArchWebSocketClient.RetryNow, RetryFollows,
      ReconnectionManager.Now, Answered, TimedOut, Asked, Confirms, SubscriptionManager.Listens;
    client := AskOnNewSocket(topic, filter);
    var answer := Response(true, id, Some(1));
    LateState(topic, filter, answer);
    var effect := SubscriptionsStep(client, SubscribeTimesOut(1));
    effect := SubscriptionsStep(client, Step.ResponseArrives(0, answer));
  }

  lemma LateState(topic: EventTopic, filter: Filter, answer: Response)
    requires answer.subscribed
    ensures var asked := Asked(State(Empty(), map[]), topic, filter, 1);
            && asked.subscriptions.Valid() && 1 in asked.requests && asked.requests[1].timer
            && var late := TimedOut(asked, 1);
               && late.subscriptions.Valid() && 1 in late.requests
               && var answered := Answered(late, 1, answer);
                  && 1 in answered.requests && answered.requests[1] == Request(topic, filter, false, true, Rejected)
                  && Confirms(answered, Server(answer.subscriptionId), answered.requests[1])
  {
  }

  // ---------- a stray timer ----------

  /** A client with a new current socket that closes while an attempt is left: one more timer is armed. */
  method OpenAndClose(client: ArchWebSocketClient, random: real)
    requires client.Valid() && client.autoReconnect && client.reconnectionManager.ShouldReconnect()
    requires !client.connectionManager.IsConnected() && !client.connectionManager.isConnecting
    modifies client, client.connectionManager, client.subscriptionManager, client.eventManager,
      client.reconnectionManager, client.adapters
    ensures client.Valid() && client.socket != null
    ensures |client.adapters| == |old(client.adapters)| + 1
    ensures forall k :: 0 <= k < |client.adapters| ==>
      client.adapters[k] in old(client.adapters) || fresh(client.adapters[k])
    ensures !client.connectionManager.IsConnected() && !client.connectionManager.isConnecting
    ensures client.reconnectionManager.Now() == Armed(old(client.reconnectionManager.Now()))
    ensures client.reconnectionManager.enabled == old(client.reconnectionManager.enabled)
    ensures client.reconnectionManager.maxAttempts == old(client.reconnectionManager.maxAttempts)
    ensures client.reconnectionManager.currentAttempt == old(client.reconnectionManager.currentAttempt) + 1
  {
    hide ArchWebSocketClient.Valid, HandlersAttached, ArchWebSocketClient.RetryNow, RetryFollows,
      ReconnectionManager.Now, AutoHandlers;
    OpenNewSocket(client);
    client.CurrentHasAuto();
    var effect := SocketsStep(client, Step.SocketCloses(|client.adapters| - 1, random));
  }

  /** The user connects again before the reconnect timer fires. The second close arms a second timer, and disconnecting
      cancels that one only: the first is still armed when the client has no connection and no reconnect handler
      left. */
  method StrayTimer(random: real) returns (client: ArchWebSocketClient)
    ensures fresh(client) && client.Valid() && forall k :: 0 <= k < |client.adapters| ==> fresh(client.adapters[k])
    ensures fresh(client.connectionManager) && fresh(client.subscriptionManager) && fresh(client.eventManager)
    ensures fresh(client.reconnectionManager)
    ensures client.connectionManager.socket == null && !client.connectionManager.isConnecting
    ensures client.autoReconnectHandler == None
    ensures client.reconnectionManager.Now() == Timers({0}, {}, None, 2)
  {
    hide ArchWebSocketClient.Valid, HandlersAttached, AutoHandlers;
    client := new ArchWebSocketClient(ClientOptions(Some(true), None, None));
    OpenAndClose(client, random);
    OpenAndClose(client, random);
    var effect := SocketsStep(client, Disconnects);
  }

  /** When it fires, the disconnected client opens a new socket. */
  method StrayTimerReconnects(random: real) returns (client: ArchWebSocketClient)
    ensures fresh(client) && client.Valid() && client.socket != null && client.socket.connected
  {
    hide ArchWebSocketClient.Valid, HandlersAttached, AutoHandlers;
    client := StrayTimer(random);
    var effect := ReconnectionStep(client, ReconnectTimerFires(0, Creates));
    effect := SocketsStep(client, Step.SocketOpens(|client.adapters| - 1));
    effect := ConnectionStep(client, ConnectFinishes);
  }

  // ---------- an attempt in flight ----------

  /** The reconnect timer of a closed connection has fired, and the connect that follows is waiting. */
  method FlyingAttempt(random: real) returns (client: ArchWebSocketClient)
    ensures fresh(client) && client.Valid() && forall k :: 0 <= k < |client.adapters| ==> fresh(client.adapters[k])
    ensures fresh(client.connectionManager) && fresh(client.subscriptionManager) && fresh(client.eventManager)
    ensures fresh(client.reconnectionManager)
    ensures client.reconnectionManager.Now() == Timers({}, {0}, Some(0), 1)
      && client.reconnectionManager.ShouldReconnect()
  {
    hide ArchWebSocketClient.Valid, HandlersAttached, ArchWebSocketClient.RetryNow, AutoHandlers, RetryFollows,
      ArchWebSocketClient.OnlyConnects;
    client := new ArchWebSocketClient(ClientOptions(Some(true), None, None));
    OpenAndClose(client, random);
    var effect := ReconnectionStep(client, ReconnectTimerFires(0, Creates));
  }

  /** The user disconnects in that state, where there is nothing to cancel. The connect fails at its timeout, and its
      failure arms the next timer. */
  method InFlightReconnects(random: real) returns (client: ArchWebSocketClient)
    ensures fresh(client) && client.Valid()
    ensures client.connectionManager.socket == null && client.autoReconnectHandler == None
    ensures client.reconnectionManager.Now() == Timers({1}, {}, Some(1), 2)
  {
    hide ArchWebSocketClient.Valid, HandlersAttached, ArchWebSocketClient.RetryNow, AutoHandlers, RetryFollows,
      ArchWebSocketClient.AnyStray, ArchWebSocketClient.OtherStray;
    client := FlyingAttempt(random);
    var effect := SocketsStep(client, Disconnects);
    effect := ConnectionStep(client, Step.ConnectTimesOut);
    effect := ReconnectionStep(client, Step.ReconnectFails(0, random));
  }

  // ---------- a stray socket ----------

  method Start(client: ArchWebSocketClient)
    requires client.Valid() && !client.connectionManager.IsConnected() && !client.connectionManager.isConnecting
    modifies client, client.connectionManager, client.subscriptionManager, client.eventManager,
      client.reconnectionManager, client.adapters
    ensures client.Valid() && |client.adapters| == |old(client.adapters)| + 1
    ensures client.adapters[..|old(client.adapters)|] == old(client.adapters)
    ensures var a := client.adapters[|old(client.adapters)|];
            && fresh(a) && client.connectionManager.socket == a && client.connectionManager.isConnecting
            && !a.connected && a.ws == Some(Connecting) && ConnectOnce in At(a.handlers, Connect)
    ensures forall a | a in old(client.adapters) :: unchanged(a)
    ensures client.socket == old(client.socket) && unchanged(client.reconnectionManager)
  {
    hide ArchWebSocketClient.Valid, HandlersAttached, ArchWebSocketClient.RetryNow, RetryFollows;
    InitialHandlersHaveConnectOnce();
    var effect := ConnectionStep(client, ConnectStarts(Creates));
  }

  /** The first attempt times out, and its socket opens while the second is waiting: the client no longer counts as
      connecting. */
  method OpensLate() returns (client: ArchWebSocketClient)
    ensures fresh(client) && client.Valid() && client.autoReconnect && |client.adapters| == 2
    ensures fresh(client.adapters[0]) && fresh(client.adapters[1])
    ensures fresh(client.connectionManager) && fresh(client.subscriptionManager) && fresh(client.eventManager)
    ensures fresh(client.reconnectionManager)
    ensures client.connectionManager.socket == client.adapters[1] && !client.connectionManager.isConnecting
    ensures !client.adapters[1].connected && client.adapters[1].ws == Some(Connecting)
    ensures ConnectOnce in At(client.adapters[1].handlers, Connect)
    ensures client.reconnectionManager.Now() == Timers({}, {}, None, 0) && client.reconnectionManager.ShouldReconnect()
  {
    hide ArchWebSocketClient.Valid, HandlersAttached, ArchWebSocketClient.RetryNow, RetryFollows, AutoHandlers,
      Removed, At;
    client := new ArchWebSocketClient(ClientOptions(Some(true), None, None));
    Start(client);
    var effect := ConnectionStep(client, Step.ConnectTimesOut);
    Start(client);
    effect := SocketsStep(client, Step.SocketOpens(0));
  }

  /** So the third can start before the second opens, and what the second one makes current is the socket of the third,
      which has not opened yet. */
  method UnopenedBecomesCurrent() returns (client: ArchWebSocketClient)
    ensures fresh(client) && client.Valid() && |client.adapters| == 3
    ensures forall k :: 0 <= k < 3 ==> fresh(client.adapters[k])
    ensures fresh(client.connectionManager) && fresh(client.subscriptionManager) && fresh(client.eventManager)
    ensures fresh(client.reconnectionManager)
    ensures client.socket == client.adapters[2] == client.connectionManager.socket && client.autoReconnectHandler.Some?
    ensures !client.adapters[2].connected && client.adapters[2].ws == Some(Connecting)
    ensures !client.connectionManager.isConnecting
    ensures client.reconnectionManager.Now() == Timers({}, {}, None, 0) && client.reconnectionManager.ShouldReconnect()
  {
    hide ArchWebSocketClient.Valid, HandlersAttached, ArchWebSocketClient.RetryNow, RetryFollows, AutoHandlers,
      Removed, At;
    client := OpensLate();
    var second := client.adapters[1];
    assert second in client.adapters;
    Start(client);
    assert client.adapters[..2][1] == client.adapters[1] == second;
    var effect := SocketsStep(client, Step.SocketOpens(1));
    effect := ConnectionStep(client, ConnectFinishes);
  }

  /** The next attempt replaces that socket, which keeps its reconnect handler and opens late. */
  method StrayOpens() returns (client: ArchWebSocketClient)
    ensures fresh(client) && client.Valid() && |client.adapters| == 4
    ensures forall k :: 0 <= k < 4 ==> fresh(client.adapters[k])
    ensures fresh(client.connectionManager) && fresh(client.subscriptionManager) && fresh(client.eventManager)
    ensures fresh(client.reconnectionManager)
    ensures client.adapters[2] != client.socket == client.connectionManager.socket && client.adapters[2].connected
    ensures AutoHandlers(client.adapters[2].handlers) != {}
    ensures client.reconnectionManager.Now() == Timers({}, {}, None, 0) && client.reconnectionManager.ShouldReconnect()
  {
    hide ArchWebSocketClient.Valid, HandlersAttached, ArchWebSocketClient.RetryNow, RetryFollows, AutoHandlers,
      Removed, At;
    client := UnopenedBecomesCurrent();
    client.CurrentHasAuto();
    var stray := client.adapters[2];
    OpenNewSocket(client);
    RemovedElsewhere(stray.handlers, Connect, ConnectOnce);
    var effect := SocketsStep(client, Step.SocketOpens(2));
  }

  /** It closes after the user has disconnected: a timer is armed, although none was armed and no attempt was in
      flight at the disconnect. */
  method StraySocketReconnects(random: real) returns (client: ArchWebSocketClient)
    ensures fresh(client) && client.Valid()
    ensures client.connectionManager.socket == null && client.autoReconnectHandler == None
    ensures client.reconnectionManager.Now() == Timers({0}, {}, Some(0), 1)
  {
    hide ArchWebSocketClient.Valid, HandlersAttached, ArchWebSocketClient.RetryNow, RetryFollows, AutoHandlers, Removed,
      ArchWebSocketClient.AnyStray, ArchWebSocketClient.OtherStray;
    client := StrayOpens();
    var effect := SocketsStep(client, Disconnects);
    effect := SocketsStep(client, Step.SocketCloses(2, random));
  }
}
