/** One step of the client, with the part of its effect that a run of steps needs. */
module ClientSteps {
  import opened Prelude
  import opened OrderedMaps
  import opened WebSocketTypes
  import opened WsAdapters
  import opened ConnectionManagers
  import opened SubscriptionManagers
  import opened ReconnectionManagers
  import opened ClientStates
  import opened ArchWebSocketClients

  method ConnectionStep(client: ArchWebSocketClient, step: Step) returns (effect: Effect)
    requires client.Valid() && OnConnection(step)
    modifies client, client.connectionManager, client.subscriptionManager, client.eventManager,
      client.reconnectionManager, client.adapters
    ensures client.Valid() && client.DidConnection(step)
    ensures RetryFollows(step, old(client.RetryNow()), client.RetryNow())
    ensures forall k :: 0 <= k < |client.adapters| ==>
      client.adapters[k] in old(client.adapters) || fresh(client.adapters[k])
  {
    hide ArchWebSocketClient.Valid, Later, TimersFollow, RetryFollows, ArchWebSocketClient.DidListeners,
      ArchWebSocketClient.DidConnection, ArchWebSocketClient.DidSockets, ArchWebSocketClient.DidSubscriptions,
      ArchWebSocketClient.DidUnsubscribing, ArchWebSocketClient.DidReconnection;
    effect := client.Perform(step);
  }

  method SocketsStep(client: ArchWebSocketClient, step: Step) returns (effect: Effect)
    requires client.Valid() && OnSockets(step)
    modifies client, client.connectionManager, client.subscriptionManager, client.eventManager,
      client.reconnectionManager, client.adapters
    ensures client.Valid() && client.DidSockets(step)
    ensures RetryFollows(step, old(client.RetryNow()), client.RetryNow())
    ensures forall k :: 0 <= k < |client.adapters| ==>
      client.adapters[k] in old(client.adapters) || fresh(client.adapters[k])
  {
    hide ArchWebSocketClient.Valid, Later, TimersFollow, RetryFollows, ArchWebSocketClient.DidListeners,
      ArchWebSocketClient.DidConnection, ArchWebSocketClient.DidSockets, ArchWebSocketClient.DidSubscriptions,
      ArchWebSocketClient.DidUnsubscribing, ArchWebSocketClient.DidReconnection;
    effect := client.Perform(step);
  }

  method SubscriptionsStep(client: ArchWebSocketClient, step: Step) returns (effect: Effect)
    requires client.Valid() && OnSubscriptions(step)
    requires client.subscriptionManager.subscriptions.Valid()
    modifies client, client.connectionManager, client.subscriptionManager, client.eventManager,
      client.reconnectionManager, client.adapters
    ensures client.Valid() && client.DidSubscriptions(step, effect)
    ensures RetryFollows(step, old(client.RetryNow()), client.RetryNow())
    ensures forall k :: 0 <= k < |client.adapters| ==>
      client.adapters[k] in old(client.adapters) || fresh(client.adapters[k])
  {
    hide ArchWebSocketClient.Valid, Later, TimersFollow, RetryFollows, ArchWebSocketClient.DidListeners,
      ArchWebSocketClient.DidConnection, ArchWebSocketClient.DidSockets, ArchWebSocketClient.DidSubscriptions,
      ArchWebSocketClient.DidUnsubscribing, ArchWebSocketClient.DidReconnection;
    effect := client.Perform(step);
  }

  method ReconnectionStep(client: ArchWebSocketClient, step: Step) returns (effect: Effect)
    requires client.Valid() && OnReconnection(step)
    modifies client, client.connectionManager, client.subscriptionManager, client.eventManager,
      client.reconnectionManager, client.adapters
    ensures client.Valid() && client.DidReconnection(step)
    ensures RetryFollows(step, old(client.RetryNow()), client.RetryNow())
    ensures forall k :: 0 <= k < |client.adapters| ==>
      client.adapters[k] in old(client.adapters) || fresh(client.adapters[k])
  {
    hide ArchWebSocketClient.Valid, Later, TimersFollow, RetryFollows, ArchWebSocketClient.DidListeners,
      ArchWebSocketClient.DidConnection, ArchWebSocketClient.DidSockets, ArchWebSocketClient.DidSubscriptions,
      ArchWebSocketClient.DidUnsubscribing, ArchWebSocketClient.DidReconnection;
    effect := client.Perform(step);
  }
}
