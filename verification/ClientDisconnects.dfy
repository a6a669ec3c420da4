/** Disconnecting and reconnecting: exactly when a client that is disconnected may reconnect all the same. */
module ClientDisconnects {
  import opened Prelude
  import opened OrderedMaps
  import opened WebSocketTypes
  import opened WsAdapters
  import opened ConnectionManagers
  import opened SubscriptionManagers
  import opened ReconnectionManagers
  import opened ClientStates
  import opened ArchWebSocketClients
  import opened ClientSteps

  /** What reconnecting depends on once the client disconnects, in terms of the state before. */
  ghost function OnceDisconnected(client: ArchWebSocketClient): Retry
    reads client, client.connectionManager, client.reconnectionManager, client.adapters
  {
    var r := client.RetryNow();
    r.(timers := Cancelled(r.timers), stray := client.OtherStray(), free := true)
  }

  method Disconnect(client: ArchWebSocketClient)
    requires client.Valid()
    modifies client, client.connectionManager, client.subscriptionManager, client.eventManager,
      client.reconnectionManager, client.adapters
    ensures client.Valid() && client.adapters == old(client.adapters)
    ensures RetryFollows(Disconnects, old(client.RetryNow()), client.RetryNow())
    ensures client.RetryNow() == old(OnceDisconnected(client)) && client.RetryNow().free
  {
    hide ArchWebSocketClient.Valid, ArchWebSocketClient.AnyStray, ArchWebSocketClient.OtherStray;
    var effect := SocketsStep(client, Disconnects);
  }

  /** If the client may not reconnect once disconnected, then whatever happens after the disconnect, no reconnect
      timer is armed or fires as long as the user neither connects nor changes the options. */
  method DisconnectThenRun(client: ArchWebSocketClient, steps: seq<Step>) returns (ghost retries: seq<Retry>)
    requires client.Valid() && forall step :: step in steps ==> LeavesAlone(step)
    modifies client, client.connectionManager, client.subscriptionManager, client.eventManager,
      client.reconnectionManager, client.adapters
    ensures client.Valid() && RetriesOfRun([Disconnects] + steps, retries)
    ensures retries[0] == old(client.RetryNow()) && retries[1] == old(OnceDisconnected(client))
    ensures retries[|steps| + 1] == client.RetryNow()
    ensures !old(OnceDisconnected(client)).MayReconnect() ==>
      forall i :: 1 <= i <= |steps| ==> !Reconnects(retries[i], retries[i + 1])
  {
    hide ArchWebSocketClient.Valid, RetryFollows, OnceDisconnected, Reconnects, Retry.MayReconnect;
    ghost var before := client.RetryNow();
    Disconnect(client);
    client.HandlesInOrder();
    var issued, consumed;
    ghost var timers, rest;
    issued, consumed, timers, rest := client.Run(steps);
    RetriesPrepend(Disconnects, before, steps, rest);
    retries := [before] + rest;
    if !rest[0].MayReconnect() {
      QuietUpTo(steps, rest, 0, |steps|);
      forall i | 1 <= i <= |steps| ensures !Reconnects(retries[i], retries[i + 1]) {
        assert retries[i] == rest[i - 1] && retries[i + 1] == rest[i - 1 + 1];
      }
    }
  }

  lemma RetriesPrepend(step: Step, r: Retry, steps: seq<Step>, rest: seq<Retry>)
    requires RetriesOfRun(steps, rest) && RetryFollows(step, r, rest[0])
    ensures RetriesOfRun([step] + steps, [r] + rest)
  {
    hide RetryFollows;
    var allSteps, all := [step] + steps, [r] + rest;
    forall i | 0 <= i < |allSteps| ensures RetryFollows(allSteps[i], all[i], all[i + 1]) {
      if i > 0 {
        assert RetryFollows(steps[i - 1], rest[i - 1], rest[i - 1 + 1]);
      }
    }
  }

  // ---------- the other half: how it reconnects ----------

  /** A stray socket closes, after it opened if need be: a timer is armed. */
  method CloseStray(client: ArchWebSocketClient, k: nat, random: real)
      returns (steps: seq<Step>, ghost retries: seq<Retry>)
    requires client.Valid() && k < |client.adapters| && client.Stray(k) && client.reconnectionManager.ShouldReconnect()
    modifies client, client.connectionManager, client.subscriptionManager, client.eventManager,
      client.reconnectionManager, client.adapters
    ensures client.Valid() && steps != [] && forall step :: step in steps ==> LeavesAlone(step)
    ensures RetriesOfRun(steps, retries) && retries[0] == old(client.RetryNow())
    ensures Reconnects(retries[|steps| - 1], retries[|steps|])
  {
    hide ArchWebSocketClient.Valid, RetryFollows, AutoHandlers, Removed, ArchWebSocketClient.AnyStray;
    steps, retries := [], [client.RetryNow()];
    if !client.adapters[k].connected {
      RemovedElsewhere(client.adapters[k].handlers, Connect, ConnectOnce);
      var effect := SocketsStep(client, Step.SocketOpens(k));
      RetriesGrow(steps, retries, Step.SocketOpens(k), client.RetryNow());
      steps, retries := steps + [Step.SocketOpens(k)], retries + [client.RetryNow()];
    }
    var effect := SocketsStep(client, Step.SocketCloses(k, random));
    RetriesGrow(steps, retries, Step.SocketCloses(k, random), client.RetryNow());
    steps, retries := steps + [Step.SocketCloses(k, random)], retries + [client.RetryNow()];
  }

  method FailOne(client: ArchWebSocketClient, random: real) returns (steps: seq<Step>, ghost retries: seq<Retry>)
    requires client.Valid() && client.reconnectionManager.flying != {} && client.reconnectionManager.ShouldReconnect()
    modifies client, client.connectionManager, client.subscriptionManager, client.eventManager,
      client.reconnectionManager, client.adapters
    ensures client.Valid() && steps != [] && forall step :: step in steps ==> LeavesAlone(step)
    ensures RetriesOfRun(steps, retries) && retries[0] == old(client.RetryNow())
    ensures Reconnects(retries[|steps| - 1], retries[|steps|])
  {
    hide ArchWebSocketClient.Valid, ArchWebSocketClient.AnyStray;
    var timer :| timer in client.reconnectionManager.flying;
    steps, retries := [ReconnectFails(timer, random)], [client.RetryNow()];
    var effect := ReconnectionStep(client, ReconnectFails(timer, random));
    retries := retries + [client.RetryNow()];
  }

  method FireOne(client: ArchWebSocketClient) returns (steps: seq<Step>, ghost retries: seq<Retry>)
    requires client.Valid() && client.reconnectionManager.live != {}
    modifies client, client.connectionManager, client.subscriptionManager, client.eventManager,
      client.reconnectionManager, client.adapters
    ensures client.Valid() && steps != [] && forall step :: step in steps ==> LeavesAlone(step)
    ensures RetriesOfRun(steps, retries) && retries[0] == old(client.RetryNow())
    ensures Reconnects(retries[|steps| - 1], retries[|steps|])
  {
    hide ArchWebSocketClient.Valid, ArchWebSocketClient.AnyStray;
    client.HandlesInOrder();
    var timer :| timer in client.reconnectionManager.live;
    steps, retries := [ReconnectTimerFires(timer, CreatesNothing)], [client.RetryNow()];
    var effect := ReconnectionStep(client, ReconnectTimerFires(timer, CreatesNothing));
    retries := retries + [client.RetryNow()];
    assert timer in client.reconnectionManager.flying;
  }

  method SucceedOne(client: ArchWebSocketClient) returns (step: Step)
    requires client.Valid() && client.reconnectionManager.flying != {}
    modifies client, client.connectionManager, client.subscriptionManager, client.eventManager,
      client.reconnectionManager, client.adapters
    ensures client.Valid() && LeavesAlone(step)
    ensures RetryFollows(step, old(client.RetryNow()), client.RetryNow())
    ensures client.adapters == old(client.adapters)
      && client.reconnectionManager.live == old(client.reconnectionManager.live)
    ensures |client.reconnectionManager.flying| == |old(client.reconnectionManager.flying)| - 1
    ensures forall k :: 0 <= k < |client.adapters| ==> (client.Stray(k) <==> old(client.Stray(k)))
    ensures client.reconnectionManager.enabled == old(client.reconnectionManager.enabled)
    ensures client.reconnectionManager.maxAttempts == old(client.reconnectionManager.maxAttempts)
    ensures client.reconnectionManager.currentAttempt == 0
  {
    hide ArchWebSocketClient.Valid, RetryFollows, AutoHandlers;
    var timer :| timer in client.reconnectionManager.flying;
    step := ReconnectSucceeds(timer);
    ghost var flying := client.reconnectionManager.flying;
    var effect := ReconnectionStep(client, step);
    OneLess(flying, timer);
  }

  /** A client that may reconnect does so in at most three steps, none of them a connect or a change of the options. */
  method Reconnect(client: ArchWebSocketClient, random: real) returns (steps: seq<Step>, ghost retries: seq<Retry>)
    requires client.Valid() && client.RetryNow().MayReconnect()
    modifies client, client.connectionManager, client.subscriptionManager, client.eventManager,
      client.reconnectionManager, client.adapters
    ensures client.Valid() && steps != [] && forall step :: step in steps ==> LeavesAlone(step)
    ensures RetriesOfRun(steps, retries) && retries[0] == old(client.RetryNow())
    ensures Reconnects(retries[|steps| - 1], retries[|steps|])
  {
    hide ArchWebSocketClient.Valid, RetryFollows, ArchWebSocketClient.Stray, Reconnects, HandlesBelowNext;
    if client.reconnectionManager.live != {} {
      steps, retries := FireOne(client);
    } else if client.reconnectionManager.ShouldReconnect() {
      if client.reconnectionManager.flying != {} {
        steps, retries := FailOne(client, random);
      } else {
        var k :| 0 <= k < |client.adapters| && client.Stray(k);
        steps, retries := CloseStray(client, k, random);
      }
    } else {
      steps, retries := SucceedFirst(client, random);
    }
  }

  /** The counter starts over with one success, and after it an attempt is left. */
  method SucceedFirst(client: ArchWebSocketClient, random: real) returns (steps: seq<Step>, ghost retries: seq<Retry>)
    requires client.Valid() && client.RetryNow().AttemptLeftAfterReset() && client.reconnectionManager.flying != {}
    requires |client.reconnectionManager.flying| >= 2 || client.AnyStray()
    modifies client, client.connectionManager, client.subscriptionManager, client.eventManager,
      client.reconnectionManager, client.adapters
    ensures client.Valid() && steps != [] && forall step :: step in steps ==> LeavesAlone(step)
    ensures RetriesOfRun(steps, retries) && retries[0] == old(client.RetryNow())
    ensures Reconnects(retries[|steps| - 1], retries[|steps|])
  {
    hide ArchWebSocketClient.Valid, RetryFollows, ArchWebSocketClient.Stray, Reconnects, HandlesBelowNext;
    ghost var before := client.RetryNow();
    ghost var stray := client.AnyStray();
    var first := SucceedOne(client);
    var rest;
    ghost var restRetries;
    if client.reconnectionManager.flying != {} {
      rest, restRetries := FailOne(client, random);
    } else {
      var k :| 0 <= k < |client.adapters| && client.Stray(k);
      rest, restRetries := CloseStray(client, k, random);
    }
    RetriesPrepend(first, before, rest, restRetries);
    steps, retries := [first] + rest, [before] + restRetries;
    assert retries[|steps| - 1] == restRetries[|rest| - 1] && retries[|steps|] == restRetries[|rest|];
  }

  /** If the client may reconnect once disconnected, some run after the disconnect, without another call by the user,
      arms or fires a reconnect timer. */
  method DisconnectThenReconnect(client: ArchWebSocketClient, random: real)
      returns (steps: seq<Step>, ghost retries: seq<Retry>)
    requires client.Valid() && OnceDisconnected(client).MayReconnect()
    modifies client, client.connectionManager, client.subscriptionManager, client.eventManager,
      client.reconnectionManager, client.adapters
    ensures client.Valid() && steps != [] && forall step :: step in steps ==> LeavesAlone(step)
    ensures RetriesOfRun([Disconnects] + steps, retries)
    ensures retries[0] == old(client.RetryNow()) && retries[1] == old(OnceDisconnected(client))
    ensures Reconnects(retries[|steps|], retries[|steps| + 1])
  {
    hide ArchWebSocketClient.Valid, RetryFollows, OnceDisconnected, Reconnects, Retry.MayReconnect;
    ghost var before := client.RetryNow();
    Disconnect(client);
    ghost var rest;
    steps, rest := Reconnect(client, random);
    RetriesPrepend(Disconnects, before, steps, rest);
    retries := [before] + rest;
    assert retries[|steps|] == rest[|steps| - 1] && retries[|steps| + 1] == rest[|steps|];
  }
}
