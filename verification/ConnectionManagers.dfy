/** Which adapter is current, and whether a connection attempt is under way
    (src/websocket-client/managers/connection-manager.ts). */
module ConnectionManagers {
  import opened Prelude
  import opened WebSocketTypes
  import opened WsAdapters

  datatype ConnectStart = AlreadyConnected | AttemptPending | Started | Failed

  class ConnectionManager {
    var socket: WebSocketAdapter?
    var isConnecting: bool

    constructor ()
      ensures socket == null && !isConnecting
    {
      socket, isConnecting := null, false;
    }

    predicate IsConnected()
      reads this, if socket == null then {} else {socket}
    {
      socket != null && socket.connected
    }

    /** The handlers of a new adapter before the client attaches its own. */
    static function InitialHandlers(): Table {
      map[Connect := {ConnectionEvents, ConnectOnce}, Disconnect := {ConnectionEvents}, Error := {ConnectionEvents}]
    }

    /** The part of `connect` up to its first await. A new attempt always replaces the adapter, even when it fails. */
    method StartConnect(factory: Factory) returns (r: ConnectStart)
      modifies this
      ensures r == AlreadyConnected <==> old(IsConnected())
      ensures r == AttemptPending <==> old(isConnecting && !IsConnected())
      ensures r == AlreadyConnected || r == AttemptPending ==>
        socket == old(socket) && isConnecting == old(isConnecting)
      ensures r == Started || r == Failed ==>
        && fresh(socket) && !socket.connected && socket.handlers == InitialHandlers()
        && isConnecting == (r == Started)
        && socket.ws == (if factory == Creates then Some(Connecting) else None)
        && (r == Failed <==> factory == Throws)
      ensures r == Started || r == Failed ==> forall e ::
        At(socket.handlers, e) == if e == Connect then {ConnectionEvents, ConnectOnce}
                                  else if e == Disconnect || e == Error then {ConnectionEvents} else {}
    {
      if IsConnected() {
        return AlreadyConnected;
      }
      if isConnecting {
        return AttemptPending;
      }
      isConnecting := true;
      var adapter := new WebSocketAdapter();
      socket := adapter;
      adapter.On(Connect, ConnectionEvents);
      adapter.On(Disconnect, ConnectionEvents);
      adapter.On(Error, ConnectionEvents);
      adapter.On(Connect, ConnectOnce);
      assert adapter.handlers.Keys == {Connect, Disconnect, Error};
      assert adapter.handlers[Connect] == {ConnectionEvents, ConnectOnce};
      assert adapter.handlers[Disconnect] == {ConnectionEvents} == adapter.handlers[Error];
      adapter.ConnectSocket(factory);
      if factory == Throws {
        isConnecting := false;
        return Failed;
      }
      return Started;
    }

    method ConnectTimesOut()
      modifies this`isConnecting
      ensures !isConnecting
    {
      isConnecting := false;
    }

    /** An adapter opens; the one-shot handler of its attempt ends the attempt. */
    method SocketOpens(adapter: WebSocketAdapter) returns (run: seq<Handler>)
      modifies this`isConnecting, adapter
      ensures adapter.connected && adapter.ws == if old(adapter.ws) == None then None else Some(Open)
      ensures socket == old(socket)
      ensures adapter.handlers == Removed(old(adapter.handlers), Connect, ConnectOnce)
      ensures isConnecting == (old(isConnecting) && ConnectOnce !in At(old(adapter.handlers), Connect))
      ensures NoDup(run) && Elements(run) == At(old(adapter.handlers), Connect)
    {
      adapter.Opens();
      run := adapter.Snapshot(Connect);
      assert ConnectOnce in run <==> ConnectOnce in Elements(run);
      if ConnectOnce in run {
        isConnecting := false;
      }
      adapter.Off(Connect, ConnectOnce);
    }

    method DisconnectSocket()
      modifies this`socket, (if socket == null then {} else {socket})`ws
      ensures socket == null
      ensures old(socket) != null ==> old(socket).ws == None
    {
      if socket != null {
        socket.DisconnectSocket();
        socket := null;
      }
    }
  }
}
