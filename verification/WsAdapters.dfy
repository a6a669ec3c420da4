/** The socket wrapper and its handler table (src/websocket-client/managers/ws-adapter.ts). */
module WsAdapters {
  import opened Prelude
  import opened WebSocketTypes

  datatype ReadyState = Connecting | Open | Closed

  /** What the WebSocket factory does when asked for a socket. */
  datatype Factory = Creates | CreatesNothing | Throws

  class WebSocketAdapter {
    var handlers: Table
    var connected: bool
    var ws: Option<ReadyState>

    constructor ()
      ensures handlers == map[] && !connected && ws == None
    {
      handlers, connected, ws := map[], false, None;
    }

    method On(event: Event, callback: Handler)
      modifies this`handlers
      ensures handlers == Added(old(handlers), event, callback)
    {
      if event !in handlers {
        handlers := handlers[event := {}];
      }
      handlers := handlers[event := handlers[event] + {callback}];
    }

    method Off(event: Event, callback: Handler)
      modifies this`handlers
      ensures handlers == Removed(old(handlers), event, callback)
    {
      if event in handlers {
        handlers := handlers[event := handlers[event] - {callback}];
      }
    }

    /** Opening is idempotent; without a socket only an error event is raised. */
    method ConnectSocket(factory: Factory)
      modifies this`ws
      ensures ws ==
        if old(ws) == Some(Open) || old(ws) == Some(Connecting) || factory != Creates then old(ws) else Some(Connecting)
    {
      if ws == Some(Open) || ws == Some(Connecting) {
        return;
      }
      if factory == Creates {
        ws := Some(Connecting);
      }
    }

    /** The handlers of a dispatch, each once: the set is copied before the first of them runs. */
    method Snapshot(event: Event) returns (run: seq<Handler>)
      ensures NoDup(run) && Elements(run) == At(handlers, event)
    {
      run := [];
      var rest := At(handlers, event);
      while rest != {}
        invariant NoDup(run)
        invariant Elements(run) == At(handlers, event) - rest
        invariant rest <= At(handlers, event)
        decreases rest
      {
        var h :| h in rest;
        rest := rest - {h};
        assert Elements(run + [h]) == Elements(run) + {h};
        assert h !in Elements(run);
        run := run + [h];
      }
    }

    /** Whether `emit` does anything: only an open socket passes events on. */
    predicate CanEmit()
      reads this`ws
    {
      ws == Some(Open)
    }

    method DisconnectSocket()
      modifies this`ws
      ensures ws == None
    {
      ws := None;
    }

    /** The socket's open event. */
    method Opens()
      modifies this`ws, this`connected
      ensures connected && ws == if old(ws) == None then None else Some(Open)
    {
      connected := true;
      if ws != None {
        ws := Some(Open);
      }
    }

    /** The socket's close event: a disconnect is announced only by a socket that was connected. */
    method Closes() returns (wasConnected: bool)
      modifies this`ws, this`connected
      ensures wasConnected == old(connected) && !connected
      ensures ws == if old(ws) == None then None else Some(Closed)
    {
      wasConnected := connected;
      connected := false;
      if ws != None {
        ws := Some(Closed);
      }
    }
  }
}
