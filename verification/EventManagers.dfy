/** The registry of the caller's listeners (src/websocket-client/managers/event-manager.ts). */
module EventManagers {
  import opened WebSocketTypes

  class EventManager {
    var listeners: Table

    constructor ()
      ensures listeners == map[]
    {
      listeners := map[];
    }

    method AddListener(event: Event, callback: Handler)
      modifies this
      ensures listeners == Added(old(listeners), event, callback)
    {
      if event !in listeners {
        listeners := listeners[event := {}];
      }
      listeners := listeners[event := listeners[event] + {callback}];
    }

    /** The last listener of an event takes the entry with it. */
    method RemoveListener(event: Event, callback: Handler)
      modifies this
      ensures listeners ==
        if At(old(listeners), event) - {callback} == {} && event in old(listeners) then old(listeners) - {event}
        else Removed(old(listeners), event, callback)
    {
      if event in listeners {
        listeners := listeners[event := listeners[event] - {callback}];
        if listeners[event] == {} {
          listeners := listeners - {event};
        }
      }
    }

    method RemoveAllListeners(event: Event)
      modifies this
      ensures listeners == old(listeners) - {event}
    {
      listeners := listeners - {event};
    }

    function GetListeners(event: Event): set<Handler>
      reads this
    {
      At(listeners, event)
    }
  }
}
