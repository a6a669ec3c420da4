/** Events, handlers and handler tables of the WebSocket client (src/websocket-client/types,
    src/websocket-client/managers/event-manager.ts). */
module WebSocketTypes {

  datatype EventTopic = Block | Transaction | AccountUpdate | RolledbackTransactions | ReappliedTransactions | DKG

  /** Ids of the subscription map: `pending-<topic>-<request>`, or the id the server chose. */
  datatype SubscriptionId = Pending(topic: EventTopic, request: nat) | Server(id: string)

  /** Event names; the templates that embed an id are injective. */
  datatype Event =
    | Topic(topic: EventTopic)
    | Connect
    | Disconnect
    | Error
    | SubscriptionResponse
    | SubscriptionResponseFor(request: nat)
    | UnsubscribeResponse
    | UnsubscribeResponseFor(id: SubscriptionId)

  /** A function object. Callbacks are the caller's; every closure the client creates has an identity of its own. */
  datatype Handler =
    | Callback(callback: nat)
    | AutoReconnect(binding: nat)
    | ConnectionEvents
    | ConnectOnce
    | Reemit(setup: nat)
    | SubscribeOnce(request: nat)
    | UnsubscribeOnce(call: nat)

  /** A map from events to sets of handlers; a missing entry and an empty one mean the same. */
  type Table = map<Event, set<Handler>>

  function At(t: Table, e: Event): set<Handler> {
    if e in t then t[e] else {}
  }

  function Added(t: Table, e: Event, h: Handler): Table {
    t[e := At(t, e) + {h}]
  }

  function Removed(t: Table, e: Event, h: Handler): Table {
    if e in t then t[e := t[e] - {h}] else t
  }

  /** The table after one one-shot event lost its handlers. */
  ghost predicate LosesOneShot(t: Table, t': Table, request: nat) {
    && At(t', SubscriptionResponseFor(request)) == {}
    && forall e :: e != SubscriptionResponseFor(request) ==> At(t', e) == At(t, e)
  }
}
