/**
  A network of hubs as a value. A hub copies a message to every endpoint except the sender's and
  passes it once to its target, under the id of a private handler; a hub whose target is another
  hub is an endpoint of that hub through this handler.
*/
module HubSpec {
  import opened Prelude

  type HubId = nat
  type ObjId = nat
  type Data = string
  type HandlerRef = Option<nat>

  /** What a hub's table maps an id to. A handler lives while it is its owner's current one. */
  datatype Endpoint = ClientEnd(client: ObjId) | HandlerEnd(handlerId: IoId, owner: HubId)

  datatype Target = NoTarget | HubTarget(hub: HubId) | OuterTarget(obj: ObjId)

  datatype HubState = HubState(table: map<IoId, Endpoint>, target: Target, handlerId: IoId, suspended: bool)

  type Net = map<HubId, HubState>

  /** What can be observed of one message: a hub handled it, an endpoint outside the network got a
      copy from a hub, with this reply handler or none, an outer target got it with a reply handler. */
  datatype Event =
    | Ran(hub: HubId)
    | Got(hub: HubId, port: IoId, client: ObjId, data: Data, handler: HandlerRef)
    | Reached(hub: HubId, obj: ObjId, via: IoId, data: Data, handler: HandlerRef)

  predicate Active(net: Net, k: HubId) {
    k in net && !net[k].suspended
  }

  /** The hub a message goes up to; a suspended target swallows everything. */
  function Parent(net: Net, k: HubId): Option<HubId>
    requires k in net
  {
    match net[k].target
    case HubTarget(p) => if Active(net, p) then Some(p) else None
    case _ => None
  }

  predicate Live(net: Net, e: Endpoint) {
    e.HandlerEnd? && e.owner in net && net[e.owner].handlerId == e.handlerId
  }

  /** A network with a depth for every hub; following targets goes up, so there is no cycle. */
  datatype Layers = Layers(net: Net, depth: map<HubId, nat>, bound: nat)

  predicate Layered(l: Layers) {
    && l.depth.Keys == l.net.Keys
    && (forall k :: k in l.net ==> l.depth[k] <= l.bound)
    && (forall k :: k in l.net && l.net[k].target.HubTarget? ==>
          l.net[k].target.hub in l.net && l.depth[l.net[k].target.hub] < l.depth[k])
  }

  /** Every hub is known to its target under its handler id, and under no other name anywhere. */
  predicate Wired(net: Net) {
    && (forall k :: k in net && Parent(net, k).Some? ==>
          && net[k].handlerId in net[Parent(net, k).value].table
          && net[Parent(net, k).value].table[net[k].handlerId] == HandlerEnd(net[k].handlerId, k))
    && (forall p, j :: p in net && j in net[p].table && Live(net, net[p].table[j]) ==>
          j == net[p].table[j].handlerId && net[net[p].table[j].owner].target == HubTarget(p))
    && (forall k :: k in net ==> net[k].handlerId !in net[k].table)
  }

  /** A finite network without cycles in which all hubs have been restarted: one or more trees. */
  type Forest = l: Layers | Layered(l) && Wired(l.net) witness Layers(map[], map[], 0)

  /** Going up from k one comes to c. */
  ghost predicate Under(t: Forest, k: HubId, c: HubId)
    requires k in t.net
    decreases t.depth[k]
  {
    k == c || (Parent(t.net, k).Some? && Under(t, Parent(t.net, k).value, c))
  }

  /** Where going up from k ends: the name of k's tree. */
  ghost function Top(t: Forest, k: HubId): (top: HubId)
    requires k in t.net
    ensures top in t.net
    decreases t.depth[k]
  {
    if Parent(t.net, k).Some? then Top(t, Parent(t.net, k).value) else k
  }

  /** An event that some endpoint or hub of the network may take part in. */
  predicate Legit(net: Net, alive: set<ObjId>, d: Data, handler: HandlerRef, e: Event) {
    Active(net, e.hub) &&
    match e
    case Ran(_) => true
    case Got(k, j, c, data, hd) =>
      j in net[k].table && net[k].table[j] == ClientEnd(c) && c in alive && data == d && hd == None
    case Reached(k, obj, via, data, hd) =>
      net[k].target == OuterTarget(obj) && obj in alive && via == net[k].handlerId && data == d && hd == handler
  }

  /** k lies behind the port `ioId` of h. */
  ghost predicate Behind(t: Forest, h: HubId, ioId: IoId, k: HubId)
    requires k in t.net && h in t.net
  {
    exists c :: c in t.net && Parent(t.net, c) == Some(h) && t.net[c].handlerId == ioId && Under(t, k, c)
  }

  /** The hubs a message that enters h under `ioId` must visit: all below h when it comes from the
      target, otherwise the whole tree except what lies behind the port it came through. */
  ghost predicate InRegion(t: Forest, h: HubId, ioId: IoId, k: HubId)
    requires k in t.net && h in t.net
  {
    if t.net[h].handlerId == ioId then Under(t, k, h)
    else Top(t, k) == Top(t, h) && !Behind(t, h, ioId, k)
  }

  /** The reference: the events of one message, defined without any traversal. */
  ghost predicate Expected(t: Forest, alive: set<ObjId>,
                           h: HubId, ioId: IoId, d: Data, handler: HandlerRef, e: Event)
    requires h in t.net
  {
    && Legit(t.net, alive, d, handler, e)
    && Active(t.net, h)
    && InRegion(t, h, ioId, e.hub)
    && !(e.Got? && e.hub == h && e.port == ioId)
    && !(e.Reached? && e.hub == h && t.net[h].handlerId == ioId)
  }
}
