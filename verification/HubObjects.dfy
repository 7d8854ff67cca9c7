/** hub and its target_handler as objects, and flooding as the recursion it is. */
module HubObjects {
  import opened Prelude
  import opened HubSpec
  import opened HubTree
  import opened HubLifecycle

  /** What the outside of the network observes. */
  class Wire {
    var log: seq<Event>

    constructor ()
      ensures log == []
    {
      log := [];
    }

    method Note(e: Event)
      modifies this
      ensures log == old(log) + [e]
    {
      log := log + [e];
    }
  }

  /** An element of `_map`: an object outside the network, or another hub's handler. */
  datatype Slot = ToClient(obj: ObjId) | ToHandler(handler: TargetHandler)

  /** `_wtarget` */
  datatype Out = Nowhere | ToHub(hub: Hub) | ToOuter(obj: ObjId)

  /** The network the objects form: `hubs` finds them by name, `net` is their state. */
  ghost predicate Tied(hubs: map<HubId, Hub>, net: Net)
    reads hubs.Values
  {
    && hubs.Keys == net.Keys
    && forall k :: k in hubs ==> hubs[k].id == k && hubs[k].Shows(hubs, net[k])
  }

  /** The events of `out` are exactly the expected ones, once each. */
  ghost predicate ExactlyExpected(out: seq<Event>, t: Forest, alive: set<ObjId>,
                                  h: HubId, ioId: IoId, d: Data, handler: HandlerRef)
    requires h in t.net
  {
    forall e :: multiset(out)[e] == One(Expected(t, alive, h, ioId, d, handler, e))
  }

  /** `out` is what the given ports give rise to, once each. */
  ghost predicate ExactlyPorts(out: seq<Event>, t: Forest, alive: set<ObjId>,
                               h: HubId, ioId: IoId, ports: set<IoId>, d: Data)
    requires h in t.net
  {
    forall e :: multiset(out)[e] == One(ViaPorts(t, alive, h, ioId, ports, d, e))
  }

  ghost predicate ExactlyPort(out: seq<Event>, t: Forest, alive: set<ObjId>, h: HubId, j: IoId, d: Data)
    requires h in t.net
  {
    forall e :: multiset(out)[e] == One(ViaPort(t, alive, h, j, d, e))
  }

  ghost predicate ExactlyTarget(out: seq<Event>, t: Forest, alive: set<ObjId>,
                                h: HubId, ioId: IoId, d: Data, handler: HandlerRef)
    requires h in t.net
  {
    forall e :: multiset(out)[e] == One(ViaTargetUnless(t, alive, h, ioId, d, handler, e))
  }

  lemma Appended(log: seq<Event>, out: seq<Event>, more: seq<Event>)
    ensures (log + out) + more == log + (out + more)
  {
  }

  lemma DoneStep(keys: set<IoId>, rest: set<IoId>, j: IoId)
    requires rest <= keys && j in rest
    ensures keys - (rest - {j}) == (keys - rest) + {j} && |rest - {j}| < |rest|
  {
  }

  /** What handling one endpoint must produce, by kind of endpoint. */
  ghost predicate Handled(out: seq<Event>, t: Forest, alive: set<ObjId>, h: HubId, j: IoId, d: Data)
    requires h in t.net && j in t.net[h].table
  {
    match t.net[h].table[j]
    case ClientEnd(o) => out == if o in alive then [Got(h, j, o, d, None)] else []
    case HandlerEnd(i, c) =>
      if Live(t.net, HandlerEnd(i, c)) then ExactlyExpected(out, t, alive, c, i, d, None) else out == []
  }

  lemma HandledIsExact(out: seq<Event>, t: Forest, alive: set<ObjId>, h: HubId, j: IoId, d: Data)
    requires Active(t.net, h) && j in t.net[h].table && Handled(out, t, alive, h, j, d)
    ensures ExactlyPort(out, t, alive, h, j, d)
  {
    if t.net[h].table[j].HandlerEnd? && Live(t.net, t.net[h].table[j]) {
      var c := t.net[h].table[j].owner;
      forall e ensures multiset(out)[e] == One(ViaPort(t, alive, h, j, d, e)) {
        assert Active(t.net, c) ==> ChildAt(t.net, h, j, c);
      }
    }
  }

  /** The three parts of one hub's work together. */
  lemma PartsMakeWhole(copies: seq<Event>, up: seq<Event>, t: Forest, alive: set<ObjId>,
                       h: HubId, ioId: IoId, d: Data, handler: HandlerRef)
    requires Active(t.net, h)
    requires ExactlyPorts(copies, t, alive, h, ioId, t.net[h].table.Keys, d)
    requires ExactlyTarget(up, t, alive, h, ioId, d, handler)
    ensures ExactlyExpected([Ran(h)] + copies + up, t, alive, h, ioId, d, handler)
  {
    forall e ensures multiset([Ran(h)] + copies + up)[e]
      == One(Expected(t, alive, h, ioId, d, handler, e))
    {
      Partition(t, alive, h, ioId, d, handler, e);
      assert multiset([Ran(h)] + copies + up) == multiset{Ran(h)} + multiset(copies) + multiset(up);
    }
  }

  lemma OneMorePort(out: seq<Event>, more: seq<Event>, t: Forest, alive: set<ObjId>,
                    h: HubId, ioId: IoId, done: set<IoId>, j: IoId, d: Data)
    requires Active(t.net, h) && j !in done
    requires ExactlyPorts(out, t, alive, h, ioId, done, d)
    requires if j == ioId then more == [] else ExactlyPort(more, t, alive, h, j, d)
    ensures ExactlyPorts(out + more, t, alive, h, ioId, done + {j}, d)
  {
    forall e ensures multiset(out + more)[e] == One(ViaPorts(t, alive, h, ioId, done + {j}, d, e)) {
      assert multiset(out + more)[e] == multiset(out)[e] + multiset(more)[e];
      if ViaPort(t, alive, h, j, d, e) {
        forall i | ViaPort(t, alive, h, i, d, e) ensures i == j {
          PortsApart(t, alive, h, i, j, d, e);
        }
      }
    }
  }

  class TargetHandler {
    const id: IoId
    const owner: Hub

    constructor (id: IoId, owner: Hub)
      ensures this.id == id && this.owner == owner
    {
      this.id, this.owner := id, owner;
    }

    method PerformIo(w: Wire, d: Data, cb: HandlerRef, alive: set<ObjId>,
                     ghost hubs: map<HubId, Hub>, ghost t: Forest)
      returns (ghost out: seq<Event>)
      requires Tied(hubs, t.net) && owner.id in hubs && hubs[owner.id] == owner
      modifies w
      ensures w.log == old(w.log) + out
      ensures ExactlyExpected(out, t, alive, owner.id, id, d, cb)
      decreases if owner.handlerId == id then 0 else 1,
                if owner.handlerId == id then t.bound - t.depth[owner.id] else t.depth[owner.id], 4
    {
      out := owner.PerformIo(w, d, id, cb, alive, hubs, t);
    }
  }

  class Hub {
    const id: HubId
    var table: map<IoId, Slot>
    var target: Out
    var targetHandler: TargetHandler?
    var handlerId: IoId
    var suspended: bool

    ghost predicate ShowsSlot(hubs: map<HubId, Hub>, slot: Slot, e: Endpoint)
      reads hubs.Values`targetHandler, hubs.Values`handlerId
    {
      match slot
      case ToClient(o) => e == ClientEnd(o)
      case ToHandler(h) =>
        && h.owner.id in hubs && hubs[h.owner.id] == h.owner
        && e == HandlerEnd(h.id, h.owner.id)
        && (h.owner.targetHandler == h <==> h.owner.handlerId == h.id)
    }

    ghost predicate Shows(hubs: map<HubId, Hub>, s: HubState)
      reads this, hubs.Values`targetHandler, hubs.Values`handlerId
    {
      && table.Keys == s.table.Keys
      && (forall j :: j in table ==> ShowsSlot(hubs, table[j], s.table[j]))
      && (match target
          case Nowhere => s.target == NoTarget
          case ToOuter(o) => s.target == OuterTarget(o)
          case ToHub(p) => s.target == HubTarget(p.id) && p.id in hubs && hubs[p.id] == p)
      && handlerId == s.handlerId && suspended == s.suspended
    }

    /** The endpoint under j gets its copy. */
    method SendTo(w: Wire, j: IoId, d: Data, ioId: IoId, alive: set<ObjId>,
                  ghost hubs: map<HubId, Hub>, ghost t: Forest)
      returns (ghost out: seq<Event>)
      requires Tied(hubs, t.net) && id in hubs && hubs[id] == this
      requires !suspended && j in table
      modifies w
      ensures w.log == old(w.log) + out
      ensures if j == ioId then out == [] else ExactlyPort(out, t, alive, id, j, d)
      decreases if handlerId == ioId then 0 else 1,
                if handlerId == ioId then t.bound - t.depth[id] else t.depth[id], 1
    {
      out := [];
      if j != ioId {
        match table[j] {
          case ToClient(o) =>
            if o in alive {
              w.Note(Got(id, j, o, d, None));
              out := [Got(id, j, o, d, None)];
            }
          case ToHandler(h) =>
            if h.owner.targetHandler == h {
              out := h.PerformIo(w, d, None, alive, hubs, t);
            }
        }
        HandledIsExact(out, t, alive, id, j, d);
      }
    }

    /** The message goes to the target under the id of the private handler, unless it came from
        there. */
    method SendUp(w: Wire, d: Data, ioId: IoId, handler: HandlerRef, alive: set<ObjId>,
                  ghost hubs: map<HubId, Hub>, ghost t: Forest)
      returns (ghost out: seq<Event>)
      requires Tied(hubs, t.net) && id in hubs && hubs[id] == this
      requires !suspended
      modifies w
      ensures w.log == old(w.log) + out
      ensures ExactlyTarget(out, t, alive, id, ioId, d, handler)
      decreases if handlerId == ioId then 0 else 1,
                if handlerId == ioId then t.bound - t.depth[id] else t.depth[id], 1
    {
      out := [];
      if handlerId != ioId {
        match target
        case Nowhere =>
        case ToOuter(o) =>
          if o in alive {
            w.Note(Reached(id, o, handlerId, d, handler));
            out := [Reached(id, o, handlerId, d, handler)];
          }
        case ToHub(p) =>
          assert t.net[id].target == HubTarget(p.id);
          out := p.PerformIo(w, d, handlerId, handler, alive, hubs, t);
      }
    }

    /** The loop over the map: every endpoint but the sender's, in any order. */
    method SendAll(w: Wire, d: Data, ioId: IoId, alive: set<ObjId>,
                   ghost hubs: map<HubId, Hub>, ghost t: Forest)
      returns (ghost out: seq<Event>)
      requires Tied(hubs, t.net) && id in hubs && hubs[id] == this
      requires !suspended
      modifies w
      ensures w.log == old(w.log) + out
      ensures ExactlyPorts(out, t, alive, id, ioId, t.net[id].table.Keys, d)
      decreases if handlerId == ioId then 0 else 1,
                if handlerId == ioId then t.bound - t.depth[id] else t.depth[id], 2
    {
      out := [];
      var rest := table.Keys;
      ghost var start, keys, done: set<IoId> := w.log, table.Keys, {};
      assert w.log == start + out;
      while rest != {}
        invariant w.log == start + out
        invariant rest <= keys && done == keys - rest
        invariant ExactlyPorts(out, t, alive, id, ioId, done, d)
        decreases |rest|
      {
        var j :| j in rest;
        ghost var more := SendTo(w, j, d, ioId, alive, hubs, t);
        Appended(start, out, more);
        OneMorePort(out, more, t, alive, id, ioId, done, j, d);
        DoneStep(keys, rest, j);
        out, done := out + more, done + {j};
        rest := rest - {j};
      }
    }

    /** perform_io: the events of one message, transitively, are exactly the expected ones. */
    method PerformIo(w: Wire, d: Data, ioId: IoId, handler: HandlerRef, alive: set<ObjId>,
                     ghost hubs: map<HubId, Hub>, ghost t: Forest)
      returns (ghost out: seq<Event>)
      requires Tied(hubs, t.net) && id in hubs && hubs[id] == this
      modifies w
      ensures w.log == old(w.log) + out
      ensures ExactlyExpected(out, t, alive, id, ioId, d, handler)
      decreases if handlerId == ioId then 0 else 1,
                if handlerId == ioId then t.bound - t.depth[id] else t.depth[id], 3
    {
      out := [];
      if suspended {
        return;
      }
      ghost var start := w.log;
      w.Note(Ran(id));
      ghost var copies := SendAll(w, d, ioId, alive, hubs, t);
      ghost var up := SendUp(w, d, ioId, handler, alive, hubs, t);
      out := [Ran(id)] + copies + up;
      Appended(start, [Ran(id)], copies);
      Appended(start, [Ran(id)] + copies, up);
      PartsMakeWhole(copies, up, t, alive, id, ioId, d, handler);
    }

    // ----- Registration

    ghost predicate ShowsTable(hubs: map<HubId, Hub>, slots: map<IoId, Slot>, view: map<IoId, Endpoint>)
      reads hubs.Values`targetHandler, hubs.Values`handlerId
    {
      slots.Keys == view.Keys && forall j :: j in slots ==> ShowsSlot(hubs, slots[j], view[j])
    }

    /** A hub's own table changes; the rest of the network does not notice. */
    method SetTable(slots: map<IoId, Slot>, ghost view: map<IoId, Endpoint>, ghost hubs: map<HubId, Hub>, ghost net: Net)
      requires Tied(hubs, net) && id in hubs && hubs[id] == this && ShowsTable(hubs, slots, view)
      modifies this`table
      ensures table == slots && Tied(hubs, WithTable(net, id, view))
    {
      table := slots;
      ghost var now := WithTable(net, id, view);
      forall k | k in hubs && k != id ensures hubs[k].Shows(hubs, now[k]) {
        assert now[k] == net[k] && hubs[k] != this;
      }
    }

    method RegIo(ioId: IoId, slot: Slot, ghost e: Endpoint, ghost hubs: map<HubId, Hub>, ghost net: Net)
      requires Tied(hubs, net) && id in hubs && hubs[id] == this && ShowsSlot(hubs, slot, e)
      modifies this`table
      ensures Tied(hubs, RegNet(net, id, ioId, e))
    {
      if suspended {
        return;
      }
      SetTable(table[ioId := slot], net[id].table[ioId := e], hubs, net);
    }

    /** The handler is replaced; handlers that others still hold have expired. */
    method Rename(newId: IoId, ghost hubs: map<HubId, Hub>, ghost net: Net)
      requires Tied(hubs, net) && id in hubs && hubs[id] == this && NotYetUsed(net, newId)
      modifies this`handlerId, this`targetHandler
      ensures handlerId == newId && targetHandler != null && fresh(targetHandler)
      ensures targetHandler.id == newId && targetHandler.owner == this
      ensures Tied(hubs, net[id := net[id].(handlerId := newId)])
    {
      handlerId := newId;
      targetHandler := new TargetHandler(handlerId, this);
      ghost var now := net[id := net[id].(handlerId := newId)];
      forall k | k in hubs ensures hubs[k].Shows(hubs, now[k]) {
        forall j | j in hubs[k].table ensures hubs[k].ShowsSlot(hubs, hubs[k].table[j], now[k].table[j]) {
          assert now[k].table[j] == net[k].table[j];
        }
      }
    }

    /** restart: `newId` is what create_id returns. */
    method Restart(newId: IoId, alive: set<ObjId>, ghost hubs: map<HubId, Hub>, ghost net: Net)
      requires Tied(hubs, net) && id in hubs && hubs[id] == this
      requires NotYetUsed(net, newId)
      modifies this`handlerId, this`targetHandler, hubs.Values`table
      ensures Tied(hubs, RestartNet(net, id, newId, alive))
    {
      match target
      case Nowhere =>
      case ToOuter(o) =>
        if o in alive {
          Rename(newId, hubs, net);
        }
      case ToHub(p) =>
        Rename(newId, hubs, net);
        p.RegIo(handlerId, ToHandler(targetHandler), HandlerEnd(newId, id), hubs, net[id := net[id].(handlerId := newId)]);
    }

    method RemoveEntry(ioId: IoId, ghost hubs: map<HubId, Hub>, ghost net: Net)
      requires Tied(hubs, net) && id in hubs && hubs[id] == this
      modifies this`table
      ensures Tied(hubs, WithTable(net, id, net[id].table - {ioId}))
    {
      SetTable(table - {ioId}, net[id].table - {ioId}, hubs, net);
    }

    /** The id is first removed from the target and what is above it. */
    method UnregAbove(ioId: IoId, ghost hubs: map<HubId, Hub>, ghost l: Chart) returns (ghost above: Net)
      requires Tied(hubs, l.net) && id in hubs && hubs[id] == this
      modifies hubs.Values`table
      ensures above == if l.net[id].target.HubTarget? then UnregNet(l, l.net[id].target.hub, ioId) else l.net
      ensures Tied(hubs, above)
      decreases l.depth[id], 0
    {
      above := l.net;
      match target {
        case ToHub(p) =>
          p.UnregIo(ioId, hubs, l);
          above := UnregNet(l, p.id, ioId);
        case _ =>
      }
    }

    method UnregIo(ioId: IoId, ghost hubs: map<HubId, Hub>, ghost l: Chart)
      requires Tied(hubs, l.net) && id in hubs && hubs[id] == this
      modifies hubs.Values`table
      ensures Tied(hubs, UnregNet(l, id, ioId))
      decreases l.depth[id], 1
    {
      UnregUnfolds(l, id, ioId);
      if suspended {
        return;
      }
      ghost var above := UnregAbove(ioId, hubs, l);
      RemoveEntry(ioId, hubs, above);
    }
  }

  /** No handler with this id was ever put into a table. */
  predicate NotYetUsed(net: Net, newId: IoId) {
    forall k, j :: k in net && j in net[k].table && net[k].table[j].HandlerEnd? ==> net[k].table[j].handlerId != newId
  }
}
