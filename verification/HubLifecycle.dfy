/** Registration, unregistration and restart of hubs, and what any mix of them keeps. */
module HubLifecycle {
  import opened Prelude
  import opened HubSpec

  type Chart = l: Layers | Layered(l) witness Layers(map[], map[], 0)

  /** `owners`: every handler id ever created, with the hub it was created for. */
  datatype World = World(chart: Layers, owners: map<IoId, HubId>)

  datatype Op =
    | Restart(hub: HubId, newId: IoId, alive: set<ObjId>)
    | Join(hub: HubId, id: IoId, client: ObjId)
    | Leave(hub: HubId, id: IoId)

  function WithTable(net: Net, k: HubId, table: map<IoId, Endpoint>): Net
    requires k in net
  {
    net[k := net[k].(table := table)]
  }

  function RegNet(net: Net, k: HubId, id: IoId, e: Endpoint): Net
    requires k in net
  {
    if net[k].suspended then net else WithTable(net, k, net[k].table[id := e])
  }

  /** restart of hub k: a new handler, registered with the target; the old one expires. */
  function RestartNet(net: Net, k: HubId, newId: IoId, alive: set<ObjId>): Net
    requires k in net && (net[k].target.HubTarget? ==> net[k].target.hub in net)
  {
    var renamed := net[k := net[k].(handlerId := newId)];
    match net[k].target
    case NoTarget => net
    case OuterTarget(o) => if o in alive then renamed else net
    case HubTarget(p) => RegNet(renamed, p, newId, HandlerEnd(newId, k))
  }

  /** The hubs an unreg_io at k reaches: up the targets until one is suspended. */
  ghost function Chain(l: Chart, k: HubId): (s: set<HubId>)
    requires k in l.net
    ensures s <= l.net.Keys
    decreases l.depth[k]
  {
    if l.net[k].suspended then {} else
      {k} + (if l.net[k].target.HubTarget? then Chain(l, l.net[k].target.hub) else {})
  }

  ghost function UnregNet(l: Chart, k: HubId, id: IoId): Net
    requires k in l.net
  {
    var chain := Chain(l, k);
    map q | q in l.net :: if q in chain then l.net[q].(table := l.net[q].table - {id}) else l.net[q]
  }

  ghost predicate Allowed(w: World, op: Op) {
    op.hub in w.chart.net &&
    match op
    case Restart(_, newId, _) =>
      newId > 0 && newId !in w.owners && forall k :: k in w.chart.net ==> newId !in w.chart.net[k].table
    case Join(_, id, _) => id > 0 && id !in w.owners
    case Leave(_, id) => id !in w.owners
  }

  ghost function Do(w: World, op: Op): World
    requires Layered(w.chart) && Allowed(w, op)
  {
    match op
    case Restart(k, newId, alive) =>
      World(w.chart.(net := RestartNet(w.chart.net, k, newId, alive)), w.owners[newId := k])
    case Join(k, id, c) => w.(chart := w.chart.(net := RegNet(w.chart.net, k, id, ClientEnd(c))))
    case Leave(k, id) => w.(chart := w.chart.(net := UnregNet(w.chart, k, id)))
  }

  /** Entries and handlers are what their ids say. */
  ghost predicate Registered(w: World) {
    var net := w.chart.net;
    && Layered(w.chart) && 0 !in w.owners
    && (forall i :: i in w.owners ==> w.owners[i] in net)
    && (forall k :: k in net && net[k].handlerId != 0 ==>
          net[k].handlerId in w.owners && w.owners[net[k].handlerId] == k)
    && (forall p, j :: p in net && j in net[p].table ==> j > 0 && EntryOk(w, p, j, net[p].table[j]))
    && (forall k :: k in net && Parent(net, k).Some? && net[k].handlerId != 0 ==>
          Has(net, Parent(net, k).value, net[k].handlerId, k))
  }

  predicate Has(net: Net, p: HubId, i: IoId, k: HubId) {
    p in net && i in net[p].table && net[p].table[i] == HandlerEnd(i, k)
  }

  ghost predicate EntryOk(w: World, p: HubId, j: IoId, e: Endpoint) {
    match e
    case ClientEnd(_) => j !in w.owners
    case HandlerEnd(i, c) => i == j && j in w.owners && w.owners[j] == c && c in w.chart.net
                             && w.chart.net[c].target == HubTarget(p)
  }

  /** No client or handler yet. */
  predicate Pristine(l: Layers) {
    Layered(l) && forall k :: k in l.net ==> l.net[k].table == map[] && l.net[k].handlerId == 0
  }

  /** What a restart of k changes: its handler id, and one entry of its target's table. */
  lemma RestartShape(net: Net, k: HubId, newId: IoId, alive: set<ObjId>, q: HubId)
    requires k in net && q in net && (net[k].target.HubTarget? ==> net[k].target.hub in net)
    ensures var now := RestartNet(net, k, newId, alive);
      && now.Keys == net.Keys
      && now[q].target == net[q].target && now[q].suspended == net[q].suspended && Parent(now, q) == Parent(net, q)
      && now[q].handlerId == (if q == k && now[k].handlerId != net[k].handlerId then newId else net[q].handlerId)
      && now[q].table == (if net[k].target == HubTarget(q) && !net[q].suspended
                          then net[q].table[newId := HandlerEnd(newId, k)] else net[q].table)
      && (Parent(net, k) == Some(q) ==> now[k].handlerId == newId)
  {
  }

  lemma RestartKeeps(w: World, op: Op)
    requires Registered(w) && Allowed(w, op) && op.Restart?
    ensures Registered(Do(w, op))
  {
    var net, v := w.chart.net, Do(w, op);
    var now := v.chart.net;
    forall q | q in net {
      RestartShape(net, op.hub, op.newId, op.alive, q);
    }
    RestartEntries(w, op);
    forall q | q in now && Parent(now, q).Some? && now[q].handlerId != 0
      ensures Has(now, Parent(now, q).value, now[q].handlerId, q)
    {
      RestartHas(w, op, q);
    }
  }

  lemma RestartHas(w: World, op: Op, q: HubId)
    requires Registered(w) && Allowed(w, op) && op.Restart? && q in w.chart.net
    ensures var now := Do(w, op).chart.net;
      Parent(now, q).Some? && now[q].handlerId != 0 ==> Has(now, Parent(now, q).value, now[q].handlerId, q)
  {
    var net := w.chart.net;
    RestartShape(net, op.hub, op.newId, op.alive, q);
    if Parent(net, q).Some? {
      RestartShape(net, op.hub, op.newId, op.alive, Parent(net, q).value);
      if q != op.hub && net[q].handlerId != 0 { assert Has(net, Parent(net, q).value, net[q].handlerId, q); }
    }
  }

  lemma RestartEntries(w: World, op: Op)
    requires Registered(w) && Allowed(w, op) && op.Restart?
    ensures var v := Do(w, op); forall p, j :: p in v.chart.net && j in v.chart.net[p].table ==>
      j > 0 && EntryOk(v, p, j, v.chart.net[p].table[j])
  {
    var net, v := w.chart.net, Do(w, op);
    forall p, j | p in v.chart.net && j in v.chart.net[p].table
      ensures j > 0 && EntryOk(v, p, j, v.chart.net[p].table[j])
    {
      RestartShape(net, op.hub, op.newId, op.alive, p);
      if j in net[p].table { assert EntryOk(w, p, j, net[p].table[j]); }
      forall c | c in net ensures v.chart.net[c].target == net[c].target {
        RestartShape(net, op.hub, op.newId, op.alive, c);
      }
    }
  }

  /** Only entries of clients come or go. */
  ghost predicate OnlyClientsChange(w: World, v: World) {
    var net, now := w.chart.net, v.chart.net;
    && v == World(w.chart.(net := now), w.owners) && now.Keys == net.Keys
    && (forall q :: q in net ==> now[q] == net[q].(table := now[q].table))
    && (forall p, j :: p in net && j in now[p].table ==>
          || (j in net[p].table && now[p].table[j] == net[p].table[j])
          || (j > 0 && j !in w.owners && now[p].table[j].ClientEnd?))
    && (forall p, j :: p in net && j in net[p].table && j in w.owners ==>
          j in now[p].table && now[p].table[j] == net[p].table[j])
  }

  lemma ClientChangesKeepHandlers(w: World, v: World, k: HubId)
    requires Registered(w) && OnlyClientsChange(w, v) && k in w.chart.net
    ensures var now := v.chart.net;
      Parent(now, k).Some? && now[k].handlerId != 0 ==> Has(now, Parent(now, k).value, now[k].handlerId, k)
  {
    var net, now := w.chart.net, v.chart.net;
    assert Parent(now, k) == Parent(net, k) && now[k].handlerId == net[k].handlerId;
    if Parent(net, k).Some? && net[k].handlerId != 0 {
      assert Has(net, Parent(net, k).value, net[k].handlerId, k);
    }
  }

  lemma ClientChangesKeep(w: World, v: World)
    requires Registered(w) && OnlyClientsChange(w, v)
    ensures Registered(v)
  {
    var net, now := w.chart.net, v.chart.net;
    forall p, j | p in now && j in now[p].table ensures j > 0 && EntryOk(v, p, j, now[p].table[j]) {
      if j in net[p].table && now[p].table[j] == net[p].table[j] {
        assert EntryOk(w, p, j, net[p].table[j]);
      }
    }
    forall k | k in now && Parent(now, k).Some? && now[k].handlerId != 0
      ensures Has(now, Parent(now, k).value, now[k].handlerId, k)
    {
      ClientChangesKeepHandlers(w, v, k);
    }
  }

  lemma JoinKeeps(w: World, op: Op)
    requires Registered(w) && Allowed(w, op) && op.Join?
    ensures Registered(Do(w, op))
  {
    assert OnlyClientsChange(w, Do(w, op));
    ClientChangesKeep(w, Do(w, op));
  }

  lemma LeaveKeeps(w: World, op: Op)
    requires Registered(w) && Allowed(w, op) && op.Leave?
    ensures Registered(Do(w, op))
  {
    assert OnlyClientsChange(w, Do(w, op));
    ClientChangesKeep(w, Do(w, op));
  }

  lemma StepKeeps(w: World, op: Op)
    requires Registered(w) && Allowed(w, op)
    ensures Registered(Do(w, op))
  {
    match op
    case Restart(_, _, _) => RestartKeeps(w, op);
    case Join(_, _, _) => JoinKeeps(w, op);
    case Leave(_, _) => LeaveKeeps(w, op);
  }

  /** The network after a sequence of calls, as long as the ids they bring are new. */
  ghost function RunNet(l: Chart, ops: seq<Op>): (w: Option<World>)
    requires Pristine(l)
    ensures w.Some? ==> Registered(w.value) && w.value.chart.depth == l.depth && w.value.chart.bound == l.bound
    decreases |ops|
  {
    if ops == [] then Some(World(l, map[])) else
      var w := RunNet(l, ops[..|ops| - 1]);
      var op := ops[|ops| - 1];
      if w.None? || !Allowed(w.value, op) then None else
        StepKeeps(w.value, op);
        Some(Do(w.value, op))
  }

  /** The ids in p's table under which hub k can currently be reached. */
  function LiveEntries(net: Net, p: HubId, k: HubId): set<IoId>
    requires p in net
  {
    set j | j in net[p].table && Live(net, net[p].table[j]) && net[p].table[j].owner == k
  }

  /** Any mix of calls keeps exactly one live endpoint for every restarted hub in the table of its
      (unsuspended) target, and none in any other table. */
  lemma OneLiveEndpoint(l: Chart, ops: seq<Op>, k: HubId, q: HubId)
    requires Pristine(l) && RunNet(l, ops).Some?
    ensures var net := RunNet(l, ops).value.chart.net;
      k in net && q in net && net[k].handlerId != 0 ==>
        && (Parent(net, k) == Some(q) ==> LiveEntries(net, q, k) == {net[k].handlerId})
        && (net[k].target != HubTarget(q) ==> LiveEntries(net, q, k) == {})
  {
    var w := RunNet(l, ops).value;
    var net := w.chart.net;
    if k in net && q in net && net[k].handlerId != 0 {
      forall j | j in LiveEntries(net, q, k) ensures j == net[k].handlerId && net[k].target == HubTarget(q) {
        assert EntryOk(w, q, j, net[q].table[j]);
      }
      if Parent(net, k) == Some(q) {
        assert Has(net, q, net[k].handlerId, k);
      }
    }
  }

  /** Once every hub with an active target has been restarted, the network is fit for flooding. */
  lemma RunsAreWired(l: Chart, ops: seq<Op>)
    requires Pristine(l) && RunNet(l, ops).Some?
    requires var net := RunNet(l, ops).value.chart.net;
      forall k :: k in net && Parent(net, k).Some? ==> net[k].handlerId != 0
    ensures var c := RunNet(l, ops).value.chart; Layered(c) && Wired(c.net)
  {
    var w := RunNet(l, ops).value;
    var net := w.chart.net;
    forall p, j | p in net && j in net[p].table && Live(net, net[p].table[j])
      ensures j == net[p].table[j].handlerId && net[net[p].table[j].owner].target == HubTarget(p)
    {
      assert EntryOk(w, p, j, net[p].table[j]);
    }
    forall k | k in net && Parent(net, k).Some?
      ensures Has(net, Parent(net, k).value, net[k].handlerId, k)
    {
    }
    forall k, j | k in net && j in net[k].table ensures j != net[k].handlerId {
      assert EntryOk(w, k, j, net[k].table[j]);
    }
  }

  /** An unreg_io of a client, going up the targets, removes that id and no other endpoint. */
  lemma LeaveRemovesOnlyTheClient(w: World, k: HubId, id: IoId, q: HubId, j: IoId)
    requires Registered(w) && Allowed(w, Leave(k, id)) && q in w.chart.net
    ensures var net := w.chart.net; var now := Do(w, Leave(k, id)).chart.net;
      && now[q] == net[q].(table := now[q].table)
      && (j in now[q].table <==> j in net[q].table && !(j == id && q in Chain(w.chart, k)))
      && (j in now[q].table ==> now[q].table[j] == net[q].table[j])
      && (j in net[q].table && net[q].table[j].HandlerEnd? ==> j in now[q].table)
      && (!net[k].suspended ==> id !in now[k].table)
  {
    if j in w.chart.net[q].table {
      assert EntryOk(w, q, j, w.chart.net[q].table[j]);
    }
  }

  lemma {:induction false} ChainGoesUp(l: Chart, k: HubId, q: HubId)
    requires k in l.net && q in Chain(l, k)
    ensures l.depth[q] <= l.depth[k]
    decreases l.depth[k]
  {
    if q != k {
      ChainGoesUp(l, l.net[k].target.hub, q);
    }
  }

  /** One hub's share of an unreg_io. */
  lemma UnregUnfolds(l: Chart, k: HubId, id: IoId)
    requires k in l.net
    ensures l.net[k].suspended ==> UnregNet(l, k, id) == l.net
    ensures !l.net[k].suspended ==>
      var above := if l.net[k].target.HubTarget? then UnregNet(l, l.net[k].target.hub, id) else l.net;
      above[k] == l.net[k] && UnregNet(l, k, id) == WithTable(above, k, l.net[k].table - {id})
  {
    if !l.net[k].suspended && l.net[k].target.HubTarget? {
      var p := l.net[k].target.hub;
      forall q | q in Chain(l, p) ensures q != k { ChainGoesUp(l, p, q); }
    }
  }
}
