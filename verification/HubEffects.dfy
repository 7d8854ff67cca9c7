/** What each call on a hub does to the network, and what the calls of a whole run leave in it. */
module HubEffects {
  import opened Prelude
  import opened HubSpec
  import opened HubTree
  import opened HubTheorems
  import opened HubLifecycle

  // ----- Going up

  /** Each hub of the path is unsuspended and has the next one as its target. */
  predicate Climbs(net: Net, path: seq<HubId>) {
    && path != [] && (forall i :: 0 <= i < |path| ==> Active(net, path[i]))
    && forall i :: 0 <= i < |path| - 1 ==> net[path[i]].target == HubTarget(path[i + 1])
  }

  ghost predicate Reaches(net: Net, k: HubId, q: HubId) {
    exists path :: ClimbsFromTo(net, path, k, q)
  }

  predicate ClimbsFromTo(net: Net, path: seq<HubId>, k: HubId, q: HubId) {
    Climbs(net, path) && path[0] == k && path[|path| - 1] == q
  }

  lemma {:induction false} ClimbIsInChain(l: Chart, path: seq<HubId>, k: HubId, q: HubId)
    requires ClimbsFromTo(l.net, path, k, q)
    ensures q in Chain(l, k)
    decreases |path|
  {
    if |path| > 1 {
      assert l.net[path[0]].target == HubTarget(path[1]);
      assert ClimbsFromTo(l.net, path[1..], path[1], q);
      ClimbIsInChain(l, path[1..], path[1], q);
    }
  }

  lemma {:induction false} ChainIsClimbed(l: Chart, k: HubId, q: HubId)
    requires k in l.net && q in Chain(l, k)
    ensures Reaches(l.net, k, q)
    decreases l.depth[k]
  {
    if q == k {
      assert ClimbsFromTo(l.net, [k], k, q);
    } else {
      var p := l.net[k].target.hub;
      ChainIsClimbed(l, p, q);
      var path :| ClimbsFromTo(l.net, path, p, q);
      assert ClimbsFromTo(l.net, [k] + path, k, q);
    }
  }

  /** An unreg_io gets exactly as far as unsuspended hubs lead from target to target. */
  lemma ChainIff(l: Chart, k: HubId, q: HubId)
    requires k in l.net
    ensures q in Chain(l, k) <==> Reaches(l.net, k, q)
  {
    if q in Chain(l, k) {
      ChainIsClimbed(l, k, q);
    }
    if path :| ClimbsFromTo(l.net, path, k, q) {
      ClimbIsInChain(l, path, k, q);
    }
  }

  // ----- One call

  /** Nothing about hub q has changed but perhaps its table. */
  predicate SameButTable(net: Net, now: Net, q: HubId) {
    && q in net && q in now && now[q].target == net[q].target && now[q].suspended == net[q].suspended
    && now[q].handlerId == net[q].handlerId
  }

  predicate SameEntry(net: Net, now: Net, q: HubId, j: IoId)
    requires q in net && q in now
  {
    if j in net[q].table then j in now[q].table && now[q].table[j] == net[q].table[j] else j !in now[q].table
  }

  /** A client that joins an unsuspended hub is in its table, in the place of whoever was there under
      that id; every other entry and hub is as before. */
  lemma JoinEffect(w: World, k: HubId, id: IoId, c: ObjId, q: HubId, j: IoId)
    requires Layered(w.chart) && Allowed(w, Join(k, id, c)) && q in w.chart.net
    ensures var net, now := w.chart.net, Do(w, Join(k, id, c)).chart.net;
      && now.Keys == net.Keys && SameButTable(net, now, q)
      && (q == k && j == id && !net[k].suspended ==> j in now[q].table && now[q].table[j] == ClientEnd(c))
      && (q != k || j != id || net[k].suspended ==> SameEntry(net, now, q, j))
  {
  }

  /** An unreg_io removes the id from every hub it reaches and changes nothing else. */
  lemma LeaveEffect(w: World, k: HubId, id: IoId, q: HubId, j: IoId)
    requires Layered(w.chart) && Allowed(w, Leave(k, id)) && q in w.chart.net
    ensures var net, now := w.chart.net, Do(w, Leave(k, id)).chart.net;
      && now.Keys == net.Keys && SameButTable(net, now, q)
      && (j == id && Reaches(net, k, q) ==> j !in now[q].table)
      && (j != id || !Reaches(net, k, q) ==> SameEntry(net, now, q, j))
  {
    ChainIff(w.chart, k, q);
  }

  /** A restart does something when the target is another hub or is alive. */
  predicate Effective(net: Net, k: HubId, alive: set<ObjId>)
    requires k in net
  {
    match net[k].target
    case NoTarget => false
    case OuterTarget(o) => o in alive
    case HubTarget(_) => true
  }

  /** An effective restart gives the hub a new handler and, if its target is an unsuspended hub, enters
      it there; the old handler is dead from then on. Everything else is as before. */
  lemma RestartEffect(w: World, k: HubId, newId: IoId, alive: set<ObjId>, q: HubId, j: IoId)
    requires Layered(w.chart) && Allowed(w, Restart(k, newId, alive)) && q in w.chart.net
    ensures var net, now := w.chart.net, Do(w, Restart(k, newId, alive)).chart.net;
      && now.Keys == net.Keys && now[q].target == net[q].target && now[q].suspended == net[q].suspended
      && now[q].handlerId == (if q == k && Effective(net, k, alive) then newId else net[q].handlerId)
      && (net[k].target == HubTarget(q) && !net[q].suspended && j == newId ==>
            j in now[q].table && now[q].table[j] == HandlerEnd(newId, k) && Live(now, now[q].table[j]))
      && (net[k].target != HubTarget(q) || net[q].suspended || j != newId ==> SameEntry(net, now, q, j))
      && (Effective(net, k, alive) && net[k].handlerId != newId ==> !Live(now, HandlerEnd(net[k].handlerId, k)))
  {
    RestartShape(w.chart.net, k, newId, alive, q);
    RestartShape(w.chart.net, k, newId, alive, k);
  }

  // ----- Whole runs

  predicate SameTopology(net: Net, now: Net) {
    now.Keys == net.Keys && forall q :: q in net ==> now[q].target == net[q].target && now[q].suspended == net[q].suspended
  }

  lemma StepKeepsTopology(w: World, op: Op)
    requires Layered(w.chart) && Allowed(w, op)
    ensures SameTopology(w.chart.net, Do(w, op).chart.net)
  {
    forall q | q in w.chart.net
      ensures q in Do(w, op).chart.net && Do(w, op).chart.net[q].target == w.chart.net[q].target
      ensures Do(w, op).chart.net[q].suspended == w.chart.net[q].suspended
      ensures Do(w, op).chart.net.Keys == w.chart.net.Keys
    {
      match op
      case Restart(k, newId, alive) => RestartEffect(w, k, newId, alive, q, 0);
      case Join(k, id, c) => JoinEffect(w, k, id, c, q, 0);
      case Leave(k, id) => LeaveEffect(w, k, id, q, 0);
    }
  }

  /** The run up to its last call. */
  lemma RunNetUnfolds(l: Chart, ops: seq<Op>) returns (before: seq<Op>, op: Op, w: World)
    requires Pristine(l) && RunNet(l, ops).Some? && ops != []
    ensures ops == before + [op] && |before| < |ops| && RunNet(l, before) == Some(w)
    ensures Layered(w.chart) && Allowed(w, op) && RunNet(l, ops) == Some(Do(w, op))
  {
    before, op := ops[..|ops| - 1], ops[|ops| - 1];
    w := RunNet(l, before).value;
  }

  lemma {:induction false} RunKeepsTopology(l: Chart, ops: seq<Op>)
    requires Pristine(l) && RunNet(l, ops).Some?
    ensures SameTopology(l.net, RunNet(l, ops).value.chart.net)
    decreases |ops|
  {
    if ops != [] {
      var before, op, w := RunNetUnfolds(l, ops);
      RunKeepsTopology(l, before);
      StepKeepsTopology(w, op);
    }
  }

  lemma ReachesSame(net: Net, now: Net, k: HubId, q: HubId)
    requires SameTopology(net, now)
    ensures Reaches(net, k, q) <==> Reaches(now, k, q)
  {
    if path :| ClimbsFromTo(net, path, k, q) { assert ClimbsFromTo(now, path, k, q); }
    if path :| ClimbsFromTo(now, path, k, q) { assert ClimbsFromTo(net, path, k, q); }
  }

  /** The call concerns the entry of `id` at q. */
  ghost predicate Touches(net: Net, op: Op, q: HubId, id: IoId) {
    match op
    case Join(k, i, _) => k == q && i == id
    case Leave(k, i) => i == id && Reaches(net, k, q)
    case Restart(_, _, _) => false
  }

  /** The i-th call lets c join q under `id`, and no later one concerns that entry. */
  ghost predicate JoinedAt(net: Net, ops: seq<Op>, i: int, q: HubId, id: IoId, c: ObjId) {
    0 <= i < |ops| && ops[i] == Join(q, id, c) && forall j :: i < j < |ops| ==> !Touches(net, ops[j], q, id)
  }

  ghost predicate Joined(net: Net, ops: seq<Op>, q: HubId, id: IoId, c: ObjId) {
    exists i :: JoinedAt(net, ops, i, q, id, c)
  }

  lemma JoinedSnoc(net: Net, before: seq<Op>, op: Op, q: HubId, id: IoId, c: ObjId)
    ensures Joined(net, before + [op], q, id, c) <==>
      op == Join(q, id, c) || (Joined(net, before, q, id, c) && !Touches(net, op, q, id))
  {
    var ops, n := before + [op], |before|;
    assert ops[n] == op && forall j :: 0 <= j < n ==> ops[j] == before[j];
    if i :| JoinedAt(net, ops, i, q, id, c) {
      assert i < n ==> JoinedAt(net, before, i, q, id, c) && !Touches(net, ops[n], q, id);
    }
    if op == Join(q, id, c) { assert JoinedAt(net, ops, n, q, id, c); }
    if Joined(net, before, q, id, c) && !Touches(net, op, q, id) {
      var i :| JoinedAt(net, before, i, q, id, c);
      assert JoinedAt(net, ops, i, q, id, c);
    }
  }

  predicate Lists(net: Net, q: HubId, id: IoId, c: ObjId) {
    q in net && id in net[q].table && net[q].table[id] == ClientEnd(c)
  }

  lemma StepLists(w: World, op: Op, q: HubId, id: IoId, c: ObjId)
    requires Layered(w.chart) && Allowed(w, op) && q in w.chart.net && !w.chart.net[q].suspended
    ensures Lists(Do(w, op).chart.net, q, id, c) <==>
      op == Join(q, id, c) || (Lists(w.chart.net, q, id, c) && !Touches(w.chart.net, op, q, id))
  {
    match op
    case Restart(k, newId, alive) => RestartEffect(w, k, newId, alive, q, id);
    case Join(k, i, b) => JoinEffect(w, k, i, b, q, id);
    case Leave(k, i) => LeaveEffect(w, k, i, q, id);
  }

  lemma ListingGoesOn(net: Net, w: World, before: seq<Op>, op: Op, q: HubId, id: IoId, c: ObjId)
    requires Layered(w.chart) && Allowed(w, op) && SameTopology(net, w.chart.net) && Active(net, q)
    requires Lists(w.chart.net, q, id, c) <==> Joined(net, before, q, id, c)
    ensures Lists(Do(w, op).chart.net, q, id, c) <==> Joined(net, before + [op], q, id, c)
  {
    StepLists(w, op, q, id, c);
    JoinedSnoc(net, before, op, q, id, c);
    if op.Leave? { ReachesSame(net, w.chart.net, op.hub, q); }
  }

  /** An unsuspended hub lists a client under an id iff the last call that concerned that entry, a join
      there or an unreg_io that came by, was this client's join. */
  lemma {:induction false} ListsIffJoined(l: Chart, ops: seq<Op>, q: HubId, id: IoId, c: ObjId)
    requires Pristine(l) && RunNet(l, ops).Some? && Active(l.net, q)
    ensures Lists(RunNet(l, ops).value.chart.net, q, id, c) <==> Joined(l.net, ops, q, id, c)
    decreases |ops|
  {
    if ops == [] {
      NobodyJoined(l.net, q, id, c);
    } else {
      var before, op, w := RunNetUnfolds(l, ops);
      ListsIffJoined(l, before, q, id, c);
      RunKeepsTopology(l, before);
      ListingGoesOn(l.net, w, before, op, q, id, c);
    }
  }

  lemma NobodyJoined(net: Net, q: HubId, id: IoId, c: ObjId)
    ensures !Joined(net, [], q, id, c)
  {
  }

  /** Once all hubs with an active target have been restarted: a message under a sender's id that no
      hub handler uses reaches a client at an active hub of the tree iff the client is alive and the
      last to have joined there under its id, and is not the sender. */
  lemma JoinedHears(l: Chart, ops: seq<Op>, alive: set<ObjId>, h: HubId, sender: IoId, d: Data, handler: HandlerRef,
                    q: HubId, id: IoId, c: ObjId)
    requires Pristine(l) && RunNet(l, ops).Some? && Active(l.net, q) && Active(l.net, h)
    requires var net := RunNet(l, ops).value.chart.net;
      && (forall k :: k in net && Parent(net, k).Some? ==> net[k].handlerId != 0)
      && (forall k :: k in net ==> net[k].handlerId != sender)
    ensures Layered(RunNet(l, ops).value.chart) && Wired(RunNet(l, ops).value.chart.net)
    ensures var t: Forest := RunNet(l, ops).value.chart;
      h in t.net && q in t.net &&
      (Expected(t, alive, h, sender, d, handler, Got(q, id, c, d, None)) <==>
         Top(t, q) == Top(t, h) && c in alive && Joined(l.net, ops, q, id, c) && !(q == h && id == sender))
  {
    RunsAreWired(l, ops);
    RunKeepsTopology(l, ops);
    ListsIffJoined(l, ops, q, id, c);
    var t: Forest := RunNet(l, ops).value.chart;
    FloodingMeansEveryoneElseOnce(t, alive, h, sender, d, handler, q);
  }

  // ----- Handlers

  /** The i-th call gives k the handler `newId`, and no later restart of k has an effect. */
  ghost predicate RestartedAt(net: Net, ops: seq<Op>, i: int, k: HubId, newId: IoId)
    requires k in net
  {
    && 0 <= i < |ops| && ops[i].Restart? && ops[i].hub == k && ops[i].newId == newId && Effective(net, k, ops[i].alive)
    && forall j :: i < j < |ops| ==> !(ops[j].Restart? && ops[j].hub == k && Effective(net, k, ops[j].alive))
  }

  ghost predicate Restarted(net: Net, ops: seq<Op>, k: HubId, newId: IoId)
    requires k in net
  {
    exists i :: RestartedAt(net, ops, i, k, newId)
  }

  predicate RestartsNow(net: Net, op: Op, k: HubId)
    requires k in net
  {
    op.Restart? && op.hub == k && Effective(net, k, op.alive)
  }

  lemma RestartedSnoc(net: Net, before: seq<Op>, op: Op, k: HubId, newId: IoId)
    requires k in net
    ensures Restarted(net, before + [op], k, newId) <==>
      if RestartsNow(net, op, k) then op.newId == newId else Restarted(net, before, k, newId)
  {
    var ops, n := before + [op], |before|;
    assert ops[n] == op && forall j :: 0 <= j < n ==> ops[j] == before[j];
    if i :| RestartedAt(net, ops, i, k, newId) {
      assert i < n ==> RestartedAt(net, before, i, k, newId) && !RestartsNow(net, ops[n], k);
    }
    if RestartsNow(net, op, k) && op.newId == newId { assert RestartedAt(net, ops, n, k, newId); }
    if !RestartsNow(net, op, k) && Restarted(net, before, k, newId) {
      var i :| RestartedAt(net, before, i, k, newId);
      assert RestartedAt(net, ops, i, k, newId);
    }
  }

  lemma StepHandler(w: World, op: Op, k: HubId)
    requires Layered(w.chart) && Allowed(w, op) && k in w.chart.net
    ensures k in Do(w, op).chart.net && Do(w, op).chart.net[k].handlerId ==
      if RestartsNow(w.chart.net, op, k) then op.newId else w.chart.net[k].handlerId
  {
    match op
    case Restart(q, newId, alive) => RestartEffect(w, q, newId, alive, k, 0);
    case Join(q, id, c) => JoinEffect(w, q, id, c, k, 0);
    case Leave(q, id) => LeaveEffect(w, q, id, k, 0);
  }

  lemma HandlerGoesOn(net: Net, w: World, before: seq<Op>, op: Op, k: HubId, newId: IoId)
    requires Layered(w.chart) && Allowed(w, op) && SameTopology(net, w.chart.net) && k in net
    requires w.chart.net[k].handlerId == newId <==> Restarted(net, before, k, newId)
    ensures k in Do(w, op).chart.net
    ensures Do(w, op).chart.net[k].handlerId == newId <==> Restarted(net, before + [op], k, newId)
  {
    StepHandler(w, op, k);
    RestartedSnoc(net, before, op, k, newId);
  }

  /** A hub has the handler of its last effective restart, and none before the first. */
  lemma {:induction false} HandlerIffRestarted(l: Chart, ops: seq<Op>, k: HubId, newId: IoId)
    requires Pristine(l) && RunNet(l, ops).Some? && k in l.net && newId > 0
    ensures k in RunNet(l, ops).value.chart.net
    ensures RunNet(l, ops).value.chart.net[k].handlerId == newId <==> Restarted(l.net, ops, k, newId)
    decreases |ops|
  {
    if ops == [] {
      NobodyRestarted(l.net, k, newId);
    } else {
      var before, op, w := RunNetUnfolds(l, ops);
      HandlerIffRestarted(l, before, k, newId);
      RunKeepsTopology(l, before);
      HandlerGoesOn(l.net, w, before, op, k, newId);
    }
  }

  lemma NobodyRestarted(net: Net, k: HubId, newId: IoId)
    requires k in net
    ensures !Restarted(net, [], k, newId)
  {
  }
}
