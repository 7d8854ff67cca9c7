/**
  client_tcp_map as a value: the id map, the three pools and the ledger of all adapters ever
  created. An adapter is named by its position in the ledger.
*/
module PoolSpec {
  import opened Prelude
  import opened AdapterSpec

  datatype Pool = Pool(
    clients: map<IoId, nat>, startup: seq<nat>, secondary: seq<nat>, primary: seq<nat>,
    ledger: seq<Adapter>, opt: Options, generation: nat, startupFlag: bool, stopFlag: bool)

  const EMPTY_POOL := Pool(map[], [], [], [], [], DEFAULT_OPTIONS, 0, true, false)

  /** Adapter a waits in a pool. */
  predicate Pooled(p: Pool, a: nat) {
    a in p.startup || a in p.secondary || a in p.primary
  }

  /** Adapter a is bound to an id or waits in a pool. */
  ghost predicate Contained(p: Pool, a: nat) {
    a in p.clients.Values || Pooled(p, a)
  }

  ghost predicate Linked(p: Pool) {
    forall a: nat :: Contained(p, a) ==> a < |p.ledger|
  }

  function Opened(p: Pool): Adapter {
    Start(NEW_ADAPTER, p.opt, p.generation)
  }

  datatype Taken = Taken(pool: Pool, adapter: nat)

  /** create_ */
  function Take(p: Pool): Taken {
    if p.startup != [] then
      Taken(p.(startup := p.startup[1..]), p.startup[0])
    else if p.secondary != [] then
      Taken(p.(secondary := p.secondary[1..]), p.secondary[0])
    else if p.primary != [] then
      Taken(p.(primary := p.primary[1..] + [|p.ledger|], ledger := p.ledger + [Opened(p)]), p.primary[0])
    else
      Taken(p.(ledger := p.ledger + [Opened(p)]), |p.ledger|)
  }

  /** upsert_ when nobody interferes */
  function Upsert(p: Pool, id: IoId): Taken {
    if id in p.clients then Taken(p, p.clients[id]) else
      var t := Take(p);
      Taken(t.pool.(clients := t.pool.clients[id := t.adapter]), t.adapter)
  }

  function Put(p: Pool, a: nat, x: Adapter): Pool {
    if a < |p.ledger| then p.(ledger := p.ledger[a := x]) else p
  }

  function At(p: Pool, a: nat): Adapter {
    if a < |p.ledger| then p.ledger[a] else NEW_ADAPTER
  }

  function Reg(p: Pool, id: IoId, itf: Option<ObjId>): Pool {
    if p.stopFlag then p else
      var t := Upsert(p, id);
      Put(t.pool, t.adapter, RegIo(At(t.pool, t.adapter), id, itf))
  }

  function Unbind(p: Pool, id: IoId): Pool {
    p.(clients := p.clients - {id})
  }

  function Unreg(p: Pool, id: IoId): Pool {
    if p.stopFlag || id !in p.clients then p else
      var a := p.clients[id];
      var q := Unbind(Put(p, a, UnregIo(At(p, a), id)), id);
      if |q.secondary| < q.opt.secondaryPool
      then q.(secondary := q.secondary + [a])
      else Put(q, a, Stop(At(q, a)))
  }

  function Send(p: Pool, id: IoId, handler: Option<HandlerId>, alive: set<ObjId>, result: SendResult): Pool {
    if p.stopFlag then p else
      var t := Upsert(p, id);
      Put(t.pool, t.adapter, PerformIo(At(t.pool, t.adapter), id, handler, alive, result))
  }

  function StopEach(ledger: seq<Adapter>, list: seq<nat>): (r: seq<Adapter>)
    requires forall i :: 0 <= i < |list| ==> list[i] < |ledger|
    ensures |r| == |ledger|
  {
    if list == [] then ledger else
      var last := |list| - 1;
      var l := StopEach(ledger, list[..last]);
      l[list[last] := Stop(l[list[last]])]
  }

  /** The adapters of these ids, in this order. */
  function BoundTo(clients: map<IoId, nat>, ids: seq<IoId>): (r: seq<nat>)
    requires forall id :: id in ids <==> id in clients
    ensures |r| == |ids| && forall i :: 0 <= i < |ids| ==> r[i] == clients[ids[i]]
    ensures forall a :: a in r <==> a in clients.Values
  {
    assert forall i :: 0 <= i < |ids| ==> ids[i] in ids;
    var r := seq(|ids|, i requires 0 <= i < |ids| => clients[ids[i]]);
    assert forall id :: id in clients ==> exists i :: 0 <= i < |ids| && ids[i] == id && r[i] == clients[id];
    r
  }

  /** The bound adapters in the iteration order of `_clients`. */
  ghost function Bound(p: Pool): (r: seq<nat>)
    ensures forall a :: a in r <==> a in p.clients.Values
  {
    BoundTo(p.clients, Ascending(p.clients.Keys))
  }

  ghost function AllContained(p: Pool): (r: seq<nat>)
    ensures forall a :: a in r <==> Contained(p, a)
  {
    Bound(p) + p.primary + p.secondary + p.startup
  }

  ghost function StopAll(p: Pool): Pool
    requires Linked(p)
  {
    var list := AllContained(p);
    assert forall i :: 0 <= i < |list| ==> list[i] in list && Contained(p, list[i]);
    p.(ledger := StopEach(p.ledger, list))
  }

  ghost function IndexOf(s: seq<IoId>, x: IoId): (i: nat)
    requires x in s
    ensures i < |s| && s[i] == x
  {
    var i :| 0 <= i < |s| && s[i] == x;
    i
  }

  /** The i-th id gets the adapter base + i. */
  ghost function Renumber(ids: seq<IoId>, base: nat): map<IoId, nat> {
    map id | id in ids :: base + IndexOf(ids, id)
  }

  function Repeat(x: Adapter, n: nat): (r: seq<Adapter>)
    ensures |r| == n && forall i :: 0 <= i < n ==> r[i] == x
  {
    seq(n, _ => x)
  }

  /** New adapters for `ids`, for the primary pool and, the first time, for the startup pool. */
  ghost function Renewed(p: Pool, ids: seq<IoId>, opt: Options): Pool {
    var base := |p.ledger|;
    var fill := if p.startupFlag then opt.startupPool else 0;
    Pool(Renumber(ids, base),
         Range(base + |ids| + opt.primaryPool, fill),
         [],
         Range(base + |ids|, opt.primaryPool),
         p.ledger + Repeat(Start(NEW_ADAPTER, opt, p.generation + 1), |ids| + opt.primaryPool + fill),
         opt, p.generation + 1, false, false)
  }

  ghost function Reconfigure(p: Pool, opt: Options): Pool
    requires Linked(p)
  {
    Renewed(StopAll(p), Ascending(p.clients.Keys), opt)
  }

  ghost function Shutdown(p: Pool): Pool
    requires Linked(p)
  {
    StopAll(p).(stopFlag := true, clients := map[], primary := [], secondary := [], startup := [])
  }

  datatype Op =
    | OpReg(id: IoId, itf: Option<ObjId>)
    | OpUnreg(id: IoId)
    | OpSend(id: IoId, handler: Option<HandlerId>, alive: set<ObjId>, result: SendResult)
    | OpReceive(adapter: nat, alive: set<ObjId>)
    | OpAnswer(adapter: nat, alive: set<ObjId>, result: SendResult)
    | OpReconfigure(opt: Options)
    | OpStop

  ghost function Apply(p: Pool, op: Op): Pool
    requires Linked(p)
  {
    match op
    case OpReg(id, itf) => Reg(p, id, itf)
    case OpUnreg(id) => Unreg(p, id)
    case OpSend(id, h, alive, r) => Send(p, id, h, alive, r)
    case OpReceive(a, alive) => Put(p, a, Receive(At(p, a), alive))
    case OpAnswer(a, alive, r) => Put(p, a, Answer(At(p, a), alive, r))
    case OpReconfigure(opt) => Reconfigure(p, opt)
    case OpStop => Shutdown(p)
  }
}
