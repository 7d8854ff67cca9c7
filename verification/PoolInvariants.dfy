/**
  What every operation of the pool keeps: no adapter is in two places, every adapter that is
  in no place has been stopped exactly once, every other one is running under the current
  configuration, and no adapter ever serves two sources.
*/
module PoolInvariants {
  import opened Prelude
  import opened AdapterSpec
  import opened PoolSpec

  predicate Apart(s: seq<nat>, t: seq<nat>) {
    forall x :: x in s ==> x !in t
  }

  /** No adapter is bound to two ids, pooled twice, or both bound and pooled. */
  ghost predicate Exclusive(p: Pool) {
    && NoDup(p.startup) && NoDup(p.secondary) && NoDup(p.primary)
    && Apart(p.startup, p.secondary) && Apart(p.startup, p.primary) && Apart(p.secondary, p.primary)
    && (forall i, j :: i in p.clients && j in p.clients && i != j ==> p.clients[i] != p.clients[j])
    && (forall i :: i in p.clients ==> !Pooled(p, p.clients[i]))
  }

  predicate Running(p: Pool, x: Adapter) {
    x.starts == [p.generation] && x.options == p.opt && x.keepAlive == p.opt.keepAlive && x.stops == 0
  }

  predicate Retired(x: Adapter) {
    |x.starts| == 1 && x.stops == 1
  }

  /** Contained adapters and the `spare` ones outside all containers run; all others are retired. */
  ghost predicate Accounted(p: Pool, spare: set<nat>) {
    forall a :: 0 <= a < |p.ledger| ==>
      if Contained(p, a) then a !in spare && Running(p, p.ledger[a])
      else if a in spare then Running(p, p.ledger[a])
      else Retired(p.ledger[a])
  }

  /** Nobody holds a pooled adapter, and a bound one is held by its own id if by any. */
  ghost predicate Seated(p: Pool) {
    forall a :: 0 <= a < |p.ledger| ==> Seat(p, a, p.ledger[a])
  }

  ghost predicate Seat(p: Pool, a: nat, x: Adapter) {
    && !x.fatal
    && (Pooled(p, a) ==> x.holderId == 0)
    && (forall i :: i in p.clients && p.clients[i] == a ==> x.holderId == 0 || x.holderId == i)
  }

  ghost predicate Sized(p: Pool) {
    && (!p.stopFlag ==> |p.primary| == p.opt.primaryPool)
    && |p.secondary| <= p.opt.secondaryPool
    && (p.startupFlag ==> p.startup == [])
  }

  ghost predicate Inv(p: Pool) {
    Linked(p) && Exclusive(p) && Accounted(p, {}) && Seated(p) && Sized(p)
  }

  // ----- Taking, binding and changing one adapter

  /** create_ hands out an adapter that is in no container; nothing else leaves or enters, except
      that a fresh adapter may appear. */
  lemma TakeDetaches(p: Pool)
    requires Linked(p) && Exclusive(p)
    ensures var t := Take(p);
      && t.pool.clients == p.clients
      && p.ledger <= t.pool.ledger
      && t.adapter < |t.pool.ledger|
      && (Contained(p, t.adapter) || t.adapter == |p.ledger|)
      && t.adapter !in p.clients.Values
      && (forall a: nat :: Contained(t.pool, a) <==>
            a != t.adapter && (Contained(p, a) || |p.ledger| <= a < |t.pool.ledger|))
      && Linked(t.pool) && Exclusive(t.pool)
  {
    var t := Take(p);
    assert forall a: nat :: Contained(p, a) ==> a < |p.ledger|;
    if p.startup != [] {
      SplitFirst(p.startup);
      assert Contained(p, t.adapter);
      assert forall a: nat :: Contained(t.pool, a) ==> Contained(p, a);
    } else if p.secondary != [] {
      SplitFirst(p.secondary);
      assert Contained(p, t.adapter);
      assert forall a: nat :: Contained(t.pool, a) ==> Contained(p, a);
    } else if p.primary != [] {
      SplitFirst(p.primary);
      assert Contained(p, t.adapter);
      var newest := |p.ledger|;
      assert newest !in p.primary by { if newest in p.primary { assert Contained(p, newest); } }
      assert forall i :: i in p.clients ==> p.clients[i] != newest by {
        forall i | i in p.clients ensures p.clients[i] != newest { assert Contained(p, p.clients[i]); }
      }
      NoDupConcat(p.primary[1..], [newest]);
      assert forall a :: a in t.pool.primary <==> a in p.primary[1..] || a == newest;
    } else {
      var newest := |p.ledger|;
      if newest in p.clients.Values { assert Contained(p, newest); }
    }
  }

  lemma SplitFirst(s: seq<nat>)
    requires s != [] && NoDup(s)
    ensures NoDup(s[1..]) && s[0] !in s[1..]
    ensures forall x :: x in s <==> x == s[0] || x in s[1..]
  {
    assert s == [s[0]] + s[1..];
    NoDupConcat([s[0]], s[1..]);
  }

  lemma TakeAccounts(p: Pool, spare: set<nat>)
    requires Linked(p) && Exclusive(p) && Accounted(p, spare)
    requires forall a :: a in spare ==> a < |p.ledger|
    ensures Accounted(Take(p).pool, spare + {Take(p).adapter})
  {
    TakeDetaches(p);
  }

  lemma BindAttaches(p: Pool, id: IoId, a: nat)
    requires Linked(p) && Exclusive(p)
    requires id !in p.clients && a < |p.ledger| && !Contained(p, a)
    ensures var q := p.(clients := p.clients[id := a]);
      && (forall x: nat :: Contained(q, x) <==> Contained(p, x) || x == a)
      && Linked(q) && Exclusive(q)
  {
    var q := p.(clients := p.clients[id := a]);
    forall x: nat ensures Contained(q, x) <==> Contained(p, x) || x == a {
      if x in p.clients.Values {
        var i :| i in p.clients && p.clients[i] == x;
        assert q.clients[i] == x;
      }
      assert q.clients[id] == a;
    }
    forall i | i in p.clients ensures p.clients[i] != a {
      assert Contained(p, p.clients[i]);
    }
  }

  /** upsert_ keeps the invariant and adds at most the binding of `id`. */
  lemma UpsertKeeps(p: Pool, id: IoId)
    requires Inv(p)
    ensures var t := Upsert(p, id);
      && Inv(t.pool)
      && id in t.pool.clients && t.pool.clients[id] == t.adapter
      && t.adapter < |t.pool.ledger|
      && t.pool.clients == p.clients[id := t.adapter]
      && p.ledger <= t.pool.ledger
      && t.pool.stopFlag == p.stopFlag
  {
    var t := Upsert(p, id);
    if id in p.clients {
      assert Contained(p, t.adapter);
    } else {
      TakeDetaches(p);
      TakeAccounts(p, {});
      BindAttaches(Take(p).pool, id, t.adapter);
    }
  }

  /** Replacing the state of one adapter by one that is as running, and seated as it should be. */
  lemma PutKeeps(p: Pool, a: nat, x: Adapter)
    requires Inv(p) && a < |p.ledger|
    requires x.starts == p.ledger[a].starts && x.stops == p.ledger[a].stops
    requires x.options == p.ledger[a].options && x.keepAlive == p.ledger[a].keepAlive
    requires Seat(p, a, x)
    ensures Inv(Put(p, a, x))
  {
    var q := Put(p, a, x);
    assert forall b: nat :: Contained(q, b) <==> Contained(p, b);
    assert forall i :: i in p.clients ==> Contained(p, p.clients[i]);
  }

  // ----- One lemma per operation

  lemma RegKeeps(p: Pool, id: IoId, itf: Option<ObjId>)
    requires Inv(p)
    ensures Inv(Reg(p, id, itf))
  {
    if !p.stopFlag {
      var t := Upsert(p, id);
      UpsertKeeps(p, id);
      PutKeeps(t.pool, t.adapter, RegIo(At(t.pool, t.adapter), id, itf));
    }
  }

  lemma SendKeeps(p: Pool, id: IoId, handler: Option<HandlerId>, alive: set<ObjId>, result: SendResult)
    requires Inv(p)
    ensures Inv(Send(p, id, handler, alive, result))
  {
    if !p.stopFlag {
      var t := Upsert(p, id);
      UpsertKeeps(p, id);
      PutKeeps(t.pool, t.adapter, PerformIo(At(t.pool, t.adapter), id, handler, alive, result));
    }
  }

  /** Erasing a binding takes its adapter out of all containers. */
  lemma UnbindDetaches(p: Pool, id: IoId)
    requires Linked(p) && Exclusive(p) && id in p.clients
    ensures var q := Unbind(p, id);
      && (forall x: nat :: Contained(q, x) <==> Contained(p, x) && x != p.clients[id])
      && Linked(q) && Exclusive(q)
  {
    var q := Unbind(p, id);
    forall x: nat ensures Contained(q, x) <==> Contained(p, x) && x != p.clients[id] {
      if x in p.clients.Values && x != p.clients[id] {
        var i :| i in p.clients && p.clients[i] == x;
        assert q.clients[i] == x;
      }
    }
  }

  lemma RecycleAttaches(p: Pool, a: nat)
    requires Linked(p) && Exclusive(p) && a < |p.ledger| && !Contained(p, a)
    ensures var q := p.(secondary := p.secondary + [a]);
      && (forall x: nat :: Contained(q, x) <==> Contained(p, x) || x == a)
      && Linked(q) && Exclusive(q)
  {
    NoDupConcat(p.secondary, [a]);
    var q := p.(secondary := p.secondary + [a]);
    assert forall x :: x in q.secondary <==> x in p.secondary || x == a;
    assert forall i :: i in p.clients ==> Contained(p, p.clients[i]);
  }

  lemma UnregKeeps(p: Pool, id: IoId)
    requires Inv(p)
    ensures Inv(Unreg(p, id))
  {
    if !p.stopFlag && id in p.clients {
      var a := p.clients[id];
      assert Contained(p, a);
      var p1 := Put(p, a, UnregIo(At(p, a), id));
      PutKeeps(p, a, UnregIo(At(p, a), id));
      assert p1.ledger[a].holderId == 0;
      UnbindDetaches(p1, id);
      var q := Unbind(p1, id);
      if |q.secondary| < q.opt.secondaryPool {
        RecycleAttaches(q, a);
      } else {
        var r := Unreg(p, id);
        assert forall b: nat :: Contained(r, b) <==> Contained(q, b);
      }
    }
  }

  // ----- Stopping everything and rebuilding

  lemma {:induction false} StopEachStopsOnce(ledger: seq<Adapter>, list: seq<nat>)
    requires NoDup(list) && forall i :: 0 <= i < |list| ==> list[i] < |ledger|
    ensures forall a :: 0 <= a < |ledger| ==>
      StopEach(ledger, list)[a] == if a in list then Stop(ledger[a]) else ledger[a]
  {
    if list != [] {
      var last := |list| - 1;
      assert list == list[..last] + [list[last]];
      NoDupConcat(list[..last], [list[last]]);
      assert list[last] !in list[..last];
      StopEachStopsOnce(ledger, list[..last]);
    }
  }

  lemma ContainedOnce(p: Pool)
    requires Exclusive(p)
    ensures NoDup(AllContained(p))
  {
    var ks := Ascending(p.clients.Keys);
    assert forall i :: 0 <= i < |ks| ==> ks[i] in ks;
    assert NoDup(Bound(p));
    NoDupConcat(Bound(p), p.primary);
    NoDupConcat(Bound(p) + p.primary, p.secondary);
    NoDupConcat(Bound(p) + p.primary + p.secondary, p.startup);
  }

  /** stop_all_clients stops every contained adapter once and touches no other. */
  lemma StopAllRetires(p: Pool)
    requires Linked(p) && Exclusive(p)
    ensures var q := StopAll(p);
      |q.ledger| == |p.ledger| && forall a :: 0 <= a < |p.ledger| ==>
        q.ledger[a] == if Contained(p, a) then Stop(p.ledger[a]) else p.ledger[a]
  {
    ContainedOnce(p);
    var list := AllContained(p);
    assert forall i :: 0 <= i < |list| ==> list[i] in list && Contained(p, list[i]);
    StopEachStopsOnce(p.ledger, list);
  }

  /** All old adapters are stopped and gone, and exactly the new ones are in place. */
  lemma RenewedIsValid(p: Pool, q: Pool)
    requires Inv(p) && |p.ledger| <= |q.ledger|
    requires forall a :: 0 <= a < |p.ledger| ==>
      q.ledger[a] == if Contained(p, a) then Stop(p.ledger[a]) else p.ledger[a]
    requires forall a :: |p.ledger| <= a < |q.ledger| ==> q.ledger[a] == Opened(q)
    requires forall a: nat :: Contained(q, a) <==> |p.ledger| <= a < |q.ledger|
    requires Exclusive(q) && Sized(q)
    ensures Inv(q)
  {
    forall a | 0 <= a < |q.ledger| ensures Seat(q, a, q.ledger[a]) {
      if a < |p.ledger| {
        assert Seat(p, a, p.ledger[a]) && !Contained(q, a);
      }
    }
  }

  lemma FilledInOrder(q: Pool, ids: seq<IoId>, base: nat, primary: nat, startup: nat)
    requires NoDup(ids) && q.clients == Renumber(ids, base)
    requires q.primary == Range(base + |ids|, primary) && q.startup == Range(base + |ids| + primary, startup)
    requires q.secondary == []
    ensures Exclusive(q)
    ensures forall a: nat :: Contained(q, a) <==> base <= a < base + |ids| + primary + startup
  {
    forall a | base <= a < base + |ids| ensures a in q.clients.Values {
      assert ids[a - base] in ids && q.clients[ids[a - base]] == a;
    }
    forall a: nat ensures Contained(q, a) <==> base <= a < base + |ids| + primary + startup {
      if a in q.clients.Values {
        var id :| id in q.clients && q.clients[id] == a;
      }
    }
  }

  lemma ReconfigureFills(p: Pool, opt: Options)
    requires Linked(p)
    ensures var q := Reconfigure(p, opt);
      && Exclusive(q)
      && (forall a: nat :: Contained(q, a) <==> |p.ledger| <= a < |q.ledger|)
  {
    var q := Reconfigure(p, opt);
    var ids := Ascending(p.clients.Keys);
    var fill := if p.startupFlag then opt.startupPool else 0;
    FilledInOrder(q, ids, |p.ledger|, opt.primaryPool, fill);
  }

  lemma ReconfigureKeeps(p: Pool, opt: Options)
    requires Inv(p)
    ensures Inv(Reconfigure(p, opt))
  {
    StopAllRetires(p);
    ReconfigureFills(p, opt);
    RenewedIsValid(p, Reconfigure(p, opt));
  }

  lemma ShutdownKeeps(p: Pool)
    requires Inv(p)
    ensures Inv(Shutdown(p))
  {
    StopAllRetires(p);
    RenewedIsValid(p, Shutdown(p));
  }

  // ----- Whole runs

  lemma ApplyKeeps(p: Pool, op: Op)
    requires Inv(p)
    ensures Inv(Apply(p, op))
  {
    match op
    case OpReg(id, itf) => RegKeeps(p, id, itf);
    case OpUnreg(id) => UnregKeeps(p, id);
    case OpSend(id, h, alive, r) => SendKeeps(p, id, h, alive, r);
    case OpReceive(a, alive) =>
      if a < |p.ledger| { PutKeeps(p, a, Receive(p.ledger[a], alive)); }
    case OpAnswer(a, alive, r) =>
      if a < |p.ledger| { PutKeeps(p, a, Answer(p.ledger[a], alive, r)); }
    case OpReconfigure(opt) => ReconfigureKeeps(p, opt);
    case OpStop => ShutdownKeeps(p);
  }

  /** Calls of sources and arriving data, but no reconfiguration and no stop. */
  predicate IsTraffic(op: Op) {
    !op.OpReconfigure? && !op.OpStop?
  }

  predicate Traffic(ops: seq<Op>) {
    forall i :: 0 <= i < |ops| ==> IsTraffic(ops[i])
  }

  /** The state after a sequence of complete calls. */
  ghost function RunFrom(p: Pool, ops: seq<Op>): (q: Pool)
    requires Inv(p)
    ensures Inv(q)
    decreases |ops|
  {
    if ops == [] then p else
      var q := RunFrom(p, ops[..|ops| - 1]);
      ApplyKeeps(q, ops[|ops| - 1]);
      Apply(q, ops[|ops| - 1])
  }

  /** ... starting with a newly constructed map. */
  ghost function Run(ops: seq<Op>): (p: Pool)
    ensures Inv(p)
  {
    RunFrom(EMPTY_POOL, ops)
  }

  lemma RunSnoc(ops: seq<Op>, op: Op)
    ensures Run(ops + [op]) == Apply(Run(ops), op)
  {
    assert (ops + [op])[..|ops|] == ops;
  }

  /** The state after the first reconfigure_and_start. */
  lemma FirstStart(opt: Options)
    ensures var p := Run([OpReconfigure(opt)]);
      && p.clients == map[] && p.secondary == [] && !p.stopFlag && p.opt == opt
      && p.primary == Range(0, opt.primaryPool)
      && p.startup == Range(opt.primaryPool, opt.startupPool)
      && |p.ledger| == opt.primaryPool + opt.startupPool
  {
    RunSnoc([], OpReconfigure(opt));
    assert [] + [OpReconfigure(opt)] == [OpReconfigure(opt)];
    assert Run([OpReconfigure(opt)]).clients.Keys == {};
  }
}
