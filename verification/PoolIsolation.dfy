/**
  Who receives the data that arrives on a connection. The adapter keeps its last holder when it
  goes back to a pool, so this is a property of whole runs: it holds when every id registers
  before it sends, and fails in exactly one way otherwise.
*/
module PoolIsolation {
  import opened Prelude
  import opened AdapterSpec
  import opened PoolSpec
  import opened PoolInvariants

  /** The object that inbound data on the adapter bound to `id` is handed to. */
  function Hears(p: Pool, id: IoId, alive: set<ObjId>): Holder
    requires id in p.clients
  {
    Lock(At(p, p.clients[id]), alive)
  }

  // ----- What the calls alone say

  function Halted(ops: seq<Op>): bool {
    if ops == [] then false else
      match ops[|ops| - 1]
      case OpStop => true
      case OpReconfigure(_) => false
      case _ => Halted(ops[..|ops| - 1])
  }

  /** The ids registered and not unregistered since, with the object each one named last. */
  function Registered(ops: seq<Op>): map<IoId, Option<ObjId>> {
    if ops == [] then map[] else
      var before := ops[..|ops| - 1];
      match ops[|ops| - 1]
      case OpReg(id, itf) => if Halted(before) then Registered(before) else Registered(before)[id := itf]
      case OpUnreg(id) => Registered(before) - {id}
      case OpStop => map[]
      case _ => Registered(before)
  }

  /** The handlers each id has ever passed along with a message. */
  function Offered(ops: seq<Op>): set<(IoId, HandlerId)> {
    if ops == [] then {} else
      var before := Offered(ops[..|ops| - 1]);
      match ops[|ops| - 1]
      case OpSend(id, Some(h), _, _) => before + {(id, h)}
      case _ => before
  }

  /** Every source has a positive id and registers before it sends. */
  predicate RegistersFirst(ops: seq<Op>) {
    forall i :: 0 <= i < |ops| ==>
      && (ops[i].OpReg? ==> ops[i].id > 0)
      && (ops[i].OpSend? ==> ops[i].id > 0 && (ops[i].id in Registered(ops[..i]) || Halted(ops[..i])))
  }

  // ----- The invariant

  /** The adapter of `id` is held by `id` with something `id` supplied, or has not been used yet. */
  predicate Own(x: Adapter, id: IoId, itf: Option<ObjId>, offered: set<(IoId, HandlerId)>) {
    || (x.holderId == id && x.holder == FromWeak(itf))
    || (x.holderId == id && x.holder.Reply? && x.holder.handler.Some? && (id, x.holder.handler.value) in offered)
    || (x.holderId == 0 && x.holder == Nobody && !x.lent)
  }

  predicate Isolated(p: Pool, reg: map<IoId, Option<ObjId>>, offered: set<(IoId, HandlerId)>) {
    && p.clients.Keys == reg.Keys
    && forall id :: id in p.clients ==>
         id > 0 && p.clients[id] < |p.ledger| && Own(p.ledger[p.clients[id]], id, reg[id], offered)
  }

  /** One id gets an adapter of its own; those of the others stay as they are. */
  lemma OneMoreIsolated(p: Pool, r: Pool, reg: map<IoId, Option<ObjId>>, offered: set<(IoId, HandlerId)>,
                        id: IoId, itf: Option<ObjId>, a: nat)
    requires Isolated(p, reg, offered) && id > 0 && r.clients == p.clients[id := a]
    requires forall j :: j in p.clients && j != id ==> p.clients[j] != a
    requires |p.ledger| <= |r.ledger| && a < |r.ledger| && Own(r.ledger[a], id, itf, offered)
    requires forall b :: 0 <= b < |p.ledger| && b != a ==> r.ledger[b] == p.ledger[b]
    ensures Isolated(r, reg[id := itf], offered)
  {
  }

  lemma RegIsolates(p: Pool, reg: map<IoId, Option<ObjId>>, offered: set<(IoId, HandlerId)>, id: IoId, itf: Option<ObjId>)
    requires Inv(p) && Isolated(p, reg, offered) && !p.stopFlag && id > 0
    ensures Isolated(Reg(p, id, itf), reg[id := itf], offered)
  {
    UpsertKeeps(p, id);
    var t := Upsert(p, id);
    forall j | j in p.clients && j != id ensures p.clients[j] != t.adapter {
      assert t.pool.clients[j] == p.clients[j];
    }
    OneMoreIsolated(p, Reg(p, id, itf), reg, offered, id, itf, t.adapter);
  }

  lemma PerformKeepsOwn(x: Adapter, id: IoId, itf: Option<ObjId>, offered: set<(IoId, HandlerId)>,
                        handler: Option<HandlerId>, alive: set<ObjId>, result: SendResult)
    requires id > 0 && Own(x, id, itf, offered)
    ensures Own(PerformIo(x, id, handler, alive, result), id, itf,
                if handler.Some? then offered + {(id, handler.value)} else offered)
  {
  }

  lemma SendIsolates(p: Pool, reg: map<IoId, Option<ObjId>>, offered: set<(IoId, HandlerId)>, op: Op)
    requires Inv(p) && Isolated(p, reg, offered) && !p.stopFlag
    requires op.OpSend? && op.id in p.clients
    ensures Isolated(Apply(p, op), reg, if op.handler.Some? then offered + {(op.id, op.handler.value)} else offered)
  {
    PerformKeepsOwn(p.ledger[p.clients[op.id]], op.id, reg[op.id], offered, op.handler, op.alive, op.result);
  }

  lemma UnregIsolates(p: Pool, reg: map<IoId, Option<ObjId>>, offered: set<(IoId, HandlerId)>, id: IoId)
    requires Isolated(p, reg, offered) && !p.stopFlag
    requires forall i, j :: i in p.clients && j in p.clients && i != j ==> p.clients[i] != p.clients[j]
    ensures Isolated(Unreg(p, id), reg - {id}, offered)
  {
    var q := Unreg(p, id);
    if id in p.clients {
      assert q.clients == p.clients - {id} && |q.ledger| == |p.ledger|;
      assert forall b :: 0 <= b < |p.ledger| && b != p.clients[id] ==> q.ledger[b] == p.ledger[b];
      assert q.clients.Keys == (reg - {id}).Keys;
    } else {
      assert reg - {id} == reg;
    }
  }

  lemma TouchKeepsOwn(x: Adapter, id: IoId, itf: Option<ObjId>, offered: set<(IoId, HandlerId)>,
                      alive: set<ObjId>, result: SendResult)
    requires id > 0 && Own(x, id, itf, offered)
    ensures Own(Receive(x, alive), id, itf, offered) && Own(Answer(x, alive, result), id, itf, offered)
  {
  }

  lemma TouchIsolates(p: Pool, reg: map<IoId, Option<ObjId>>, offered: set<(IoId, HandlerId)>, op: Op)
    requires Linked(p) && Isolated(p, reg, offered) && (op.OpReceive? || op.OpAnswer?)
    ensures Isolated(Apply(p, op), reg, offered)
  {
    var q := Apply(p, op);
    var result := if op.OpAnswer? then op.result else Sent;
    forall id | id in p.clients ensures Own(q.ledger[p.clients[id]], id, reg[id], offered) {
      var x := p.ledger[p.clients[id]];
      TouchKeepsOwn(x, id, reg[id], offered, op.alive, result);
      var y := q.ledger[p.clients[id]];
      assert y == x || y == Receive(x, op.alive) || y == Answer(x, op.alive, result);
    }
  }

  lemma RenewedIsolates(p: Pool, ids: seq<IoId>, reg: map<IoId, Option<ObjId>>,
                        offered: set<(IoId, HandlerId)>, opt: Options)
    requires (forall id :: id in ids <==> id in reg) && (forall id :: id in reg ==> id > 0)
    ensures Isolated(Renewed(p, ids, opt), reg, offered)
  {
    var q := Renewed(p, ids, opt);
    forall id | id in q.clients
      ensures |p.ledger| <= q.clients[id] < |q.ledger|
      ensures q.ledger[q.clients[id]] == Start(NEW_ADAPTER, opt, p.generation + 1)
    {
      assert q.clients[id] == |p.ledger| + IndexOf(ids, id);
    }
  }

  lemma ReconfigureIsolates(p: Pool, reg: map<IoId, Option<ObjId>>, offered: set<(IoId, HandlerId)>, opt: Options)
    requires Linked(p) && Isolated(p, reg, offered)
    ensures Isolated(Reconfigure(p, opt), reg, offered) && !Reconfigure(p, opt).stopFlag
  {
    RenewedIsolates(StopAll(p), Ascending(p.clients.Keys), reg, offered, opt);
  }

  /** A stopped map has no bindings and ignores the three calls. */
  lemma StoppedIgnores(p: Pool, before: seq<Op>, op: Op)
    requires Linked(p) && p.stopFlag && Halted(before) && p.clients == map[]
    requires Registered(before).Keys == {} && (op.OpReg? || op.OpUnreg? || op.OpSend?)
    ensures var ops := before + [op];
      Apply(p, op) == p && Registered(ops).Keys == {} && Halted(ops)
  {
    assert (before + [op])[..|before|] == before;
  }

  /** The three summaries of the calls so far describe the state. */
  ghost predicate Described(p: Pool, ops: seq<Op>) {
    && Isolated(p, Registered(ops), Offered(ops))
    && p.stopFlag == Halted(ops) && (p.stopFlag ==> p.clients == map[])
  }

  lemma CallIsolates(p: Pool, before: seq<Op>, op: Op)
    requires Inv(p) && Described(p, before) && !p.stopFlag && (op.OpReg? || op.OpUnreg? || op.OpSend?)
    requires op.OpReg? ==> op.id > 0
    requires op.OpSend? ==> op.id in Registered(before)
    ensures Described(Apply(p, op), before + [op])
  {
    assert (before + [op])[..|before|] == before;
    var reg, offered := Registered(before), Offered(before);
    match op
    case OpReg(id, itf) => RegIsolates(p, reg, offered, id, itf);
    case OpUnreg(id) => UnregIsolates(p, reg, offered, id);
    case _ => SendIsolates(p, reg, offered, op);
  }

  lemma RebuildDescribed(before: seq<Op>, opt: Options, q: Pool)
    requires Isolated(q, Registered(before), Offered(before)) && !q.stopFlag
    ensures Described(q, before + [OpReconfigure(opt)])
  {
    assert (before + [OpReconfigure(opt)])[..|before|] == before;
  }

  lemma RebuildIsolates(p: Pool, before: seq<Op>, op: Op, q: Pool)
    requires Linked(p) && Described(p, before) && op.OpReconfigure? && q == Apply(p, op)
    ensures Described(q, before + [op])
  {
    var opt := op.opt;
    assert op == OpReconfigure(opt);
    ReconfigureIsolates(p, Registered(before), Offered(before), opt);
    assert q == Reconfigure(p, opt);
    RebuildDescribed(before, opt, q);
  }

  lemma HaltIsolates(p: Pool, before: seq<Op>, op: Op, q: Pool)
    requires Linked(p) && op.OpStop? && q == Apply(p, op)
    ensures Described(q, before + [op])
  {
  }

  lemma DataIsolates(p: Pool, before: seq<Op>, op: Op, q: Pool)
    requires Linked(p) && Described(p, before) && (op.OpReceive? || op.OpAnswer?) && q == Apply(p, op)
    ensures Described(q, before + [op])
  {
    assert (before + [op])[..|before|] == before;
    TouchIsolates(p, Registered(before), Offered(before), op);
  }

  lemma OtherStepIsolates(p: Pool, before: seq<Op>, op: Op, q: Pool)
    requires Inv(p) && Described(p, before) && !op.OpReg? && !op.OpUnreg? && !op.OpSend? && q == Apply(p, op)
    ensures Described(q, before + [op])
  {
    if op.OpReconfigure? {
      RebuildIsolates(p, before, op, q);
    } else if op.OpStop? {
      HaltIsolates(p, before, op, q);
    } else {
      DataIsolates(p, before, op, q);
    }
  }

  lemma {:induction false} RunIsolates(ops: seq<Op>)
    requires RegistersFirst(ops)
    ensures Described(Run(ops), ops)
    decreases |ops|
  {
    if ops != [] {
      var last := |ops| - 1;
      var before := ops[..last];
      assert ops == before + [ops[last]];
      forall i | 0 <= i < last ensures before[..i] == ops[..i] {}
      RunIsolates(before);
      var p := Run(before);
      if !ops[last].OpReg? && !ops[last].OpUnreg? && !ops[last].OpSend? {
        OtherStepIsolates(p, before, ops[last], Run(ops));
      } else if p.stopFlag {
        StoppedIgnores(p, before, ops[last]);
      } else {
        CallIsolates(p, before, ops[last]);
      }
    }
  }

  /** However often adapters are recycled or rebuilt: exactly the registered ids are bound, and
      what arrives for an id reaches the object it registered last, a handler it passed, or nobody. */
  lemma Isolation(ops: seq<Op>, id: IoId, alive: set<ObjId>)
    requires RegistersFirst(ops)
    ensures id in Run(ops).clients <==> id in Registered(ops)
    ensures id in Run(ops).clients ==>
      match Hears(Run(ops), id, alive)
      case Nobody => true
      case Source(o) => Registered(ops)[id] == Some(o) && o in alive
      case Reply(h) => h.Some? && (id, h.value) in Offered(ops)
  {
    RunIsolates(ops);
  }

  // ----- Sending first

  /** A source that sends before it registers gets the next adapter, and with it whatever object
      still holds it: data reaches another object exactly if that object is alive. */
  lemma SendingFirst(ops: seq<Op>, send: Op)
    requires send.OpSend? && send.handler.Some? && send.id > 0
    requires !Run(ops).stopFlag && send.id !in Run(ops).clients
    ensures var p := Run(ops); var q := Run(ops + [send]); var next := Take(p);
      var stale := Lock(At(next.pool, next.adapter), send.alive);
      && send.id in q.clients
      && Hears(q, send.id, send.alive) == (if stale == Nobody then Reply(send.handler) else stale)
      && ((exists o :: Hears(q, send.id, send.alive) == Source(o)) <==> stale.Source?)
  {
    var p := Run(ops);
    assert (ops + [send])[..|ops|] == ops;
    UpsertKeeps(p, send.id);
    var next := Take(p);
    var stale := Lock(At(next.pool, next.adapter), send.alive);
    assert stale.Source? ==> stale == Source(stale.obj);
  }

  /** Source 1 registers object 7 and leaves; source 2 sends without registering; the answer to
      source 2 is delivered to object 7. */
  lemma SendingFirstIsNotIsolated()
    ensures var ops := [OpReconfigure(Options(1, 0, 1, true, 0)), OpReg(1, Some(7)), OpUnreg(1),
                        OpSend(2, Some(9), {7}, Sent)];
      && 2 in Run(ops).clients && Hears(Run(ops), 2, {7}) == Source(7)
  {
    var opt := Options(1, 0, 1, true, 0);
    FirstStart(opt);
    LeaveAndSend(Run([OpReconfigure(opt)]));
    RunOfFour(OpReconfigure(opt), OpReg(1, Some(7)), OpUnreg(1), OpSend(2, Some(9), {7}, Sent));
  }

  lemma RunOfFour(a: Op, b: Op, c: Op, d: Op)
    ensures Run([a, b]) == Apply(Run([a]), b)
    ensures Run([a, b, c]) == Apply(Run([a, b]), c)
    ensures Run([a, b, c, d]) == Apply(Run([a, b, c]), d)
  {
    assert [a] + [b] == [a, b] && [a, b] + [c] == [a, b, c] && [a, b, c] + [d] == [a, b, c, d];
    RunSnoc([a], b);
    RunSnoc([a, b], c);
    RunSnoc([a, b, c], d);
  }

  lemma LeaveAndSend(p: Pool)
    requires Linked(p) && !p.stopFlag && p.clients == map[] && p.startup == [0] && p.secondary == []
    requires |p.ledger| >= 1 && p.opt.secondaryPool == 1
    ensures var q := Send(Unreg(Reg(p, 1, Some(7)), 1), 2, Some(9), {7}, Sent);
      2 in q.clients && Hears(q, 2, {7}) == Source(7)
  {
    var p2 := Reg(p, 1, Some(7));
    assert p2.clients[1] == 0 && p2.ledger[0].holder == Source(7) && p2.startup == [];
    var p3 := Unreg(p2, 1);
    assert p3.secondary == [0] && p3.ledger[0].holder == Source(7) && p3.startup == [];
    assert 2 !in p3.clients;
  }
}
