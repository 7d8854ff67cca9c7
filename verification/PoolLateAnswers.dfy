/**
  Answers that come late. Without keep_alive a receiver is handed a callback that sends over the
  adapter. When it is called after the adapter has gone back to a pool, the adapter is used under
  the id 0 and without a handler, and perform_io wraps that missing handler as its holder.
*/
module PoolLateAnswers {
  import opened Prelude
  import opened AdapterSpec
  import opened PoolSpec
  import opened PoolInvariants
  import opened PoolIsolation

  /** The adapter owns no wrapper, or only the empty one that a late answer leaves behind. */
  predicate Quiet(x: Adapter) {
    x.performHolder == Nobody || (x.performHolder == Reply(None) && x.lent)
  }

  /** An adapter without a source is quiet, unless it serves the senders without an id. */
  predicate CalmAt(p: Pool, a: nat, x: Adapter) {
    x.holderId == 0 && !(0 in p.clients && p.clients[0] == a) ==> Quiet(x)
  }

  ghost predicate Calm(p: Pool) {
    forall a :: 0 <= a < |p.ledger| && Contained(p, a) ==> CalmAt(p, a, p.ledger[a])
  }

  lemma PutCalm(p: Pool, a: nat, x: Adapter)
    requires Calm(p) && a < |p.ledger| && (Contained(p, a) ==> CalmAt(p, a, x))
    ensures Calm(Put(p, a, x))
  {
    var q := Put(p, a, x);
    forall b | 0 <= b < |q.ledger| && Contained(q, b) ensures CalmAt(q, b, q.ledger[b]) {
      assert Contained(p, b);
    }
  }

  lemma UpsertCalm(p: Pool, id: IoId)
    requires Inv(p) && Calm(p)
    ensures Calm(Upsert(p, id).pool)
  {
    var t := Upsert(p, id);
    TakeDetaches(p);
    UpsertKeeps(p, id);
    forall b | 0 <= b < |t.pool.ledger| && Contained(t.pool, b) ensures CalmAt(t.pool, b, t.pool.ledger[b]) {
      if b < |p.ledger| {
        assert Contained(p, b) && CalmAt(p, b, p.ledger[b]);
      }
    }
  }

  lemma RegCalm(p: Pool, id: IoId, itf: Option<ObjId>)
    requires Inv(p) && Calm(p)
    ensures Calm(Reg(p, id, itf))
  {
    if !p.stopFlag {
      var t := Upsert(p, id);
      UpsertCalm(p, id);
      UpsertKeeps(p, id);
      PutCalm(t.pool, t.adapter, RegIo(At(t.pool, t.adapter), id, itf));
    }
  }

  lemma SendCalm(p: Pool, id: IoId, handler: Option<HandlerId>, alive: set<ObjId>, result: SendResult)
    requires Inv(p) && Calm(p)
    ensures Calm(Send(p, id, handler, alive, result))
  {
    if !p.stopFlag {
      var t := Upsert(p, id);
      UpsertCalm(p, id);
      UpsertKeeps(p, id);
      assert Contained(t.pool, t.adapter);
      PutCalm(t.pool, t.adapter, PerformIo(At(t.pool, t.adapter), id, handler, alive, result));
    }
  }

  /** An adapter that loses its source, whichever it was, is quiet. */
  lemma ReleasedIsQuiet(p: Pool, id: IoId)
    requires Inv(p) && Calm(p) && id in p.clients
    ensures Quiet(UnregIo(At(p, p.clients[id]), id))
  {
    var a := p.clients[id];
    assert Contained(p, a) && Seat(p, a, p.ledger[a]) && CalmAt(p, a, p.ledger[a]);
  }

  lemma UnregCalm(p: Pool, id: IoId)
    requires Inv(p) && Calm(p)
    ensures Calm(Unreg(p, id))
  {
    if !p.stopFlag && id in p.clients {
      ReleasedIsQuiet(p, id);
      var a, r := p.clients[id], Unreg(p, id);
      forall b | 0 <= b < |r.ledger| && Contained(r, b) ensures CalmAt(r, b, r.ledger[b]) {
        if b != a {
          assert Contained(p, b) && CalmAt(p, b, p.ledger[b]);
        }
      }
    }
  }

  lemma DataCalm(p: Pool, a: nat, alive: set<ObjId>, result: SendResult)
    requires Calm(p) && a < |p.ledger|
    ensures Calm(Put(p, a, Receive(p.ledger[a], alive))) && Calm(Put(p, a, Answer(p.ledger[a], alive, result)))
  {
    PutCalm(p, a, Receive(p.ledger[a], alive));
    PutCalm(p, a, Answer(p.ledger[a], alive, result));
  }

  lemma ReconfigureCalm(p: Pool, opt: Options)
    requires Linked(p)
    ensures Calm(Reconfigure(p, opt))
  {
    ReconfigureFills(p, opt);
    var q := Reconfigure(p, opt);
    assert forall b :: |p.ledger| <= b < |q.ledger| ==> q.ledger[b] == Opened(q);
  }

  lemma StepCalm(p: Pool, op: Op)
    requires Inv(p) && Calm(p)
    ensures Calm(Apply(p, op))
  {
    match op
    case OpReg(id, itf) => RegCalm(p, id, itf);
    case OpUnreg(id) => UnregCalm(p, id);
    case OpSend(id, h, alive, r) => SendCalm(p, id, h, alive, r);
    case OpReceive(a, alive) => if a < |p.ledger| { DataCalm(p, a, alive, Sent); }
    case OpAnswer(a, alive, r) => if a < |p.ledger| { DataCalm(p, a, alive, r); }
    case OpReconfigure(opt) => ReconfigureCalm(p, opt);
    case OpStop => assert forall b: nat :: !Contained(Shutdown(p), b);
  }

  lemma {:induction false} RunCalm(ops: seq<Op>)
    ensures Calm(Run(ops))
    decreases |ops|
  {
    if ops != [] {
      RunCalm(ops[..|ops| - 1]);
      StepCalm(Run(ops[..|ops| - 1]), ops[|ops| - 1]);
    }
  }

  /** What a source that sends before it registers can find on the adapter it is given: nobody,
      an object that is still alive, or the empty wrapper of a late answer. Never the handler of
      another source. */
  lemma FirstSenderFinds(ops: seq<Op>, alive: set<ObjId>)
    ensures var next := Take(Run(ops)); var x := At(next.pool, next.adapter); var stale := Lock(x, alive);
      || stale == Nobody
      || (stale.Source? && stale.obj in alive)
      || (stale == Reply(None) && x.lent)
  {
    var p := Run(ops);
    RunCalm(ops);
    TakeDetaches(p);
    var a := Take(p).adapter;
    if a < |p.ledger| {
      assert Contained(p, a) && CalmAt(p, a, p.ledger[a]) && Seat(p, a, p.ledger[a]);
    }
  }

  /** Object 7 receives data as source 1, source 1 leaves, and object 7 answers. The next source
      sends with handler 9, but what arrives for it goes to an empty handler. */
  lemma LateAnswerIsInherited()
    ensures var ops := [OpReconfigure(Options(1, 0, 1, false, 0)), OpReg(1, Some(7)), OpReceive(0, {7}),
                        OpUnreg(1), OpAnswer(0, {7}, Sent), OpSend(2, Some(9), {}, Sent)];
      2 in Run(ops).clients && Hears(Run(ops), 2, {}) == Reply(None)
  {
    var opt := Options(1, 0, 1, false, 0);
    FirstStart(opt);
    FirstIsOpened(opt);
    var a, b, c, d := OpReconfigure(opt), OpReg(1, Some(7)), OpReceive(0, {7}), OpUnreg(1);
    var e, f := OpAnswer(0, {7}, Sent), OpSend(2, Some(9), {}, Sent);
    RunOfSix(a, b, c, d, e, f);
    AnswerAfterLeaving(Run([a]), Run([a, b]), Run([a, b, c]), Run([a, b, c, d]), Run([a, b, c, d, e]),
                       Run([a, b, c, d, e, f]));
  }

  lemma FirstIsOpened(opt: Options)
    requires opt.startupPool > 0
    ensures var p := Run([OpReconfigure(opt)]);
      opt.primaryPool < |p.ledger| && p.ledger[opt.primaryPool].keepAlive == opt.keepAlive
  {
    FirstStart(opt);
    assert opt.primaryPool in Run([OpReconfigure(opt)]).startup;
    assert Contained(Run([OpReconfigure(opt)]), opt.primaryPool);
  }

  lemma AnswerAfterLeaving(p: Pool, p1: Pool, p2: Pool, p3: Pool, p4: Pool, q: Pool)
    requires Linked(p) && Linked(p1) && Linked(p2) && Linked(p3) && Linked(p4)
    requires !p.stopFlag && p.clients == map[] && p.startup == [0] && p.secondary == []
    requires |p.ledger| >= 1 && p.opt.secondaryPool == 1 && !p.ledger[0].keepAlive
    requires p1 == Apply(p, OpReg(1, Some(7))) && p2 == Apply(p1, OpReceive(0, {7})) && p3 == Apply(p2, OpUnreg(1))
    requires p4 == Apply(p3, OpAnswer(0, {7}, Sent)) && q == Apply(p4, OpSend(2, Some(9), {}, Sent))
    ensures 2 in q.clients && Hears(q, 2, {}) == Reply(None)
  {
    assert p1.clients == map[1 := 0] && p1.startup == [] && p1.ledger[0].holder == Source(7);
    assert p2.ledger[0].lent && p2.ledger[0].holderId == 1;
    assert p3.secondary == [0] && p3.ledger[0].holderId == 0;
    assert p4.ledger[0].holder == Reply(None) == p4.ledger[0].performHolder;
  }

  lemma RunOfSix(a: Op, b: Op, c: Op, d: Op, e: Op, f: Op)
    ensures Run([a, b]) == Apply(Run([a]), b)
    ensures Run([a, b, c]) == Apply(Run([a, b]), c)
    ensures Run([a, b, c, d]) == Apply(Run([a, b, c]), d)
    ensures Run([a, b, c, d, e]) == Apply(Run([a, b, c, d]), e)
    ensures Run([a, b, c, d, e, f]) == Apply(Run([a, b, c, d, e]), f)
  {
    assert [a, b, c, d] + [e] == [a, b, c, d, e] && [a, b, c, d, e] + [f] == [a, b, c, d, e, f];
    RunOfFour(a, b, c, d);
    RunSnoc([a, b, c, d], e);
    RunSnoc([a, b, c, d, e], f);
  }

  // ----- With keep_alive there are no late answers

  predicate KeepsAlive(op: Op) {
    op.OpReconfigure? ==> op.opt.keepAlive
  }

  ghost predicate NothingLent(p: Pool) {
    p.opt.keepAlive && forall a :: 0 <= a < |p.ledger| ==> p.ledger[a].keepAlive && !p.ledger[a].lent
  }

  lemma PutLendsNothing(p: Pool, a: nat, x: Adapter)
    requires NothingLent(p) && (a < |p.ledger| ==> x.keepAlive && !x.lent)
    ensures NothingLent(Put(p, a, x))
  {
  }

  lemma UpsertLendsNothing(p: Pool, id: IoId)
    requires Inv(p) && NothingLent(p)
    ensures NothingLent(Upsert(p, id).pool)
  {
  }

  lemma CallLendsNothing(p: Pool, op: Op)
    requires Inv(p) && NothingLent(p) && (op.OpReg? || op.OpUnreg? || op.OpSend?)
    ensures NothingLent(Apply(p, op))
  {
    if op.OpUnreg? {
      UnregLendsNothing(p, op.id);
    } else if !p.stopFlag {
      var t := Upsert(p, op.id);
      UpsertLendsNothing(p, op.id);
      UpsertKeeps(p, op.id);
      var x := At(t.pool, t.adapter);
      PutLendsNothing(t.pool, t.adapter,
        if op.OpReg? then RegIo(x, op.id, op.itf) else PerformIo(x, op.id, op.handler, op.alive, op.result));
    }
  }

  lemma UnregLendsNothing(p: Pool, id: IoId)
    requires NothingLent(p)
    ensures NothingLent(Unreg(p, id))
  {
  }

  lemma StopLendsNothing(p: Pool)
    requires Inv(p) && NothingLent(p)
    ensures NothingLent(StopAll(p))
  {
    StopAllRetires(p);
  }

  lemma StepLendsNothing(p: Pool, op: Op)
    requires Inv(p) && NothingLent(p) && KeepsAlive(op)
    ensures NothingLent(Apply(p, op))
  {
    if op.OpReceive? {
      PutLendsNothing(p, op.adapter, Receive(At(p, op.adapter), op.alive));
    } else if op.OpAnswer? {
      PutLendsNothing(p, op.adapter, Answer(At(p, op.adapter), op.alive, op.result));
    } else if op.OpReconfigure? || op.OpStop? {
      StopLendsNothing(p);
    } else {
      CallLendsNothing(p, op);
    }
  }

  /** If keep_alive is on in every configuration, no receiver is ever handed a callback, and a source
      that sends first inherits nothing but an object that is alive. */
  lemma {:induction false} KeepAliveLendsNothing(ops: seq<Op>, alive: set<ObjId>)
    requires forall i :: 0 <= i < |ops| ==> KeepsAlive(ops[i])
    ensures NothingLent(Run(ops))
    ensures var next := Take(Run(ops)); var stale := Lock(At(next.pool, next.adapter), alive);
      stale == Nobody || (stale.Source? && stale.obj in alive)
    decreases |ops|
  {
    if ops != [] {
      KeepAliveLendsNothing(ops[..|ops| - 1], alive);
      StepLendsNothing(Run(ops[..|ops| - 1]), ops[|ops| - 1]);
    }
    FirstSenderFinds(ops, alive);
  }

  /** A sender without an id always gets its answers itself. */
  lemma AnonymousSender(ops: seq<Op>, send: Op, alive: set<ObjId>)
    requires send.OpSend? && send.id == 0 && !Run(ops).stopFlag
    ensures var q := Run(ops + [send]);
      0 in q.clients && Hears(q, 0, alive) == Reply(send.handler)
  {
    UpsertKeeps(Run(ops), 0);
    RunSnoc(ops, send);
  }
}
