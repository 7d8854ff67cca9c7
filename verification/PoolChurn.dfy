/**
  The amortised cost of the pool: with a secondary pool that is large enough for the busiest
  moment of a run, no client is ever stopped and a new one is opened only when more ids are
  bound than ever before.
*/
module PoolChurn {
  import opened Prelude
  import opened AdapterSpec
  import opened PoolSpec
  import opened PoolInvariants
  import opened PoolTheorems

  function Max(a: int, b: int): int {
    if a >= b then a else b
  }

  /** The largest number of ids bound at any moment of the run. */
  ghost function Peak(p: Pool, ops: seq<Op>): int
    requires Inv(p)
    decreases |ops|
  {
    if ops == [] then |p.clients|
    else Max(Peak(p, ops[..|ops| - 1]), |RunFrom(p, ops).clients|)
  }

  /** Adapters that are bound or waiting for a second use. */
  function Circulating(p: Pool): nat {
    |p.clients| + |p.startup| + |p.secondary|
  }

  /** No adapter was stopped between p and q. */
  predicate NoneStopped(p: Pool, q: Pool) {
    |p.ledger| <= |q.ledger| && forall a :: 0 <= a < |q.ledger| ==>
      q.ledger[a].stops == if a < |p.ledger| then p.ledger[a].stops else 0
  }

  ghost predicate Balanced(p: Pool, q: Pool, peak: int) {
    && !q.stopFlag && q.opt == p.opt
    && |q.clients| <= peak
    && Circulating(q) == |p.startup| + (|q.ledger| - |p.ledger|)
    && |q.ledger| - |p.ledger| == Max(0, peak - |p.startup|)
    && NoneStopped(p, q)
  }

  /** An acquisition opens a client exactly when nothing circulates unbound. */
  lemma AcquireStep(q: Pool, op: Op)
    requires Inv(q) && !q.stopFlag && Acquires(q, op)
    ensures var r := Apply(q, op);
      && !r.stopFlag && r.opt == q.opt && |r.clients| == |q.clients| + 1
      && |r.ledger| == |q.ledger| + (if Circulating(q) == |q.clients| then 1 else 0)
      && Circulating(r) == Circulating(q) + (|r.ledger| - |q.ledger|)
      && NoneStopped(q, r)
  {
    AcquisitionStep(q, op);
  }

  /** A release keeps its client when the secondary pool has room. */
  lemma ReleaseStep(q: Pool, id: IoId)
    requires Inv(q) && !q.stopFlag && id in q.clients && |q.secondary| < q.opt.secondaryPool
    ensures var r := Unreg(q, id);
      && !r.stopFlag && r.opt == q.opt && |r.clients| == |q.clients| - 1
      && |r.ledger| == |q.ledger| && Circulating(r) == Circulating(q) && NoneStopped(q, r)
  {
    var r := Unreg(q, id);
    assert r.clients == q.clients - {id};
    assert r.clients.Keys == q.clients.Keys - {id};
    assert |r.clients.Keys| == |q.clients.Keys| - 1;
  }

  /** Everything else leaves the containers alone. */
  lemma OtherStep(q: Pool, op: Op)
    requires Inv(q) && !q.stopFlag && IsTraffic(op) && !Acquires(q, op)
    requires op.OpUnreg? ==> op.id !in q.clients
    ensures var r := Apply(q, op);
      && !r.stopFlag && r.opt == q.opt && r.clients == q.clients && |r.ledger| == |q.ledger|
      && Circulating(r) == Circulating(q) && NoneStopped(q, r)
  {
  }

  lemma NoneStoppedTransitive(p: Pool, q: Pool, r: Pool)
    requires NoneStopped(p, q) && NoneStopped(q, r)
    ensures NoneStopped(p, r)
  {
  }

  lemma BalancedStep(p: Pool, q: Pool, peak: int, op: Op)
    requires Inv(q) && Balanced(p, q, peak) && IsTraffic(op)
    requires p.opt.secondaryPool >= Max(|p.startup|, peak)
    ensures Balanced(p, Apply(q, op), Max(peak, |Apply(q, op).clients|))
  {
    if Acquires(q, op) {
      AcquireStep(q, op);
    } else if op.OpUnreg? && op.id in q.clients {
      ReleaseStep(q, op.id);
    } else {
      OtherStep(q, op);
    }
    NoneStoppedTransitive(p, q, Apply(q, op));
  }

  /** From any configured state without bound ids and recycled clients, and over traffic of any
      length: no client is stopped, and exactly peak - startup ones (if positive) are opened. */
  lemma {:induction false} BoundedChurn(p: Pool, ops: seq<Op>)
    requires Inv(p) && !p.stopFlag && p.clients == map[] && p.secondary == []
    requires Traffic(ops) && p.opt.secondaryPool >= Max(|p.startup|, Peak(p, ops))
    ensures NoneStopped(p, RunFrom(p, ops))
    ensures |RunFrom(p, ops).ledger| - |p.ledger| == Max(0, Peak(p, ops) - |p.startup|)
    ensures Balanced(p, RunFrom(p, ops), Peak(p, ops))
    decreases |ops|
  {
    if ops != [] {
      var before := ops[..|ops| - 1];
      BoundedChurn(p, before);
      BalancedStep(p, RunFrom(p, before), Peak(p, before), ops[|ops| - 1]);
    }
  }

  /** The case the configuration is made for: right after the first start. */
  lemma BoundedChurnAfterStart(opt: Options, ops: seq<Op>, m: nat)
    requires Traffic(ops)
    requires var p := Run([OpReconfigure(opt)]); Peak(p, ops) <= m && opt.secondaryPool >= Max(opt.startupPool, m)
    ensures var p := Run([OpReconfigure(opt)]); var q := RunFrom(p, ops);
      && NoneStopped(p, q)
      && |q.ledger| - |p.ledger| <= Max(0, m - opt.startupPool)
      && |p.ledger| == opt.startupPool + opt.primaryPool
  {
    FirstStart(opt);
    BoundedChurn(Run([OpReconfigure(opt)]), ops);
  }
}
