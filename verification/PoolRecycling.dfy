/** Recycled clients are reused in the order in which they came back. */
module PoolRecycling {
  import opened Prelude
  import opened AdapterSpec
  import opened PoolSpec
  import opened PoolInvariants
  import opened PoolTheorems
  import opened PoolChurn

  /** A release that finds room in the secondary pool. */
  predicate Returns(q: Pool, op: Op) {
    op.OpUnreg? && op.id in q.clients && |q.secondary| < q.opt.secondaryPool
  }

  /** An acquisition that finds the startup pool empty and the secondary pool not. */
  ghost predicate Redraws(q: Pool, op: Op) {
    Acquires(q, op) && q.startup == [] && q.secondary != []
  }

  /** The clients that came back, in the order of the releases. */
  ghost function Returned(p: Pool, ops: seq<Op>): seq<nat>
    requires Inv(p)
    decreases |ops|
  {
    if ops == [] then [] else
      var before, op := ops[..|ops| - 1], ops[|ops| - 1];
      var q := RunFrom(p, before);
      Returned(p, before) + (if Returns(q, op) then [q.clients[op.id]] else [])
  }

  ghost function Redrawn(p: Pool, ops: seq<Op>): nat
    requires Inv(p)
    decreases |ops|
  {
    if ops == [] then 0 else
      var before, op := ops[..|ops| - 1], ops[|ops| - 1];
      Redrawn(p, before) + One(Redraws(RunFrom(p, before), op))
  }

  /** What an acquisition, a release or anything else does to startup and secondary pool. */
  lemma StepMovesPools(q: Pool, op: Op, r: Pool)
    requires Inv(q) && !q.stopFlag && IsTraffic(op) && r == Apply(q, op)
    ensures !r.stopFlag
    ensures r.startup == if Acquires(q, op) && q.startup != [] then q.startup[1..] else q.startup
    ensures r.secondary ==
      if Redraws(q, op) then q.secondary[1..] else if Returns(q, op) then q.secondary + [q.clients[op.id]] else q.secondary
  {
    if Acquires(q, op) {
      AcquisitionStep(q, op);
    } else if op.OpUnreg? && op.id in q.clients {
      ReleaseMovesPools(q, op);
    } else {
      RestKeepsPools(q, op);
    }
  }

  lemma ReleaseMovesPools(q: Pool, op: Op)
    requires !q.stopFlag && op.OpUnreg? && op.id in q.clients
    ensures var r := Unreg(q, op.id);
      && !r.stopFlag && r.startup == q.startup
      && r.secondary == if Returns(q, op) then q.secondary + [q.clients[op.id]] else q.secondary
  {
  }

  lemma RestKeepsPools(q: Pool, op: Op)
    requires Linked(q) && !q.stopFlag && IsTraffic(op) && !Acquires(q, op) && (op.OpUnreg? ==> op.id !in q.clients)
    ensures var r := Apply(q, op); !r.stopFlag && r.startup == q.startup && r.secondary == q.secondary
  {
  }

  ghost predicate InLine(secondary: seq<nat>, line: seq<nat>, drawn: nat) {
    drawn <= |line| && secondary == line[drawn..]
  }

  lemma LineGoesOn(secondary: seq<nat>, line: seq<nat>, drawn: nat, x: nat)
    requires InLine(secondary, line, drawn)
    ensures InLine(secondary + [x], line + [x], drawn)
    ensures secondary != [] ==> InLine(secondary[1..], line, drawn + 1)
  {
  }

  /** Whatever is acquired, released and sent: the secondary pool is first in, first out. It holds what
      it held and what came back, in that order, without as many as were drawn from it. */
  lemma {:induction false} RecycledInOrder(p: Pool, ops: seq<Op>)
    requires Inv(p) && !p.stopFlag && Traffic(ops)
    ensures !RunFrom(p, ops).stopFlag
    ensures InLine(RunFrom(p, ops).secondary, p.secondary + Returned(p, ops), Redrawn(p, ops))
    decreases |ops|
  {
    if ops != [] {
      var before, op := ops[..|ops| - 1], ops[|ops| - 1];
      RecycledInOrder(p, before);
      var q := RunFrom(p, before);
      StepMovesPools(q, op, RunFrom(p, ops));
      OneMoreInLine(q, op, RunFrom(p, ops), p.secondary, Returned(p, before), Redrawn(p, before));
    }
  }

  lemma OneMoreInLine(q: Pool, op: Op, r: Pool, first: seq<nat>, returned: seq<nat>, drawn: nat)
    requires InLine(q.secondary, first + returned, drawn)
    requires r.secondary ==
      if Redraws(q, op) then q.secondary[1..] else if Returns(q, op) then q.secondary + [q.clients[op.id]] else q.secondary
    ensures InLine(r.secondary, first + (returned + (if Returns(q, op) then [q.clients[op.id]] else [])),
                   drawn + One(Redraws(q, op)))
  {
    var more := if Returns(q, op) then [q.clients[op.id]] else [];
    assert first + (returned + more) == (first + returned) + more;
    LineGoesOn(q.secondary, first + returned, drawn, if Returns(q, op) then q.clients[op.id] else 0);
  }
}
