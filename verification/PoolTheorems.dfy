/** What a user of the pool may rely on, for every run of complete calls of any length. */
module PoolTheorems {
  import opened Prelude
  import opened AdapterSpec
  import opened PoolSpec
  import opened PoolInvariants

  // ----- No leaked client, no double stop

  lemma {:induction false} NoDupCounts(s: seq<nat>, a: nat)
    requires NoDup(s)
    ensures multiset(s)[a] == if a in s then 1 else 0
  {
    if s != [] {
      assert s == [s[0]] + s[1..];
      NoDupConcat([s[0]], s[1..]);
      NoDupCounts(s[1..], a);
    }
  }

  /** Every adapter ever created was started once; it is in exactly one place, under the latest
      configuration, as long as it was not stopped, and in none after it was stopped once. */
  lemma NoLeakedClient(ops: seq<Op>, a: nat)
    requires a < |Run(ops).ledger|
    ensures var p := Run(ops); var x := p.ledger[a];
      && |x.starts| == 1 && x.stops <= 1
      && multiset(AllContained(p))[a] == 1 - x.stops
      && (x.stops == 0 ==> x.starts == [p.generation] && x.options == p.opt)
  {
    var p := Run(ops);
    ContainedOnce(p);
    NoDupCounts(AllContained(p), a);
  }

  /** The "Several sources are unacceptable" branch cannot be reached through the map. */
  lemma OneSourcePerAdapter(ops: seq<Op>, id: IoId)
    ensures var p := Run(ops); var t := Upsert(p, id);
      && !SeveralSources(At(t.pool, t.adapter), id)
      && (forall a :: 0 <= a < |p.ledger| && Pooled(p, a) ==> p.ledger[a].holderId == 0)
      && (forall a :: 0 <= a < |p.ledger| ==> !p.ledger[a].fatal)
  {
    var p := Run(ops);
    UpsertKeeps(p, id);
    var t := Upsert(p, id);
    assert Seat(t.pool, t.adapter, t.pool.ledger[t.adapter]);
    forall a | 0 <= a < |p.ledger| ensures !p.ledger[a].fatal && (Pooled(p, a) ==> p.ledger[a].holderId == 0) {
      assert Seat(p, a, p.ledger[a]);
    }
  }

  // ----- Before the first configuration

  /** A message sent before any configuration opens a client with the built-in options: one that keeps
      its connections alive and is not recycled but stopped when its id leaves. */
  lemma BeforeFirstStart(send: Op, leave: Op)
    requires send.OpSend? && leave == OpUnreg(send.id)
    ensures var p, q := Run([send]), Run([send] + [leave]);
      && p.clients == map[send.id := 0] && |p.ledger| == 1 && p.ledger[0].options == Options(1, 0, 0, true, 0)
      && q.clients == map[] && q.secondary == [] && |q.ledger| == 1 && q.ledger[0].stops == 1
  {
    assert [] + [send] == [send];
    RunSnoc([], send);
    SendOpens(Run([]), send, Run([send]));
    RunSnoc([send], leave);
    LeaveStops(Run([send]), leave, Run([send] + [leave]));
  }

  lemma SendOpens(p: Pool, send: Op, q: Pool)
    requires Linked(p) && p == EMPTY_POOL && send.OpSend? && q == Apply(p, send)
    ensures q.clients == map[send.id := 0] && |q.ledger| == 1 && q.ledger[0].options == Options(1, 0, 0, true, 0)
    ensures q.ledger[0].stops == 0 && q.secondary == [] && q.opt.secondaryPool == 0 && !q.stopFlag
  {
  }

  lemma LeaveStops(p: Pool, leave: Op, q: Pool)
    requires Linked(p) && leave.OpUnreg? && q == Apply(p, leave)
    requires p.clients == map[leave.id := 0] && |p.ledger| == 1 && p.ledger[0].stops == 0
    requires p.secondary == [] && p.opt.secondaryPool == 0 && !p.stopFlag
    ensures q.clients == map[] && q.secondary == [] && |q.ledger| == 1 && q.ledger[0].stops == 1
  {
  }

  // ----- How many clients are connected

  ghost function Connected(p: Pool): set<nat> {
    set a | 0 <= a < |p.ledger| && p.ledger[a].stops == 0
  }

  lemma {:induction false} NoDupSize(s: seq<nat>, t: set<nat>)
    requires NoDup(s) && forall a :: a in s <==> a in t
    ensures |s| == |t|
  {
    if s != [] {
      SplitFirst(s);
      NoDupSize(s[1..], t - {s[0]});
    } else {
      assert t == {};
    }
  }

  /** startup_pool of the first configuration. */
  function FirstStartup(ops: seq<Op>): nat {
    if ops == [] then 0
    else if ops[0].OpReconfigure? then ops[0].opt.startupPool
    else FirstStartup(ops[1..])
  }

  predicate Configured(ops: seq<Op>) {
    exists i :: 0 <= i < |ops| && ops[i].OpReconfigure?
  }

  lemma {:induction false} FirstStartupOfPrefix(ops: seq<Op>, op: Op)
    ensures FirstStartup(ops + [op]) ==
      if Configured(ops) then FirstStartup(ops) else if op.OpReconfigure? then op.opt.startupPool else 0
  {
    if ops == [] {
      assert (ops + [op])[1..] == [];
    } else {
      assert (ops + [op])[1..] == ops[1..] + [op];
      FirstStartupOfPrefix(ops[1..], op);
      if Configured(ops) && !ops[0].OpReconfigure? {
        var i :| 0 <= i < |ops| && ops[i].OpReconfigure?;
        assert ops[1..][i - 1].OpReconfigure?;
      }
      if Configured(ops[1..]) {
        var i :| 0 <= i < |ops[1..]| && ops[1..][i].OpReconfigure?;
        assert ops[i + 1].OpReconfigure?;
      }
    }
  }

  lemma StartupStep(p: Pool, op: Op)
    requires Inv(p)
    ensures var q := Apply(p, op);
      if op.OpReconfigure? then !q.startupFlag && |q.startup| == if p.startupFlag then op.opt.startupPool else 0
      else q.startupFlag == p.startupFlag && |q.startup| <= |p.startup|
  {
  }

  lemma ConfiguredSnoc(ops: seq<Op>, op: Op)
    ensures Configured(ops + [op]) <==> Configured(ops) || op.OpReconfigure?
  {
    if Configured(ops) {
      var i :| 0 <= i < |ops| && ops[i].OpReconfigure?;
      assert (ops + [op])[i].OpReconfigure?;
    }
    if op.OpReconfigure? {
      assert (ops + [op])[|ops|].OpReconfigure?;
    }
  }

  lemma {:induction false} StartupShrinks(ops: seq<Op>)
    ensures |Run(ops).startup| <= FirstStartup(ops)
    ensures Run(ops).startupFlag <==> !Configured(ops)
    decreases |ops|
  {
    if ops != [] {
      var last := |ops| - 1;
      var before := ops[..last];
      assert ops == before + [ops[last]];
      StartupShrinks(before);
      FirstStartupOfPrefix(before, ops[last]);
      ConfiguredSnoc(before, ops[last]);
      StartupStep(Run(before), ops[last]);
      RunSnoc(before, ops[last]);
    }
  }

  /** The number of connected clients, exactly, and its bound by the configuration. */
  lemma PoolBounds(ops: seq<Op>)
    ensures var p := Run(ops);
      && |Connected(p)| == |p.clients| + |p.startup| + |p.primary| + |p.secondary|
      && (!p.stopFlag ==> |p.primary| == p.opt.primaryPool)
      && |p.secondary| <= p.opt.secondaryPool
      && |p.startup| <= FirstStartup(ops)
      && (!p.stopFlag ==>
            |Connected(p)| <= |p.clients| + FirstStartup(ops) + p.opt.primaryPool + p.opt.secondaryPool)
  {
    var p := Run(ops);
    StartupShrinks(ops);
    ContainedOnce(p);
    NoDupSize(AllContained(p), Connected(p));
  }

  // ----- In which order clients are handed out

  ghost predicate Acquires(p: Pool, op: Op) {
    (op.OpReg? || op.OpSend?) && op.id !in p.clients
  }

  /** Each step binds an id that is not bound: acquisitions only, nothing is given back. */
  ghost predicate OnlyAcquires(p: Pool, ops: seq<Op>)
    requires Inv(p)
    decreases |ops|
  {
    ops == [] ||
    var before := ops[..|ops| - 1];
    OnlyAcquires(p, before) && Acquires(RunFrom(p, before), ops[|ops| - 1])
  }

  /** The n-th adapter to be handed out from now on: startup, secondary, primary, then new ones. */
  function Supply(p: Pool, n: nat): nat {
    if n < |Waiting(p)| then Waiting(p)[n] else |p.ledger| + (n - |Waiting(p)|)
  }

  function Waiting(p: Pool): seq<nat> {
    p.startup + p.secondary + p.primary
  }

  /** q hands out what p will hand out after k further acquisitions. */
  ghost predicate Shifted(p: Pool, q: Pool, k: nat) {
    forall n: nat :: Supply(q, n) == Supply(p, n + k)
  }

  /** What create_ does to the supply, seen as one sequence. */
  lemma TakeFromWaiting(p: Pool)
    ensures var t := Take(p); var w := Waiting(p);
      && (w == [] ==> |t.pool.ledger| == |p.ledger| + 1)
      && (w == [] ==> t.adapter == |p.ledger| && Waiting(t.pool) == [])
      && (w != [] ==> t.adapter == w[0])
      && (w != [] && |t.pool.ledger| == |p.ledger| ==> Waiting(t.pool) == w[1..])
      && (w != [] && |t.pool.ledger| != |p.ledger| ==>
            Waiting(t.pool) == w[1..] + [|p.ledger|] && |t.pool.ledger| == |p.ledger| + 1)
  {
    var t := Take(p);
    if p.startup != [] {
      assert Waiting(t.pool) == Waiting(p)[1..];
    } else if p.secondary != [] {
      assert Waiting(p) == p.secondary + p.primary;
      assert Waiting(t.pool) == Waiting(p)[1..];
    } else {
      assert Waiting(p) == p.primary;
      assert Waiting(t.pool) == t.pool.primary;
    }
  }

  lemma TakeFollowsSupply(p: Pool)
    ensures Take(p).adapter == Supply(p, 0) && Shifted(p, Take(p).pool, 1)
  {
    TakeFromWaiting(p);
    var q := Take(p).pool;
    forall n: nat ensures Supply(q, n) == Supply(p, n + 1) {}
  }

  lemma AcquisitionStep(p: Pool, op: Op)
    requires Inv(p) && !p.stopFlag && Acquires(p, op)
    ensures var q := Apply(p, op); var t := Take(p);
      && q.clients == p.clients[op.id := t.adapter] && q == t.pool.(clients := q.clients, ledger := q.ledger)
      && |q.ledger| == |t.pool.ledger|
  {
  }

  lemma SupplyStep(p: Pool, op: Op)
    requires Inv(p) && !p.stopFlag && Acquires(p, op)
    ensures var q := Apply(p, op);
      && !q.stopFlag && q.clients == p.clients[op.id := Supply(p, 0)] && Shifted(p, q, 1)
  {
    AcquisitionStep(p, op);
    TakeFollowsSupply(p);
    assert forall n: nat :: Supply(Apply(p, op), n) == Supply(Take(p).pool, n);
  }

  lemma ShiftedTwice(p: Pool, q: Pool, r: Pool, j: nat, k: nat)
    requires Shifted(p, q, j) && Shifted(q, r, k)
    ensures Shifted(p, r, j + k)
  {
    forall n: nat ensures Supply(r, n) == Supply(p, n + (j + k)) {
      assert Supply(q, n + k) == Supply(p, (n + k) + j);
    }
  }

  /** The id that op acquired for is bound to adapter a. */
  predicate Holds(q: Pool, op: Op, a: nat) {
    (op.OpReg? || op.OpSend?) && op.id in q.clients && q.clients[op.id] == a
  }

  /** The acquisitions were given the adapters of the supply, in order. */
  ghost predicate HandedOut(p: Pool, ops: seq<Op>, q: Pool) {
    forall i :: 0 <= i < |ops| ==> Holds(q, ops[i], Supply(p, i))
  }

  /** After these acquisitions q has handed out the supply up to here, and continues there. */
  ghost predicate InSupplyOrder(p: Pool, ops: seq<Op>, q: Pool) {
    !q.stopFlag && HandedOut(p, ops, q) && Shifted(p, q, |ops|)
  }

  lemma HandOutNext(p: Pool, ops: seq<Op>, q: Pool)
    requires ops != [] && Inv(q) && Acquires(q, ops[|ops| - 1])
    requires InSupplyOrder(p, ops[..|ops| - 1], q)
    ensures InSupplyOrder(p, ops, Apply(q, ops[|ops| - 1]))
  {
    var last := |ops| - 1;
    var before, op := ops[..last], ops[last];
    SupplyStep(q, op);
    var r := Apply(q, op);
    ShiftedTwice(p, q, r, last, 1);
    assert Supply(q, 0) == Supply(p, 0 + last);
    HandedOutMore(p, before, q, op, r);
    assert ops == before + [op];
  }

  lemma NothingHandedOut(p: Pool)
    requires !p.stopFlag
    ensures InSupplyOrder(p, [], p)
  {
  }

  lemma HandedOutMore(p: Pool, ops: seq<Op>, q: Pool, op: Op, r: Pool)
    requires HandedOut(p, ops, q) && Acquires(q, op) && r.clients == q.clients[op.id := Supply(p, |ops|)]
    ensures HandedOut(p, ops + [op], r)
  {
    forall i | 0 <= i < |ops + [op]| ensures Holds(r, (ops + [op])[i], Supply(p, i)) {
      if i < |ops| { assert Holds(q, ops[i], Supply(p, i)); }
    }
  }

  /** The n-th acquisition gets the n-th adapter of the supply, whatever the pools hold. */
  lemma {:induction false} AcquisitionOrder(p: Pool, ops: seq<Op>)
    requires Inv(p) && !p.stopFlag && OnlyAcquires(p, ops)
    ensures InSupplyOrder(p, ops, RunFrom(p, ops))
    decreases |ops|
  {
    if ops == [] {
      NothingHandedOut(p);
    } else {
      AcquisitionOrder(p, ops[..|ops| - 1]);
      HandOutNext(p, ops, RunFrom(p, ops[..|ops| - 1]));
    }
  }

  // ----- The primary pool under any traffic

  /** What comes out of the primary pool: the clients in it, then n replacements as they are opened. */
  function PrimaryLine(p: Pool, n: nat): seq<nat> {
    p.primary + Range(|p.ledger|, n)
  }

  /** An acquisition that finds startup and secondary pool empty. */
  ghost predicate AcquiresPrimary(q: Pool, op: Op) {
    Acquires(q, op) && q.startup == [] && q.secondary == []
  }

  /** Releases, data and calls of bound ids leave the primary pool alone. */
  lemma PrimaryRests(q: Pool, op: Op)
    requires Inv(q) && !q.stopFlag && IsTraffic(op) && !Acquires(q, op)
    ensures var r := Apply(q, op); !r.stopFlag && |r.ledger| == |q.ledger| && r.primary == q.primary
  {
  }

  /** With a primary pool, exactly the primary acquisitions open a client; they move its line on. */
  lemma PrimaryStep(q: Pool, op: Op, r: Pool)
    requires Inv(q) && !q.stopFlag && q.primary != [] && IsTraffic(op) && r == Apply(q, op)
    ensures !r.stopFlag
    ensures if AcquiresPrimary(q, op)
            then |r.ledger| == |q.ledger| + 1 && r.primary == q.primary[1..] + [|q.ledger|] && Holds(r, op, q.primary[0])
            else |r.ledger| == |q.ledger| && r.primary == q.primary
  {
    if Acquires(q, op) {
      AcquisitionStep(q, op);
    } else {
      PrimaryRests(q, op);
    }
  }

  lemma LineMoves(p: Pool, n: nat)
    requires p.primary != []
    ensures PrimaryLine(p, n + 1)[n + 1..] == PrimaryLine(p, n)[n..][1..] + [|p.ledger| + n]
    ensures PrimaryLine(p, n)[n..][0] == if n < |p.primary| then p.primary[n] else |p.ledger| + n - |p.primary|
  {
    assert PrimaryLine(p, n + 1) == PrimaryLine(p, n) + [|p.ledger| + n];
  }

  /** q's primary pool is p's line, moved on by one for each client opened. */
  ghost predicate MovedOn(p: Pool, q: Pool) {
    && !q.stopFlag && |q.primary| == |p.primary| && |q.ledger| >= |p.ledger|
    && var n := |q.ledger| - |p.ledger|; q.primary == PrimaryLine(p, n)[n..]
  }

  lemma PrimaryMoves(p: Pool, q: Pool, op: Op)
    requires Inv(q) && p.primary != [] && MovedOn(p, q) && IsTraffic(op)
    ensures MovedOn(p, Apply(q, op))
  {
    PrimaryStep(q, op, Apply(q, op));
    LineMoves(p, |q.ledger| - |p.ledger|);
  }

  /** Whatever is acquired and given back, the primary pool keeps its size and its order. */
  lemma {:induction false} PrimaryRotates(p: Pool, ops: seq<Op>)
    requires Inv(p) && !p.stopFlag && p.primary != [] && Traffic(ops)
    ensures MovedOn(p, RunFrom(p, ops))
    decreases |ops|
  {
    if ops != [] {
      PrimaryRotates(p, ops[..|ops| - 1]);
      PrimaryMoves(p, RunFrom(p, ops[..|ops| - 1]), ops[|ops| - 1]);
    } else {
      assert PrimaryLine(p, 0)[0..] == p.primary;
    }
  }

  /** The replacement opened by the i-th primary acquisition waits through exactly as many further
      ones as the pool has clients, and comes with the next, whatever else happens in between. */
  lemma WarmUp(p: Pool, ops: seq<Op>, q: Pool, i: nat, op: Op)
    requires Inv(p) && !p.stopFlag && p.primary != [] && Traffic(ops) && q == RunFrom(p, ops)
    ensures var n := |q.ledger| - |p.ledger|; var replacement := |p.ledger| + i;
      && (replacement in q.primary <==> i < n <= i + |p.primary|)
      && (AcquiresPrimary(q, op) ==> (Holds(Apply(q, op), op, replacement) <==> n == i + |p.primary|))
  {
    PrimaryRotates(p, ops);
    var n := |q.ledger| - |p.ledger|;
    OnTheLine(p, n, i);
    if AcquiresPrimary(q, op) {
      PrimaryStep(q, op, Apply(q, op));
      FirstInLine(p, q, i);
    }
  }

  lemma FirstInLine(p: Pool, q: Pool, i: nat)
    requires Linked(p) && p.primary != [] && MovedOn(p, q)
    ensures q.primary[0] == |p.ledger| + i <==> |q.ledger| - |p.ledger| == i + |p.primary|
  {
    var n := |q.ledger| - |p.ledger|;
    LineMoves(p, n);
    assert n < |p.primary| ==> Contained(p, p.primary[n]);
  }

  lemma OnTheLine(p: Pool, n: nat, i: nat)
    requires Linked(p)
    ensures |p.ledger| + i in PrimaryLine(p, n)[n..] <==> i < n <= i + |p.primary|
  {
    var line, x := PrimaryLine(p, n), |p.ledger| + i;
    if i < n <= i + |p.primary| {
      assert line[n..][i + |p.primary| - n] == x;
    }
    if x in line[n..] {
      var j :| 0 <= j < |line[n..]| && line[n..][j] == x;
      assert line[n + j] == x;
      if n + j < |p.primary| {
        assert Contained(p, p.primary[n + j]);
      }
    }
  }
}
