/** Which source hears its registered object, and since when. */
module PoolListening {
  import opened Prelude
  import opened AdapterSpec
  import opened PoolSpec
  import opened PoolInvariants
  import opened PoolIsolation
  import opened PoolHolders

  /** The call leaves the object o, registered for `id`, in its place: it is about other ids, or
      sends while o is alive or without a handler, or only data arrives. */
  predicate Undisturbed(op: Op, id: IoId, o: ObjId) {
    match op
    case OpReg(i, _) => i != id
    case OpUnreg(i) => i != id
    case OpSend(i, h, alive, _) => i == id && h.Some? ==> o in alive
    case OpReconfigure(_) => false
    case OpStop => false
    case _ => true
  }

  /** The i-th call registered o for `id`, and nothing has disturbed it since. */
  predicate ListensSince(ops: seq<Op>, i: int, id: IoId, o: ObjId) {
    && 0 <= i < |ops| && ops[i] == OpReg(id, Some(o)) && !Halted(ops[..i])
    && forall j :: i < j < |ops| ==> Undisturbed(ops[j], id, o)
  }

  ghost predicate Listens(ops: seq<Op>, id: IoId, o: ObjId) {
    exists i :: ListensSince(ops, i, id, o)
  }

  lemma ListensSnoc(before: seq<Op>, op: Op, id: IoId, o: ObjId)
    ensures Listens(before + [op], id, o) <==>
      (op == OpReg(id, Some(o)) && !Halted(before)) || (Listens(before, id, o) && Undisturbed(op, id, o))
  {
    var ops, n := before + [op], |before|;
    assert ops[..n] == before && ops[n] == op;
    if i :| ListensSince(ops, i, id, o) {
      if i < n {
        assert ops[..i] == before[..i] && forall j :: i < j < n ==> before[j] == ops[j];
        assert ListensSince(before, i, id, o) && Undisturbed(ops[n], id, o);
      }
    }
    if op == OpReg(id, Some(o)) && !Halted(before) {
      assert ListensSince(ops, n, id, o);
    }
    if Listens(before, id, o) && Undisturbed(op, id, o) {
      var i :| ListensSince(before, i, id, o);
      assert ops[..i] == before[..i];
      assert ListensSince(ops, i, id, o);
    }
  }

  ghost predicate HeldBySource(p: Pool, id: IoId, o: ObjId) {
    id in Holders(p) && Holders(p)[id] == Source(o)
  }

  lemma RegMovesHolder(p: Pool, i: IoId, itf: Option<ObjId>, id: IoId, o: ObjId)
    requires Inv(p) && !p.stopFlag
    ensures HeldBySource(Reg(p, i, itf), id, o) <==> if i == id then itf == Some(o) else HeldBySource(p, id, o)
  {
    RegHolders(p, i, itf);
  }

  lemma UnregMovesHolder(p: Pool, i: IoId, id: IoId, o: ObjId)
    requires Inv(p) && !p.stopFlag
    ensures HeldBySource(Unreg(p, i), id, o) <==> i != id && HeldBySource(p, id, o)
  {
    UnregHolders(p, i);
  }

  lemma SendMovesHolder(p: Pool, op: Op, id: IoId, o: ObjId)
    requires Inv(p) && !p.stopFlag && op.OpSend? && op.id > 0 && op.id in p.clients
    ensures HeldBySource(Send(p, op.id, op.handler, op.alive, op.result), id, o) <==>
      HeldBySource(p, id, o) && Undisturbed(op, id, o)
  {
    SendHolders(p, op.id, op.handler, op.alive, op.result);
  }

  lemma CallMovesHolder(p: Pool, op: Op, id: IoId, o: ObjId)
    requires Inv(p) && !p.stopFlag && (op.OpReg? || op.OpUnreg? || op.OpSend?)
    requires op.OpSend? ==> op.id > 0 && op.id in p.clients
    ensures HeldBySource(Apply(p, op), id, o) <==>
      op == OpReg(id, Some(o)) || (HeldBySource(p, id, o) && Undisturbed(op, id, o))
  {
    if op.OpReg? {
      RegMovesHolder(p, op.id, op.itf, id, o);
    } else if op.OpUnreg? {
      UnregMovesHolder(p, op.id, id, o);
    } else {
      SendMovesHolder(p, op, id, o);
    }
  }

  lemma DataMovesNoHolder(p: Pool, op: Op, reg: map<IoId, Option<ObjId>>, offered: set<(IoId, HandlerId)>)
    requires Linked(p) && Isolated(p, reg, offered) && (op.OpReceive? || op.OpAnswer?)
    ensures Holders(Apply(p, op)) == Holders(p)
  {
    DataHolders(p, op.adapter, op.alive, if op.OpAnswer? then op.result else Sent);
  }

  lemma OtherMovesHolder(p: Pool, before: seq<Op>, op: Op, id: IoId, o: ObjId)
    requires Inv(p) && Described(p, before) && !op.OpReg? && !op.OpUnreg? && !op.OpSend?
    ensures HeldBySource(Apply(p, op), id, o) <==> HeldBySource(p, id, o) && Undisturbed(op, id, o)
  {
    if op.OpReconfigure? {
      ReconfigureHolders(p, op.opt);
    } else if op.OpStop? {
      assert Apply(p, op).clients == map[];
    } else {
      DataMovesNoHolder(p, op, Registered(before), Offered(before));
    }
  }

  lemma StepMovesHolder(p: Pool, before: seq<Op>, op: Op, id: IoId, o: ObjId)
    requires Inv(p) && Described(p, before)
    requires op.OpSend? ==> op.id in Registered(before) || Halted(before)
    ensures HeldBySource(Apply(p, op), id, o) <==>
      (op == OpReg(id, Some(o)) && !Halted(before)) || (HeldBySource(p, id, o) && Undisturbed(op, id, o))
  {
    if !op.OpReg? && !op.OpUnreg? && !op.OpSend? {
      OtherMovesHolder(p, before, op, id, o);
    } else if p.stopFlag {
      assert Holders(p) == map[];
    } else {
      CallMovesHolder(p, op, id, o);
    }
  }

  lemma {:induction false} HolderIffListens(ops: seq<Op>, id: IoId, o: ObjId)
    requires RegistersFirst(ops)
    ensures HeldBySource(Run(ops), id, o) <==> Listens(ops, id, o)
    decreases |ops|
  {
    if ops != [] {
      var last := |ops| - 1;
      var before := ops[..last];
      assert ops == before + [ops[last]];
      forall i | 0 <= i < last ensures before[..i] == ops[..i] {}
      HolderIffListens(before, id, o);
      RunIsolates(before);
      StepMovesHolder(Run(before), before, ops[last], id, o);
      ListensSnoc(before, ops[last], id, o);
    }
  }

  /** If ids register before they send: a live object hears what arrives for an id iff a call
      registered it there and since then the id was not registered again or unregistered, the map
      was not reconfigured or stopped, and the id sent with a handler only while the object lived. */
  lemma HearsItsObjectIff(ops: seq<Op>, id: IoId, o: ObjId, alive: set<ObjId>)
    requires RegistersFirst(ops) && o in alive
    ensures (id in Run(ops).clients && Hears(Run(ops), id, alive) == Source(o)) <==> Listens(ops, id, o)
  {
    HolderIffListens(ops, id, o);
  }

  /** Rebuilding the clients silences every source until it registers again. */
  lemma ReconfigurationSilences(p: Pool, opt: Options, id: IoId, alive: set<ObjId>)
    requires Linked(p) && id in p.clients
    ensures id in Reconfigure(p, opt).clients && Hears(Reconfigure(p, opt), id, alive) == Nobody
  {
    var q := Reconfigure(p, opt);
    ReconfigureHolders(p, opt);
    assert id in Holders(q) && Holders(q)[id] == Nobody;
  }
}
