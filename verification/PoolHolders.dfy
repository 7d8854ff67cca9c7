/** What each call does to the relation between bound ids and the holders of their adapters. */
module PoolHolders {
  import opened Prelude
  import opened AdapterSpec
  import opened PoolSpec
  import opened PoolInvariants

  /** The holder of each bound id's adapter. */
  function Holders(p: Pool): map<IoId, Holder> {
    map id | id in p.clients :: At(p, p.clients[id]).holder
  }

  /** Only the adapter a of `id` changes. */
  lemma HoldersAfter(p: Pool, q: Pool, id: IoId, a: nat, h: Holder)
    requires q.clients == p.clients[id := a] && At(q, a).holder == h
    requires forall i :: i in p.clients && i != id ==> At(q, p.clients[i]) == At(p, p.clients[i])
    ensures Holders(q) == Holders(p)[id := h]
  {
  }

  lemma RegHolders(p: Pool, id: IoId, itf: Option<ObjId>)
    requires Inv(p) && !p.stopFlag
    ensures Inv(Reg(p, id, itf)) && !Reg(p, id, itf).stopFlag
    ensures Holders(Reg(p, id, itf)) == Holders(p)[id := FromWeak(itf)]
  {
    RegKeeps(p, id, itf);
    UpsertKeeps(p, id);
    var q := Reg(p, id, itf);
    var t := Upsert(p, id);
    forall i | i in p.clients && i != id ensures At(q, p.clients[i]) == At(p, p.clients[i]) {
      assert Contained(p, p.clients[i]);
      assert t.pool.clients[i] == p.clients[i] && t.pool.clients[id] == t.adapter;
    }
    HoldersAfter(p, q, id, t.adapter, FromWeak(itf));
  }

  lemma UnregHolders(p: Pool, id: IoId)
    requires Inv(p) && !p.stopFlag
    ensures Inv(Unreg(p, id)) && !Unreg(p, id).stopFlag
    ensures Holders(Unreg(p, id)) == Holders(p) - {id}
  {
    UnregKeeps(p, id);
    UnregLeavesOthers(p, id);
  }

  lemma UnregLeavesOthers(p: Pool, id: IoId)
    requires !p.stopFlag
    requires forall i, j :: i in p.clients && j in p.clients && i != j ==> p.clients[i] != p.clients[j]
    ensures Holders(Unreg(p, id)) == Holders(p) - {id}
  {
    var q := Unreg(p, id);
    if id in p.clients {
      assert q.clients == p.clients - {id};
      assert forall b: nat :: b != p.clients[id] ==> At(q, b) == At(p, b);
    }
  }

  /** A message with a handler takes over an adapter whose holder is gone. */
  lemma SendHolders(p: Pool, id: IoId, handler: Option<HandlerId>, alive: set<ObjId>, result: SendResult)
    requires Inv(p) && !p.stopFlag && id in p.clients && id > 0
    ensures var x := At(p, p.clients[id]);
      Holders(Send(p, id, handler, alive, result)) ==
        Holders(p)[id := if Lock(x, alive) == Nobody && handler.Some? then Reply(handler) else x.holder]
  {
    var q := Send(p, id, handler, alive, result);
    assert Contained(p, p.clients[id]);
    HoldersAfter(p, q, id, p.clients[id], At(q, p.clients[id]).holder);
  }

  /** The outcome of a message is recorded at its id's adapter and at no other. */
  lemma SendOutcome(p: Pool, id: IoId, handler: Option<HandlerId>, alive: set<ObjId>, result: SendResult, b: nat)
    requires Inv(p) && !p.stopFlag && b < |p.ledger|
    ensures var q := Send(p, id, handler, alive, result);
      && id in q.clients && q.clients[id] < |q.ledger| && |p.ledger| <= |q.ledger|
      && (q.ledger[q.clients[id]].errorFlag <==> result == NotSent)
      && (b != q.clients[id] ==> q.ledger[b] == p.ledger[b])
  {
    UpsertKeeps(p, id);
  }

  /** A bound adapter that has a source keeps its holder whatever data arrives. */
  lemma DataHolders(p: Pool, a: nat, alive: set<ObjId>, result: SendResult)
    requires forall id :: id in p.clients && p.clients[id] == a ==> At(p, a).holderId > 0 || !At(p, a).lent
    ensures Holders(Put(p, a, Receive(At(p, a), alive))) == Holders(p)
    ensures Holders(Put(p, a, Answer(At(p, a), alive, result))) == Holders(p)
  {
  }

  /** All bound ids without a holder. */
  function Silent(p: Pool): map<IoId, Holder> {
    map id | id in p.clients :: Nobody
  }

  lemma RenewedHolders(p: Pool, ids: seq<IoId>, opt: Options)
    requires forall id :: id in ids <==> id in p.clients
    ensures Renewed(p, ids, opt).clients.Keys == p.clients.Keys
    ensures Holders(Renewed(p, ids, opt)) == Silent(p)
  {
    var q := Renewed(p, ids, opt);
    forall id | id in q.clients ensures At(q, q.clients[id]) == Start(NEW_ADAPTER, opt, p.generation + 1) {
      assert q.clients[id] == |p.ledger| + IndexOf(ids, id);
    }
  }

  /** reconfigure_and_start keeps the bindings and forgets all holders. */
  lemma ReconfigureHolders(p: Pool, opt: Options)
    requires Linked(p)
    ensures Holders(Reconfigure(p, opt)) == Silent(p)
  {
    RenewedHolders(StopAll(p), Ascending(p.clients.Keys), opt);
  }
}
