/** Deferred registration means the same as registering with a running client. */
module ClientTcpTheorems {
  import opened Prelude
  import opened AdapterSpec
  import opened PoolSpec
  import opened PoolInvariants
  import opened PoolHolders
  import opened PoolTheorems
  import opened ClientTcpSpec

  function AsHolders(w: map<IoId, Option<ObjId>>): map<IoId, Holder> {
    map id | id in w :: FromWeak(w[id])
  }

  /** The i-th entry registers `itf` and is the last about `id`. */
  predicate JoinedLast(log: seq<Entry>, i: int, id: IoId, itf: Option<ObjId>) {
    0 <= i < |log| && log[i] == Joins(id, itf) && forall j :: i < j < |log| ==> log[j].id != id
  }

  ghost predicate EndsJoined(log: seq<Entry>, id: IoId, itf: Option<ObjId>) {
    exists i :: JoinedLast(log, i, id, itf)
  }

  function ListOf(log: seq<Entry>): map<IoId, Option<ObjId>> {
    if log == [] then map[] else OnList(ListOf(log[..|log| - 1]), log[|log| - 1])
  }

  lemma EndsJoinedSnoc(before: seq<Entry>, e: Entry, id: IoId, itf: Option<ObjId>)
    ensures EndsJoined(before + [e], id, itf) <==> e == Joins(id, itf) || (e.id != id && EndsJoined(before, id, itf))
  {
    var log, n := before + [e], |before|;
    assert log[n] == e && forall j :: 0 <= j < n ==> log[j] == before[j];
    if i :| JoinedLast(log, i, id, itf) {
      assert i < n ==> JoinedLast(before, i, id, itf) && log[n].id != id;
    }
    if e == Joins(id, itf) {
      assert JoinedLast(log, n, id, itf);
    }
    if e.id != id && EndsJoined(before, id, itf) {
      var i :| JoinedLast(before, i, id, itf);
      assert JoinedLast(log, i, id, itf);
    }
  }

  /** The wait list holds exactly the ids whose last entry is a registration. */
  lemma {:induction false} ListIsLastWord(log: seq<Entry>, id: IoId, itf: Option<ObjId>)
    ensures id in ListOf(log) && ListOf(log)[id] == itf <==> EndsJoined(log, id, itf)
    decreases |log|
  {
    if log != [] {
      var last := |log| - 1;
      ListIsLastWord(log[..last], id, itf);
      EndsJoinedSnoc(log[..last], log[last], id, itf);
      assert log == log[..last] + [log[last]];
    }
  }

  lemma ListAsHolders(w: map<IoId, Option<ObjId>>, id: IoId, itf: Option<ObjId>)
    ensures AsHolders(w[id := itf]) == AsHolders(w)[id := FromWeak(itf)]
    ensures AsHolders(w - {id}) == AsHolders(w) - {id}
  {
  }

  lemma EntryHolders(p: Pool, e: Entry, w: map<IoId, Option<ObjId>>)
    requires Inv(p) && !p.stopFlag && Holders(p) == AsHolders(w)
    ensures Inv(OnPool(p, e)) && !OnPool(p, e).stopFlag
    ensures Holders(OnPool(p, e)) == AsHolders(OnList(w, e))
  {
    match e
    case Joins(id, itf) =>
      RegHolders(p, id, itf);
      ListAsHolders(w, id, itf);
    case Leaves(id) =>
      UnregHolders(p, id);
      ListAsHolders(w, id, None);
  }

  /** Registering with a running client leaves the holders the log ends with. */
  lemma {:induction false} LogHolders(p: Pool, log: seq<Entry>)
    requires Inv(p) && !p.stopFlag && p.clients == map[]
    ensures var c := HandleAll(Client(p, true, map[]), log);
      && c.started && Inv(c.pool) && !c.pool.stopFlag
      && Holders(c.pool) == AsHolders(ListOf(log))
    decreases |log|
  {
    if log != [] {
      var last := |log| - 1;
      LogHolders(p, log[..last]);
      EntryHolders(HandleAll(Client(p, true, map[]), log[..last]).pool, log[last], ListOf(log[..last]));
    }
  }

  /** Before the start the log only reaches the wait list. */
  lemma {:induction false} LogWaits(c: Client, log: seq<Entry>)
    requires !c.started && c.waitList == map[]
    ensures HandleAll(c, log) == c.(waitList := ListOf(log))
    decreases |log|
  {
    if log != [] {
      LogWaits(c, log[..|log| - 1]);
    }
  }

  /** The client after the log was made before its first start. */
  ghost function Deferred(p: Pool, log: seq<Entry>): (c: Client)
    ensures !c.started && c.pool == p
  {
    LogWaits(Client(p, false, map[]), log);
    HandleAll(Client(p, false, map[]), log)
  }

  /** The listed ids have the holders of the list, the others those of before. */
  ghost predicate Relisted(g: map<IoId, Holder>, h: map<IoId, Holder>, ids: seq<IoId>, w: map<IoId, Option<ObjId>>) {
    && (forall id :: id in h <==> id in g || id in ids)
    && (forall id :: id in ids ==> id in w && h[id] == FromWeak(w[id]))
    && (forall id :: id in g && id !in ids ==> h[id] == g[id])
  }

  lemma RelistedSnoc(g: map<IoId, Holder>, h: map<IoId, Holder>, ids: seq<IoId>, w: map<IoId, Option<ObjId>>)
    requires ids != [] && ids[|ids| - 1] in w && Relisted(g, h, ids[..|ids| - 1], w)
    ensures Relisted(g, h[ids[|ids| - 1] := FromWeak(w[ids[|ids| - 1]])], ids, w)
  {
    assert ids == ids[..|ids| - 1] + [ids[|ids| - 1]];
  }

  lemma {:induction false} ReplayHolders(p: Pool, ids: seq<IoId>, w: map<IoId, Option<ObjId>>)
    requires Inv(p) && !p.stopFlag
    requires forall i :: 0 <= i < |ids| ==> ids[i] in w
    ensures var q := Replay(p, ids, w); Inv(q) && !q.stopFlag && Relisted(Holders(p), Holders(q), ids, w)
  {
    if ids != [] {
      var last := |ids| - 1;
      assert forall i :: 0 <= i < last ==> ids[..last][i] == ids[i];
      ReplayHolders(p, ids[..last], w);
      RegHolders(Replay(p, ids[..last], w), ids[last], w[ids[last]]);
      RelistedSnoc(Holders(p), Holders(Replay(p, ids[..last], w)), ids, w);
    }
  }

  lemma RelistedIsUnion(g: map<IoId, Holder>, h: map<IoId, Holder>, ids: seq<IoId>, w: map<IoId, Option<ObjId>>)
    requires Relisted(g, h, ids, w) && forall id :: id in ids <==> id in w
    ensures h == g + AsHolders(w)
  {
  }

  lemma ReplayAllHolders(p: Pool, w: map<IoId, Option<ObjId>>)
    requires Inv(p) && !p.stopFlag
    ensures var q := Replay(p, WaitOrder(w), w);
      Inv(q) && !q.stopFlag && Holders(q) == Holders(p) + AsHolders(w)
  {
    var ids := WaitOrder(w);
    assert forall id :: id in ids <==> id in w;
    ReplayHolders(p, ids, w);
    RelistedIsUnion(Holders(p), Holders(Replay(p, ids, w)), ids, w);
  }

  lemma ReplayedHolders(c: Client, p: Pool, d: Client)
    requires Inv(p) && !p.stopFlag && Holders(p) == Silent(c.pool)
    requires d == Client(Replay(p, WaitOrder(c.waitList), c.waitList), true, c.waitList)
    ensures Inv(d.pool) && !d.pool.stopFlag && Holders(d.pool) == Silent(c.pool) + AsHolders(c.waitList)
  {
    ReplayAllHolders(p, c.waitList);
  }

  /** A start binds the waiting ids to their objects; ids that were bound already lose their holders. */
  lemma StartHolders(c: Client, opt: Options)
    requires Inv(c.pool) && !c.started
    ensures var d := Launch(c, opt);
      && d.started && Inv(d.pool) && !d.pool.stopFlag && d.waitList == c.waitList
      && Holders(d.pool) == Silent(c.pool) + AsHolders(c.waitList)
  {
    ReconfigureKeeps(c.pool, opt);
    ReconfigureHolders(c.pool, opt);
    ReplayedHolders(c, Reconfigure(c.pool, opt), Launch(c, opt));
  }

  /** A running client that is reconfigured keeps exactly its bound ids, none of which has a holder
      any more: nothing is replayed. */
  lemma ReconfigurationReplaysNothing(c: Client, opt: Options)
    requires Inv(c.pool) && c.started
    ensures var d := Launch(c, opt);
      && d.started && d.waitList == c.waitList && Inv(d.pool) && !d.pool.stopFlag && d.pool.opt == opt
      && d.pool.clients.Keys == c.pool.clients.Keys && Holders(d.pool) == Silent(c.pool)
  {
    ReconfigureKeeps(c.pool, opt);
    ReconfigureHolders(c.pool, opt);
    assert Holders(Reconfigure(c.pool, opt)).Keys == Silent(c.pool).Keys;
  }

  lemma NothingAdded(p: Pool, w: map<IoId, Holder>)
    requires p.clients == map[]
    ensures Silent(p) + w == w
  {
  }

  lemma StartFromNothing(c: Client, opt: Options)
    requires Inv(c.pool) && !c.started && c.pool.clients == map[]
    ensures Holders(Launch(c, opt).pool) == AsHolders(c.waitList)
  {
    StartHolders(c, opt);
    NothingAdded(c.pool, AsHolders(c.waitList));
  }

  // ----- Which clients the waiting ids get

  function Registrations(ids: seq<IoId>, w: map<IoId, Option<ObjId>>): seq<Op>
    requires forall i :: 0 <= i < |ids| ==> ids[i] in w
  {
    seq(|ids|, i requires 0 <= i < |ids| => OpReg(ids[i], w[ids[i]]))
  }

  lemma RegistrationAcquires(q: Pool, id: IoId, itf: Option<ObjId>)
    requires Inv(q) && !q.stopFlag && id !in q.clients
    ensures var op := OpReg(id, itf);
      && Acquires(q, op) && Apply(q, op) == Reg(q, id, itf) && !Reg(q, id, itf).stopFlag
      && forall i :: i in Reg(q, id, itf).clients <==> i == id || i in q.clients
  {
    UpsertKeeps(q, id);
  }

  lemma RegistrationsSnoc(ids: seq<IoId>, w: map<IoId, Option<ObjId>>)
    requires ids != [] && forall i :: 0 <= i < |ids| ==> ids[i] in w
    ensures var ops, last := Registrations(ids, w), |ids| - 1;
      && (forall i :: 0 <= i < last ==> ids[..last][i] in w)
      && ops[last] == OpReg(ids[last], w[ids[last]]) && ops[..last] == Registrations(ids[..last], w)
      && (forall id :: id in ids <==> id == ids[last] || id in ids[..last])
  {
    assert ids == ids[..|ids| - 1] + [ids[|ids| - 1]];
  }

  /** The replay is so many acquisitions. */
  lemma {:induction false} ReplayAcquires(p: Pool, ids: seq<IoId>, w: map<IoId, Option<ObjId>>)
    requires Inv(p) && !p.stopFlag && p.clients == map[] && NoDup(ids)
    requires forall i :: 0 <= i < |ids| ==> ids[i] in w
    ensures var ops := Registrations(ids, w);
      && OnlyAcquires(p, ops) && Replay(p, ids, w) == RunFrom(p, ops)
      && !RunFrom(p, ops).stopFlag && forall id :: id in RunFrom(p, ops).clients <==> id in ids
  {
    if ids != [] {
      var last := |ids| - 1;
      RegistrationsSnoc(ids, w);
      ReplayAcquires(p, ids[..last], w);
      RegistrationAcquires(RunFrom(p, Registrations(ids[..last], w)), ids[last], w[ids[last]]);
    }
  }

  /** The start goes through the waiting ids in ascending order and gives the i-th of them the i-th
      client: from the startup pool first, then from the primary pool, then new ones. */
  lemma StartHandsOutInOrder(c: Client, opt: Options, i: nat, j: nat)
    requires Inv(c.pool) && !c.started && c.pool.clients == map[]
    ensures var ids := WaitOrder(c.waitList); var d := Launch(c, opt);
      && (i < |ids| ==> ids[i] in d.pool.clients && d.pool.clients[ids[i]] == Supply(Reconfigure(c.pool, opt), i))
      && (i < j < |ids| ==> ids[i] < ids[j])
  {
    var ids, p := WaitOrder(c.waitList), Reconfigure(c.pool, opt);
    ReconfigureKeeps(c.pool, opt);
    assert p.clients.Keys == {};
    ReplayAcquires(p, ids, c.waitList);
    AcquisitionOrder(p, Registrations(ids, c.waitList));
    AscendingIsSorted(c.waitList.Keys);
    if i < |ids| {
      assert Holds(RunFrom(p, Registrations(ids, c.waitList)), Registrations(ids, c.waitList)[i], Supply(p, i));
    }
  }

  /** Whatever was registered and unregistered before the first start: afterwards an id is bound
      iff its last entry was a registration, to the object named there, just as if the same calls
      had been made to the running client. */
  lemma DeferredRegistration(p: Pool, opt: Options, log: seq<Entry>, id: IoId, itf: Option<ObjId>)
    requires Inv(p) && p.clients == map[]
    ensures var late := Holders(Launch(Deferred(p, log), opt).pool);
      && late == Holders(HandleAll(Client(Reconfigure(p, opt), true, map[]), log).pool)
      && (EndsJoined(log, id, itf) ==> id in late && late[id] == FromWeak(itf))
      && (id in late ==> exists x :: EndsJoined(log, id, x))
  {
    LateHolders(p, opt, log);
    DirectHolders(p, opt, log);
    ListIsLastWord(log, id, itf);
    if id in ListOf(log) {
      ListIsLastWord(log, id, ListOf(log)[id]);
    }
  }

  lemma LateHolders(p: Pool, opt: Options, log: seq<Entry>)
    requires Inv(p) && p.clients == map[]
    ensures Holders(Launch(Deferred(p, log), opt).pool) == AsHolders(ListOf(log))
  {
    LogWaits(Client(p, false, map[]), log);
    StartFromNothing(Client(p, false, ListOf(log)), opt);
  }

  lemma DirectHolders(p: Pool, opt: Options, log: seq<Entry>)
    requires Inv(p) && p.clients == map[]
    ensures Holders(HandleAll(Client(Reconfigure(p, opt), true, map[]), log).pool) == AsHolders(ListOf(log))
  {
    ReconfigureKeeps(p, opt);
    assert Reconfigure(p, opt).clients.Keys == {};
    LogHolders(Reconfigure(p, opt), log);
  }
}
