/**
  client_tcp in front of its map: registrations made before the first start wait in a list that
  is replayed by the start. The list is never cleared.
*/
module ClientTcpSpec {
  import opened Prelude
  import opened AdapterSpec
  import opened PoolSpec
  import opened PoolInvariants

  datatype Client = Client(pool: Pool, started: bool, waitList: map<IoId, Option<ObjId>>)

  const NEW_CLIENT := Client(EMPTY_POOL, false, map[])

  /** reg_io and unreg_io of an object that is not suspended. */
  datatype Entry = Joins(id: IoId, itf: Option<ObjId>) | Leaves(id: IoId)

  function OnPool(p: Pool, e: Entry): Pool {
    match e
    case Joins(id, itf) => Reg(p, id, itf)
    case Leaves(id) => Unreg(p, id)
  }

  function OnList(w: map<IoId, Option<ObjId>>, e: Entry): map<IoId, Option<ObjId>> {
    match e
    case Joins(id, itf) => w[id := itf]
    case Leaves(id) => w - {id}
  }

  function Handle(c: Client, e: Entry): Client {
    if c.started then c.(pool := OnPool(c.pool, e)) else c.(waitList := OnList(c.waitList, e))
  }

  function HandleAll(c: Client, log: seq<Entry>): Client {
    if log == [] then c else Handle(HandleAll(c, log[..|log| - 1]), log[|log| - 1])
  }

  /** reg_io of every waiting id, in the order of the list. */
  function Replay(p: Pool, ids: seq<IoId>, w: map<IoId, Option<ObjId>>): Pool
    requires forall i :: 0 <= i < |ids| ==> ids[i] in w
  {
    if ids == [] then p else
      var last := |ids| - 1;
      Reg(Replay(p, ids[..last], w), ids[last], w[ids[last]])
  }

  ghost function WaitOrder(w: map<IoId, Option<ObjId>>): (ids: seq<IoId>)
    ensures NoDup(ids) && (forall i :: 0 <= i < |ids| ==> ids[i] in w) && (forall id :: id in w ==> id in ids)
  {
    var ids := Ascending(w.Keys);
    assert forall i :: 0 <= i < |ids| ==> ids[i] in ids;
    ids
  }

  /** reconfigure_and_start_ (of an object that is not suspended) */
  ghost function Launch(c: Client, opt: Options): Client
    requires Linked(c.pool)
  {
    var p := Reconfigure(c.pool, opt);
    Client(if c.started then p else Replay(p, WaitOrder(c.waitList), c.waitList), true, c.waitList)
  }

  ghost function Halt(c: Client): Client
    requires Linked(c.pool)
  {
    c.(started := false, pool := Shutdown(c.pool))
  }
}
