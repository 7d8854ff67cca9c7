/** The objects behind the pool: adapters, the map and the registration front, updated in place. */
module ClientTcpObjects {
  import opened Prelude
  import opened AdapterSpec
  import opened PoolSpec
  import opened PoolInvariants
  import ClientTcpSpec

  /** client_tcp_adapter. `id` is its own io_id_t; the ghost fields are its ledger entry. */
  class ClientTcpAdapter {
    const id: nat
    var holderId: IoId
    var holder: Holder
    var performHolder: Holder
    var errorFlag: bool
    var keepAlive: bool
    var options: Options
    ghost var lent: bool
    ghost var fatal: bool
    ghost var errorsLogged: nat
    ghost var starts: seq<nat>
    ghost var stops: nat

    ghost function State(): Adapter
      reads this
    {
      Adapter(holderId, holder, performHolder, errorFlag, keepAlive, options, lent, fatal, errorsLogged, starts, stops)
    }

    constructor (id: nat)
      ensures this.id == id && State() == NEW_ADAPTER
    {
      this.id := id;
      holderId, holder, performHolder := 0, Nobody, Nobody;
      errorFlag, keepAlive, options := false, false, DEFAULT_OPTIONS;
      lent, fatal, errorsLogged, starts, stops := false, false, 0, [], 0;
    }

    method Start(opt: Options, ghost generation: nat)
      modifies this
      ensures State() == AdapterSpec.Start(old(State()), opt, generation)
    {
      keepAlive := opt.keepAlive;
      options := opt;
      starts := starts + [generation];
    }

    method Stop()
      modifies this
      ensures State() == AdapterSpec.Stop(old(State()))
    {
      stops := stops + 1;
    }

    method GetHolder(alive: set<ObjId>) returns (h: Holder)
      ensures h == Lock(State(), alive)
    {
      h := match holder
           case Nobody => Nobody
           case Source(o) => if o in alive then holder else Nobody
           case Reply(_) => if performHolder == holder then holder else Nobody;
    }

    /** Returns the object that is told about this adapter. */
    method RegIo(ioId: IoId, itf: Option<ObjId>, alive: set<ObjId>) returns (told: Holder)
      modifies this
      ensures State() == AdapterSpec.RegIo(old(State()), ioId, itf)
      ensures told == if itf.Some? && itf.value in alive then Source(itf.value) else Nobody
    {
      if holderId > 0 && holderId != ioId {
        fatal := true;
      }
      holderId := ioId;
      holder := FromWeak(itf);
      performHolder := Nobody;
      told := GetHolder(alive);
    }

    method UnregIo(ioId: IoId)
      modifies this
      ensures State() == AdapterSpec.UnregIo(old(State()), ioId)
    {
      if holderId != ioId {
        return;
      }
      holderId := 0;
      performHolder := Nobody;
    }

    /** `sent` and `sentAnew` are the outcomes of the two attempts to send; `refused` tells that
        the handler was called with nullptr. */
    method PerformIo(ioId: IoId, handler: Option<HandlerId>, alive: set<ObjId>, sent: bool, sentAnew: bool)
      returns (refused: bool)
      modifies this
      ensures State() == AdapterSpec.PerformIo(old(State()), ioId, handler, alive, Outcome(sent, sentAnew))
      ensures refused <==> Outcome(sent, sentAnew) == NotSent && handler.Some?
    {
      var pitf := GetHolder(alive);
      if pitf == Nobody || ioId == 0 {
        if handler.Some? || ioId == 0 {
          performHolder := Reply(handler);
          holder := performHolder;
          holderId := ioId;
        }
      }
      refused := false;
      if !sent {
        if !sentAnew {
          if !errorFlag {
            errorFlag := true;
            errorsLogged := errorsLogged + 1;
          }
          refused := handler.Some?;
        } else {
          errorFlag := false;
        }
      } else {
        errorFlag := false;
      }
    }

    /** The input handler: returns who gets the data and whether a callback goes with it. */
    method Input(alive: set<ObjId>) returns (receiver: Holder, callback: bool)
      modifies this
      ensures State() == AdapterSpec.Receive(old(State()), alive)
      ensures receiver == Lock(old(State()), alive)
      ensures callback <==> receiver != Nobody && !keepAlive
    {
      receiver := GetHolder(alive);
      callback := false;
      if receiver != Nobody {
        if !keepAlive {
          lent := true;
          callback := true;
        }
      }
    }
  }

  function Outcome(sent: bool, sentAnew: bool): SendResult {
    if sent then Sent else if sentAnew then SentOnNewConnection else NotSent
  }

  lemma AscendingUnfolds(s: set<IoId>, m: IoId)
    requires s != {} && IsLeast(s, m)
    ensures Ascending(s) == [m] + Ascending(s - {m})
  {
    assert IsLeast(s, Least(s));
  }

  lemma OneKeyFurther(ks: seq<IoId>, rest: set<IoId>, m: IoId, all: seq<IoId>)
    requires rest != {} && IsLeast(rest, m) && ks + Ascending(rest) == all
    ensures (ks + [m]) + Ascending(rest - {m}) == all
  {
    AscendingUnfolds(rest, m);
    assert (ks + [m]) + Ascending(rest - {m}) == ks + ([m] + Ascending(rest - {m}));
  }

  /** Iteration over a std::map: its keys in ascending order. */
  method KeysInOrder(keys: set<IoId>) returns (ks: seq<IoId>)
    ensures ks == Ascending(keys)
  {
    ks := [];
    var rest := keys;
    ghost var all := Ascending(keys);
    assert [] + all == all;
    while rest != {}
      invariant ks + Ascending(rest) == all
      decreases |rest|
    {
      LeastExists(rest);
      var m :| IsLeast(rest, m);
      OneKeyFurther(ks, rest, m, all);
      ks := ks + [m];
      rest := rest - {m};
    }
  }

  /** n more adapters, not yet started */
  function Grown(p: Pool, n: nat): Pool {
    p.(ledger := p.ledger + Repeat(NEW_ADAPTER, n))
  }

  lemma GrownMore(p: Pool, n: nat)
    ensures Grown(p, 0) == p
    ensures Grown(p, n).(ledger := Grown(p, n).ledger + [NEW_ADAPTER]) == Grown(p, n + 1)
  {
    assert Repeat(NEW_ADAPTER, n + 1) == Repeat(NEW_ADAPTER, n) + [NEW_ADAPTER];
    assert p.ledger + Repeat(NEW_ADAPTER, 0) == p.ledger;
  }

  lemma GrownTwice(p: Pool, m: nat, n: nat)
    ensures Grown(Grown(p, m), n) == Grown(p, m + n)
  {
    assert Repeat(NEW_ADAPTER, m) + Repeat(NEW_ADAPTER, n) == Repeat(NEW_ADAPTER, m + n);
    assert (p.ledger + Repeat(NEW_ADAPTER, m)) + Repeat(NEW_ADAPTER, n)
      == p.ledger + (Repeat(NEW_ADAPTER, m) + Repeat(NEW_ADAPTER, n));
  }

  /** The first ids are bound to the adapters of the list, in order. */
  predicate BoundInOrder(m: map<IoId, ClientTcpAdapter>, ids: seq<IoId>, list: seq<ClientTcpAdapter>) {
    |list| <= |ids| && forall k :: 0 <= k < |list| ==> ids[k] in m && m[ids[k]] == list[k]
  }

  lemma OneMoreInOrder(m: map<IoId, ClientTcpAdapter>, ids: seq<IoId>, list: seq<ClientTcpAdapter>, cli: ClientTcpAdapter)
    requires NoDup(ids) && |list| < |ids| && BoundInOrder(m, ids, list)
    ensures BoundInOrder(m[ids[|list|] := cli], ids, list + [cli])
  {
  }

  lemma RenewedIsLinked(p: Pool, ids: seq<IoId>, opt: Options)
    requires NoDup(ids)
    ensures var q := Renewed(p, ids, opt); var base := |p.ledger|;
      var fill := if p.startupFlag then opt.startupPool else 0;
      && Linked(q)
      && q.clients == Renumber(ids, base) && q.secondary == []
      && q.primary == Range(base + |ids|, opt.primaryPool)
      && q.startup == Range(base + |ids| + opt.primaryPool, fill)
      && q.ledger == p.ledger + Repeat(AdapterSpec.Start(NEW_ADAPTER, opt, p.generation + 1), |ids| + opt.primaryPool + fill)
      && q.opt == opt && !q.startupFlag && !q.stopFlag
  {
    var fill := if p.startupFlag then opt.startupPool else 0;
    FilledInOrder(Renewed(p, ids, opt), ids, |p.ledger|, opt.primaryPool, fill);
  }

  lemma TakeIsLinked(p: Pool)
    requires Linked(p) && Exclusive(p)
    ensures Linked(Take(p).pool) && Take(p).adapter < |Take(p).pool.ledger|
  {
    TakeDetaches(p);
  }

  /** client_tcp_map. `registry` lists all adapters ever created, `model` is the state they form. */
  class ClientTcpMap {
    var opt: Options
    var clients: map<IoId, ClientTcpAdapter>
    var startupPool: seq<ClientTcpAdapter>
    var primaryPool: seq<ClientTcpAdapter>
    var secondaryPool: seq<ClientTcpAdapter>
    var startupFlag: bool
    var stopFlag: bool
    var nextId: nat
    ghost var registry: seq<ClientTcpAdapter>
    ghost var model: Pool

    ghost predicate Listed(list: seq<ClientTcpAdapter>, places: seq<nat>)
      reads this`registry
    {
      |list| == |places| &&
      forall i :: 0 <= i < |list| ==> places[i] < |registry| && list[i] == registry[places[i]]
    }

    ghost predicate LedgerTied()
      reads this`nextId, this`registry, this`model, registry
    {
      && nextId == |registry| == |model.ledger|
      && forall i :: 0 <= i < |registry| ==> registry[i].id == i && registry[i].State() == model.ledger[i]
    }

    /** Adapters are only ever added to the registry, and those are new. */
    twostate predicate Grew()
      reads this`registry
    {
      && old(registry) <= registry
      && forall i :: 0 <= i < |registry| ==> registry[i] in old(registry) || fresh(registry[i])
    }

    /** The objects form the state `model`. */
    ghost predicate Tied()
      reads this, registry
    {
      LedgerTied() && Linked(model) && ContainersTied(model)
    }

    /** The containers and flags are those of q. */
    ghost predicate ContainersTied(q: Pool)
      reads this
    {
      && Listed(startupPool, q.startup) && Listed(primaryPool, q.primary) && Listed(secondaryPool, q.secondary)
      && clients.Keys == q.clients.Keys
      && (forall id :: id in clients ==> q.clients[id] < |registry| && clients[id] == registry[q.clients[id]])
      && opt == q.opt && startupFlag == q.startupFlag && stopFlag == q.stopFlag
    }

    ghost predicate Valid()
      reads this, registry
    {
      Tied() && Inv(model)
    }

    constructor ()
      ensures Valid() && model == EMPTY_POOL && registry == []
    {
      opt, clients := DEFAULT_OPTIONS, map[];
      startupPool, primaryPool, secondaryPool := [], [], [];
      startupFlag, stopFlag, nextId := true, false, 0;
      registry, model := [], EMPTY_POOL;
    }

    /** The objects already form the state q. */
    ghost method Adopt(q: Pool)
      requires LedgerTied() && q.ledger == model.ledger && Linked(q) && ContainersTied(q)
      modifies this`model
      ensures Tied() && model == q
    {
      model := q;
    }

    /** make_shared of an adapter that is started at once */
    method Open() returns (cli: ClientTcpAdapter)
      requires LedgerTied() && opt == model.opt
      modifies this`nextId, this`registry, this`model
      ensures fresh(cli) && registry == old(registry) + [cli] && cli.id == |old(registry)|
      ensures model == old(model).(ledger := old(model).ledger + [Opened(old(model))])
      ensures LedgerTied()
    {
      cli := new ClientTcpAdapter(nextId);
      cli.Start(opt, model.generation);
      nextId := nextId + 1;
      registry := registry + [cli];
      model := model.(ledger := model.ledger + [Opened(model)]);
    }

    /** create_, when there is a client to reuse */
    method Reuse() returns (cli: ClientTcpAdapter)
      requires Tied() && Exclusive(model) && (startupPool != [] || secondaryPool != [])
      modifies this`startupPool, this`secondaryPool, this`model
      ensures model == Take(old(model)).pool && Tied()
      ensures Take(old(model)).adapter < |registry| && cli == registry[Take(old(model)).adapter]
      ensures cli in old(registry) || fresh(cli)
    {
      TakeIsLinked(model);
      if startupPool != [] {
        cli := startupPool[0];
        startupPool := startupPool[1..];
      } else {
        cli := secondaryPool[0];
        secondaryPool := secondaryPool[1..];
      }
      model := Take(model).pool;
    }

    /** create_, when a client of the primary pool is replaced by a new one */
    method Replace() returns (cli: ClientTcpAdapter)
      requires Tied() && Exclusive(model) && startupPool == [] && secondaryPool == [] && primaryPool != []
      modifies this`primaryPool, this`nextId, this`registry, this`model
      ensures Grew()
      ensures model == Take(old(model)).pool && Tied()
      ensures Take(old(model)).adapter < |registry| && cli == registry[Take(old(model)).adapter]
      ensures cli in old(registry) || fresh(cli)
    {
      TakeIsLinked(model);
      ghost var q := Take(model).pool;
      cli := primaryPool[0];
      primaryPool := primaryPool[1..];
      var newCli := Open();
      primaryPool := primaryPool + [newCli];
      assert Listed(primaryPool, q.primary);
      Adopt(q);
    }

    /** create_, when all pools are empty */
    method OpenNew() returns (cli: ClientTcpAdapter)
      requires Tied() && Exclusive(model) && startupPool == [] && secondaryPool == [] && primaryPool == []
      modifies this`nextId, this`registry, this`model
      ensures Grew()
      ensures model == Take(old(model)).pool && Tied()
      ensures Take(old(model)).adapter < |registry| && cli == registry[Take(old(model)).adapter]
      ensures cli in old(registry) || fresh(cli)
    {
      TakeIsLinked(model);
      ghost var q := Take(model).pool;
      cli := Open();
      Adopt(q);
    }

    /** create_ */
    method Create() returns (cli: ClientTcpAdapter)
      requires Tied() && Exclusive(model)
      modifies this
      ensures Grew()
      ensures model == Take(old(model)).pool && Tied()
      ensures Take(old(model)).adapter < |registry| && cli == registry[Take(old(model)).adapter]
      ensures cli in old(registry) || fresh(cli)
    {
      if startupPool != [] || secondaryPool != [] {
        cli := Reuse();
      } else if primaryPool != [] {
        cli := Replace();
      } else {
        cli := OpenNew();
      }
    }

    /** insert of a new binding */
    method Bind(id: IoId, cli: ClientTcpAdapter, ghost a: nat)
      requires Tied() && id !in clients && a < |registry| && cli == registry[a]
      modifies this`clients, this`model
      ensures Tied() && model == old(model).(clients := old(model).clients[id := a])
    {
      ghost var q := model.(clients := model.clients[id := a]);
      assert forall b: nat :: Contained(q, b) ==> Contained(model, b) || b == a;
      clients := clients[id := cli];
      Adopt(q);
    }

    /** upsert_ */
    method Upsert(id: IoId) returns (cli: ClientTcpAdapter)
      requires Valid()
      modifies this
      ensures Grew()
      ensures model == PoolSpec.Upsert(old(model), id).pool && Valid()
      ensures var a := PoolSpec.Upsert(old(model), id).adapter; a < |registry| && cli == registry[a]
      ensures cli in old(registry) || fresh(cli)
    {
      UpsertKeeps(model, id);
      if id in clients {
        cli := clients[id];
        return;
      }
      ghost var before := model;
      cli := Create();
      Bind(id, cli, Take(before).adapter);
      assert model == PoolSpec.Upsert(before, id).pool;
    }

    /** find */
    method Find(id: IoId) returns (cli: ClientTcpAdapter?)
      requires Tied()
      ensures cli == if id in model.clients then registry[model.clients[id]] else null
    {
      cli := if id in clients then clients[id] else null;
    }

    /** find, and create if there is nothing */
    method FindOrCreate(id: IoId) returns (cli: ClientTcpAdapter)
      requires Valid()
      modifies this
      ensures Grew()
      ensures model == PoolSpec.Upsert(old(model), id).pool && Valid()
      ensures var a := PoolSpec.Upsert(old(model), id).adapter; a < |registry| && cli == registry[a]
      ensures cli in old(registry) || fresh(cli)
    {
      var found := Find(id);
      if found == null {
        cli := Upsert(id);
      } else {
        cli := found;
      }
    }

    /** One call on an adapter of the registry: the others stay as they are. */
    method CallRegIo(cli: ClientTcpAdapter, id: IoId, itf: Option<ObjId>, alive: set<ObjId>)
      requires Tied() && cli.id < |registry| && registry[cli.id] == cli
      modifies cli, this`model
      ensures Tied() && model == Put(old(model), cli.id, AdapterSpec.RegIo(At(old(model), cli.id), id, itf))
    {
      ghost var q := Put(model, cli.id, AdapterSpec.RegIo(At(model, cli.id), id, itf));
      var _ := cli.RegIo(id, itf, alive);
      assert forall b: nat :: Contained(q, b) <==> Contained(model, b);
      model := q;
    }

    method CallUnregIo(cli: ClientTcpAdapter, id: IoId)
      requires Tied() && cli.id < |registry| && registry[cli.id] == cli
      modifies cli, this`model
      ensures Tied() && model == Put(old(model), cli.id, AdapterSpec.UnregIo(At(old(model), cli.id), id))
    {
      ghost var q := Put(model, cli.id, AdapterSpec.UnregIo(At(model, cli.id), id));
      cli.UnregIo(id);
      assert forall b: nat :: Contained(q, b) <==> Contained(model, b);
      model := q;
    }

    method CallPerformIo(cli: ClientTcpAdapter, id: IoId, handler: Option<HandlerId>, alive: set<ObjId>,
                         sent: bool, sentAnew: bool)
      requires Tied() && cli.id < |registry| && registry[cli.id] == cli
      modifies cli, this`model
      ensures Tied() && model == Put(old(model), cli.id,
                AdapterSpec.PerformIo(At(old(model), cli.id), id, handler, alive, Outcome(sent, sentAnew)))
    {
      ghost var q := Put(model, cli.id,
        AdapterSpec.PerformIo(At(model, cli.id), id, handler, alive, Outcome(sent, sentAnew)));
      var _ := cli.PerformIo(id, handler, alive, sent, sentAnew);
      assert forall b: nat :: Contained(q, b) <==> Contained(model, b);
      model := q;
    }

    method CallStop(cli: ClientTcpAdapter)
      requires Tied() && cli.id < |registry| && registry[cli.id] == cli
      modifies cli, this`model
      ensures Tied() && model == Put(old(model), cli.id, AdapterSpec.Stop(At(old(model), cli.id)))
    {
      ghost var q := Put(model, cli.id, AdapterSpec.Stop(At(model, cli.id)));
      cli.Stop();
      assert forall b: nat :: Contained(q, b) <==> Contained(model, b);
      model := q;
    }

    method RegIo(id: IoId, itf: Option<ObjId>, alive: set<ObjId>)
      requires Valid()
      modifies this, registry
      ensures Grew()
      ensures Valid() && model == Reg(old(model), id, itf)
    {
      if stopFlag { return; }
      RegKeeps(model, id, itf);
      var cli := Upsert(id);
      CallRegIo(cli, id, itf, alive);
    }

    method PerformIo(id: IoId, handler: Option<HandlerId>, alive: set<ObjId>, sent: bool, sentAnew: bool)
      requires Valid()
      modifies this, registry
      ensures Grew()
      ensures Valid() && model == Send(old(model), id, handler, alive, Outcome(sent, sentAnew))
    {
      if stopFlag { return; }
      SendKeeps(model, id, handler, alive, Outcome(sent, sentAnew));
      var cli := FindOrCreate(id);
      CallPerformIo(cli, id, handler, alive, sent, sentAnew);
    }

    method EraseBinding(id: IoId)
      requires Tied() && Exclusive(model) && id in model.clients
      modifies this`clients, this`model
      ensures Tied() && model == Unbind(old(model), id)
    {
      UnbindDetaches(model, id);
      clients := clients - {id};
      Adopt(Unbind(model, id));
    }

    method Recycle(cli: ClientTcpAdapter, ghost a: nat)
      requires Tied() && Exclusive(model) && a < |registry| && cli == registry[a] && !Contained(model, a)
      modifies this`secondaryPool, this`model
      ensures Tied() && model == old(model).(secondary := old(model).secondary + [a])
    {
      RecycleAttaches(model, a);
      secondaryPool := secondaryPool + [cli];
      Adopt(model.(secondary := model.secondary + [a]));
    }

    /** The write-locked part of unreg_io: erase, and pool the client if there is room. */
    method EraseAndPool(id: IoId, cli: ClientTcpAdapter) returns (pooled: bool)
      requires Tied() && Exclusive(model) && id in model.clients && cli == registry[model.clients[id]]
      modifies this`clients, this`secondaryPool, this`model
      ensures Tied()
      ensures var q := Unbind(old(model), id); var a := old(model).clients[id];
        && (pooled <==> |q.secondary| < q.opt.secondaryPool)
        && model == if pooled then q.(secondary := q.secondary + [a]) else q
    {
      ghost var a := model.clients[id];
      UnbindDetaches(model, id);
      EraseBinding(id);
      pooled := |secondaryPool| < opt.secondaryPool;
      if pooled {
        Recycle(cli, a);
      }
    }

    /** The phases of unreg_io for a bound id. */
    method ReleaseClient(id: IoId, cli: ClientTcpAdapter)
      requires Tied() && Exclusive(model) && !model.stopFlag && id in model.clients
      requires cli == registry[model.clients[id]]
      modifies this`clients, this`secondaryPool, this`model, cli
      ensures Tied() && model == Unreg(old(model), id)
    {
      CallUnregIo(cli, id);
      var pooled := EraseAndPool(id, cli);
      if !pooled {
        CallStop(cli);
      }
    }

    method UnregIo(id: IoId)
      requires Valid()
      modifies this, registry
      ensures registry == old(registry)
      ensures Valid() && model == Unreg(old(model), id)
    {
      if stopFlag { return; }
      UnregKeeps(model, id);
      var cli := Find(id);
      if cli == null { return; }
      ReleaseClient(id, cli);
    }

    lemma ListedConcat(a: seq<ClientTcpAdapter>, p: seq<nat>, b: seq<ClientTcpAdapter>, q: seq<nat>)
      requires Listed(a, p) && Listed(b, q)
      ensures Listed(a + b, p + q)
    {
    }

    method BoundClients(ids: seq<IoId>) returns (list: seq<ClientTcpAdapter>)
      requires forall k :: 0 <= k < |ids| ==> ids[k] in clients
      ensures |list| == |ids| && forall k :: 0 <= k < |ids| ==> list[k] == clients[ids[k]]
    {
      list := [];
      for i := 0 to |ids|
        invariant |list| == i && forall k :: 0 <= k < i ==> list[k] == clients[ids[k]]
      {
        list := list + [clients[ids[i]]];
      }
    }

    lemma BoundAreListed(ids: seq<IoId>, list: seq<ClientTcpAdapter>)
      requires Tied() && (forall id :: id in ids <==> id in model.clients) && |list| == |ids|
      requires forall k :: 0 <= k < |ids| ==> ids[k] in clients && list[k] == clients[ids[k]]
      ensures Listed(list, BoundTo(model.clients, ids))
    {
    }

    lemma AllAreListed(list: seq<ClientTcpAdapter>)
      requires Tied() && Listed(list, Bound(model))
      ensures Listed(list + primaryPool + secondaryPool + startupPool, AllContained(model))
    {
      var bound := Bound(model);
      ListedConcat(list, bound, primaryPool, model.primary);
      ListedConcat(list + primaryPool, bound + model.primary, secondaryPool, model.secondary);
      ListedConcat(list + primaryPool + secondaryPool, bound + model.primary + model.secondary, startupPool, model.startup);
    }

    /** The client_list of stop_all_clients. */
    method AllClients() returns (list: seq<ClientTcpAdapter>)
      requires Tied()
      ensures Listed(list, AllContained(model))
    {
      var ids := KeysInOrder(clients.Keys);
      assert forall k :: 0 <= k < |ids| ==> ids[k] in ids;
      list := BoundClients(ids);
      BoundAreListed(ids, list);
      AllAreListed(list);
      list := list + primaryPool;
      list := list + secondaryPool;
      list := list + startupPool;
    }

    /** Stops every client of a list, in order. */
    method StopList(list: seq<ClientTcpAdapter>, ghost places: seq<nat>)
      requires Tied() && Listed(list, places)
      modifies list, this`model
      ensures Tied()
      ensures model == old(model).(ledger := StopEach(old(model).ledger, places))
    {
      ghost var before := model;
      for i := 0 to |list|
        invariant Tied()
        invariant model == before.(ledger := StopEach(before.ledger, places[..i]))
      {
        assert places[..i + 1][..i] == places[..i];
        CallStop(list[i]);
      }
      assert places[..|list|] == places;
    }

    method StopAllClients()
      requires Tied()
      modifies registry, this`model
      ensures Tied() && model == StopAll(old(model))
    {
      var list := AllClients();
      StopList(list, AllContained(model));
    }

    method ClearAll()
      requires Tied()
      modifies this`clients, this`primaryPool, this`secondaryPool, this`startupPool, this`model
      ensures Tied()
      ensures model == old(model).(clients := map[], primary := [], secondary := [], startup := [])
    {
      clients := map[];
      primaryPool, secondaryPool, startupPool := [], [], [];
      model := model.(clients := map[], primary := [], secondary := [], startup := []);
      assert forall b: nat :: !Contained(model, b);
    }

    method RaiseStopFlag()
      requires Tied()
      modifies this`stopFlag, this`model
      ensures Tied() && model == old(model).(stopFlag := true)
      ensures AllContained(model) == AllContained(old(model))
    {
      stopFlag := true;
      model := model.(stopFlag := true);
      assert forall b: nat :: Contained(model, b) <==> Contained(old(model), b);
    }

    method Stop()
      requires Valid()
      modifies this, registry
      ensures registry == old(registry)
      ensures Valid() && model == Shutdown(old(model))
    {
      ShutdownKeeps(model);
      RaiseStopFlag();
      StopAllClients();
      ClearAll();
    }

    // ----- reconfigure_and_start

    /** make_shared of an adapter that is started later */
    method Allocate() returns (cli: ClientTcpAdapter)
      requires LedgerTied()
      modifies this`nextId, this`registry, this`model
      ensures fresh(cli) && registry == old(registry) + [cli]
      ensures LedgerTied() && model == old(model).(ledger := old(model).ledger + [NEW_ADAPTER])
    {
      cli := new ClientTcpAdapter(nextId);
      nextId := nextId + 1;
      registry := registry + [cli];
      model := model.(ledger := model.ledger + [NEW_ADAPTER]);
    }

    /** The loops that fill a pool. */
    method Fill(size: nat) returns (pool: seq<ClientTcpAdapter>)
      requires LedgerTied()
      modifies this`nextId, this`registry, this`model
      ensures |pool| == size && fresh(pool) && registry == old(registry) + pool
      ensures LedgerTied() && model == Grown(old(model), size)
    {
      pool := [];
      GrownMore(model, 0);
      while |pool| < size
        invariant |pool| <= size && fresh(pool) && registry == old(registry) + pool
        invariant LedgerTied() && model == Grown(old(model), |pool|)
      {
        GrownMore(old(model), |pool|);
        var cli := Allocate();
        pool := pool + [cli];
      }
    }

    /** `item.second = make_shared` for one bound id */
    method Rebind(id: IoId) returns (cli: ClientTcpAdapter)
      requires LedgerTied() && id in clients
      modifies this`clients, this`nextId, this`registry, this`model
      ensures clients == old(clients)[id := cli] && clients.Keys == old(clients).Keys
      ensures fresh(cli) && registry == old(registry) + [cli]
      ensures LedgerTied() && model == old(model).(ledger := old(model).ledger + [NEW_ADAPTER])
    {
      cli := Allocate();
      clients := clients[id := cli];
    }

    /** The loop that gives every bound id a new adapter. */
    method RebuildClients(ids: seq<IoId>) returns (list: seq<ClientTcpAdapter>)
      requires LedgerTied() && NoDup(ids) && forall k :: 0 <= k < |ids| ==> ids[k] in clients
      modifies this`clients, this`nextId, this`registry, this`model
      ensures clients.Keys == old(clients).Keys
      ensures |list| == |ids| && BoundInOrder(clients, ids, list)
      ensures fresh(list) && registry == old(registry) + list
      ensures LedgerTied() && model == Grown(old(model), |list|)
    {
      list := [];
      GrownMore(model, 0);
      while |list| < |ids|
        invariant clients.Keys == old(clients).Keys && BoundInOrder(clients, ids, list)
        invariant fresh(list) && registry == old(registry) + list
        invariant LedgerTied() && model == Grown(old(model), |list|)
      {
        GrownMore(old(model), |list|);
        ghost var was := clients;
        var cli := Rebind(ids[|list|]);
        OneMoreInOrder(was, ids, list, cli);
        list := list + [cli];
      }
    }

    method StartOne(cli: ClientTcpAdapter, ghost generation: nat)
      requires LedgerTied() && cli.id < |registry| && registry[cli.id] == cli
      modifies cli, this`model
      ensures LedgerTied()
      ensures model == old(model).(ledger :=
        old(model).ledger[cli.id := AdapterSpec.Start(old(cli.State()), opt, generation)])
    {
      cli.Start(opt, generation);
      model := model.(ledger := model.ledger[cli.id := cli.State()]);
    }

    /** Starts the adapters allocated since position `base`. */
    method StartAll(list: seq<ClientTcpAdapter>, ghost base: nat, ghost generation: nat)
      requires LedgerTied() && base + |list| == |registry|
      requires forall k :: 0 <= k < |list| ==> list[k] == registry[base + k] && list[k].State() == NEW_ADAPTER
      modifies list, this`model
      ensures LedgerTied()
      ensures var started := AdapterSpec.Start(NEW_ADAPTER, opt, generation);
        model == old(model).(ledger := old(model).ledger[..base] + Repeat(started, |list|))
    {
      ghost var started := AdapterSpec.Start(NEW_ADAPTER, opt, generation);
      for i := 0 to |list|
        invariant LedgerTied() && model == old(model).(ledger := model.ledger)
        invariant model.ledger[..base] == old(model).ledger[..base]
        invariant forall k :: 0 <= k < |list| ==> list[k].State() == if k < i then started else NEW_ADAPTER
      {
        StartOne(list[i], generation);
      }
      assert model.ledger[base..] == Repeat(started, |list|) by {
        forall j | base <= j < |registry| ensures model.ledger[j] == started {
          assert list[j - base] == registry[j];
        }
      }
      assert model.ledger == model.ledger[..base] + model.ledger[base..];
    }

    /** The startup pool is filled by the first configuration only. */
    method FillStartup()
      requires LedgerTied()
      modifies this`startupPool, this`startupFlag, this`nextId, this`registry, this`model
      ensures !startupFlag && |startupPool| == if old(startupFlag) then opt.startupPool else 0
      ensures fresh(startupPool) && registry == old(registry) + startupPool
      ensures LedgerTied() && model == Grown(old(model), |startupPool|)
    {
      startupPool := [];
      GrownMore(model, 0);
      if startupFlag {
        startupPool := Fill(opt.startupPool);
        startupFlag := false;
      }
    }

    /** The locked part: new adapters for the bound ids, the primary and (once) the startup pool. */
    method AllocatePools(ids: seq<IoId>) returns (list: seq<ClientTcpAdapter>)
      requires LedgerTied() && NoDup(ids) && forall k :: 0 <= k < |ids| ==> ids[k] in clients
      modifies this`clients, this`primaryPool, this`secondaryPool, this`startupPool, this`startupFlag,
               this`nextId, this`registry, this`model
      ensures clients.Keys == old(clients).Keys && secondaryPool == [] && !startupFlag
      ensures |list| == |ids| && BoundInOrder(clients, ids, list)
      ensures |primaryPool| == opt.primaryPool
      ensures |startupPool| == if old(startupFlag) then opt.startupPool else 0
      ensures fresh(list) && fresh(primaryPool) && fresh(startupPool)
      ensures registry == old(registry) + list + primaryPool + startupPool
      ensures LedgerTied() && model == Grown(old(model), |list| + |primaryPool| + |startupPool|)
    {
      list := RebuildClients(ids);
      secondaryPool := [];
      primaryPool := Fill(opt.primaryPool);
      GrownTwice(old(model), |list|, |primaryPool|);
      FillStartup();
      GrownTwice(old(model), |list| + |primaryPool|, |startupPool|);
    }

    /** The containers hold the newest adapters: bound ones first, then primary, then startup. */
    lemma NewestAreTied(q: Pool, ids: seq<IoId>, list: seq<ClientTcpAdapter>, base: nat)
      requires clients.Keys == (set id | id in ids) && |ids| + |primaryPool| + |startupPool| == |list|
      requires base + |list| == |registry| && registry[base..] == list
      requires BoundInOrder(clients, ids, list[..|ids|]) && list == list[..|ids|] + primaryPool + startupPool
      requires q.clients == Renumber(ids, base)
      requires q.primary == Range(base + |ids|, |primaryPool|)
      requires q.startup == Range(base + |ids| + |primaryPool|, |startupPool|)
      requires secondaryPool == [] && q.secondary == []
      requires opt == q.opt && startupFlag == q.startupFlag && stopFlag == q.stopFlag
      ensures ContainersTied(q)
    {
      forall k | 0 <= k < |list| ensures registry[base + k] == list[k] {
        assert registry[base..][k] == registry[base + k];
      }
    }

    /** Allocation under the lock, starts after it; returns the client_list. */
    method AllocateAndStart(ids: seq<IoId>) returns (list: seq<ClientTcpAdapter>)
      requires LedgerTied() && NoDup(ids) && forall k :: 0 <= k < |ids| ==> ids[k] in clients
      modifies this`clients, this`primaryPool, this`secondaryPool, this`startupPool, this`startupFlag,
               this`nextId, this`registry, this`model
      ensures clients.Keys == old(clients).Keys && secondaryPool == [] && !startupFlag
      ensures |primaryPool| == opt.primaryPool
      ensures |startupPool| == if old(startupFlag) then opt.startupPool else 0
      ensures |list| == |ids| + |primaryPool| + |startupPool|
      ensures BoundInOrder(clients, ids, list[..|ids|]) && list == list[..|ids|] + primaryPool + startupPool
      ensures fresh(list) && registry == old(registry) + list && registry[|old(registry)|..] == list
      ensures var started := AdapterSpec.Start(NEW_ADAPTER, opt, old(model).generation + 1);
        LedgerTied() && model == old(model).(ledger := old(model).ledger + Repeat(started, |list|))
    {
      ghost var base := |registry|;
      ghost var generation := model.generation + 1;
      var bound := AllocatePools(ids);
      list := bound + primaryPool + startupPool;
      assert list[..|ids|] == bound;
      assert registry == old(registry) + list;
      forall k | 0 <= k < |list| ensures list[k] == registry[base + k] && list[k].State() == NEW_ADAPTER {
        assert model.ledger[base + k] == NEW_ADAPTER;
      }
      StartAll(list, base, generation);
    }

    /** reconfigure_and_start after all clients were stopped */
    method RenewObjects(ids: seq<IoId>, newOpt: Options) returns (list: seq<ClientTcpAdapter>)
      requires LedgerTied() && NoDup(ids) && clients.Keys == (set id | id in ids)
      modifies this
      ensures clients.Keys == old(clients).Keys && secondaryPool == [] && !startupFlag && !stopFlag
      ensures |list| == |ids| + |primaryPool| + |startupPool| && opt == newOpt && |primaryPool| == opt.primaryPool
      ensures |startupPool| == if old(startupFlag) then opt.startupPool else 0
      ensures BoundInOrder(clients, ids, list[..|ids|]) && list == list[..|ids|] + primaryPool + startupPool
      ensures fresh(list) && registry == old(registry) + list && registry[|old(registry)|..] == list
      ensures var started := AdapterSpec.Start(NEW_ADAPTER, opt, old(model).generation + 1);
        LedgerTied() && model == old(model).(ledger := old(model).ledger + Repeat(started, |list|))
    {
      opt := newOpt;
      list := AllocateAndStart(ids);
      stopFlag := false;
    }

    /** The objects form the state that the renewal of p leads to. */
    ghost method AdoptRenewed(p: Pool, ids: seq<IoId>, list: seq<ClientTcpAdapter>)
      requires LedgerTied() && NoDup(ids) && clients.Keys == (set id | id in ids)
      requires |list| == |ids| + |primaryPool| + |startupPool|
      requires |primaryPool| == opt.primaryPool && |startupPool| == if p.startupFlag then opt.startupPool else 0
      requires |p.ledger| + |list| == |registry| && registry[|p.ledger|..] == list
      requires BoundInOrder(clients, ids, list[..|ids|]) && list == list[..|ids|] + primaryPool + startupPool
      requires secondaryPool == [] && !startupFlag && !stopFlag
      requires model.ledger == p.ledger + Repeat(AdapterSpec.Start(NEW_ADAPTER, opt, p.generation + 1), |list|)
      modifies this`model
      ensures Tied() && model == Renewed(p, ids, opt)
    {
      ghost var q := Renewed(p, ids, opt);
      RenewedIsLinked(p, ids, opt);
      NewestAreTied(q, ids, list, |p.ledger|);
      Adopt(q);
    }

    /** reconfigure_and_start after all clients were stopped, as a change of the state */
    method Renew(ids: seq<IoId>, newOpt: Options) returns (list: seq<ClientTcpAdapter>)
      requires LedgerTied() && NoDup(ids) && clients.Keys == (set id | id in ids)
      requires startupFlag == model.startupFlag
      modifies this
      ensures fresh(list) && registry == old(registry) + list
      ensures Tied() && model == Renewed(old(model), ids, newOpt)
    {
      ghost var p := model;
      list := RenewObjects(ids, newOpt);
      AdoptRenewed(p, ids, list);
    }

    /** reconfigure_and_start, on the objects alone */
    method Rebuild(newOpt: Options)
      requires Tied()
      modifies this, registry
      ensures Grew()
      ensures Tied() && model == Reconfigure(old(model), newOpt)
    {
      StopAllClients();
      var ids := KeysInOrder(clients.Keys);
      var _ := Renew(ids, newOpt);
    }

    method ReconfigureAndStart(newOpt: Options)
      requires Valid()
      modifies this, registry
      ensures Grew()
      ensures Valid() && model == Reconfigure(old(model), newOpt)
    {
      ReconfigureKeeps(model, newOpt);
      Rebuild(newOpt);
    }
  }

  /** client_tcp: the registration front of the map. `suspended` is set by the configuration. */
  class ClientTcp {
    const clientMap: ClientTcpMap
    var started: bool
    var waitList: map<IoId, Option<ObjId>>
    var suspended: bool

    ghost predicate Valid()
      reads this, clientMap, clientMap.registry
    {
      clientMap.Valid()
    }

    ghost function State(): ClientTcpSpec.Client
      reads this, clientMap
    {
      ClientTcpSpec.Client(clientMap.model, started, waitList)
    }

    constructor (suspended: bool)
      ensures Valid() && fresh(clientMap) && State() == ClientTcpSpec.NEW_CLIENT && this.suspended == suspended
    {
      clientMap := new ClientTcpMap();
      started, waitList, this.suspended := false, map[], suspended;
    }

    method RegIo(id: IoId, itf: Option<ObjId>, alive: set<ObjId>)
      requires Valid()
      modifies this`waitList, clientMap, clientMap.registry
      ensures Valid() && clientMap.Grew()
      ensures State() == if suspended then old(State())
                         else ClientTcpSpec.Handle(old(State()), ClientTcpSpec.Joins(id, itf))
    {
      if !suspended {
        if started {
          clientMap.RegIo(id, itf, alive);
        } else {
          waitList := waitList[id := itf];
        }
      }
    }

    method UnregIo(id: IoId)
      requires Valid()
      modifies this`waitList, clientMap, clientMap.registry
      ensures Valid() && clientMap.registry == old(clientMap.registry)
      ensures State() == ClientTcpSpec.Handle(old(State()), ClientTcpSpec.Leaves(id))
    {
      if started {
        clientMap.UnregIo(id);
      } else {
        waitList := waitList - {id};
      }
    }

    /** `refused`: the object is suspended and the handler was called with nullptr. A message is
        handed to the map even before the first start. */
    method PerformIo(id: IoId, handler: Option<HandlerId>, alive: set<ObjId>, sent: bool, sentAnew: bool)
      returns (refused: bool)
      requires Valid()
      modifies clientMap, clientMap.registry
      ensures Valid() && clientMap.Grew()
      ensures refused <==> suspended && handler.Some?
      ensures clientMap.model == if suspended then old(clientMap.model)
                                 else Send(old(clientMap.model), id, handler, alive, Outcome(sent, sentAnew))
    {
      refused := false;
      if suspended {
        refused := handler.Some?;
      } else {
        clientMap.PerformIo(id, handler, alive, sent, sentAnew);
      }
    }

    method Stop()
      requires Valid()
      modifies this`started, clientMap, clientMap.registry
      ensures Valid() && clientMap.registry == old(clientMap.registry)
      ensures State() == ClientTcpSpec.Halt(old(State()))
    {
      started := false;
      clientMap.Stop();
    }

    /** The replay of the wait list, whose keys are `ids`. */
    method ReplayWaitList(ids: seq<IoId>, alive: set<ObjId>)
      requires clientMap.Valid() && forall k :: 0 <= k < |ids| ==> ids[k] in waitList
      modifies clientMap, clientMap.registry
      ensures clientMap.Valid() && clientMap.Grew()
      ensures clientMap.model == ClientTcpSpec.Replay(old(clientMap.model), ids, waitList)
    {
      for i := 0 to |ids|
        invariant clientMap.Valid() && clientMap.Grew()
        invariant clientMap.model == ClientTcpSpec.Replay(old(clientMap.model), ids[..i], waitList)
      {
        assert ids[..i + 1][..i] == ids[..i];
        clientMap.RegIo(ids[i], waitList[ids[i]], alive);
      }
      assert ids[..|ids|] == ids;
    }

    /** reconfigure_and_start_, when the wait list is to be replayed */
    method StartAndReplay(opt: Options, alive: set<ObjId>)
      requires clientMap.Valid()
      modifies this`started, clientMap, clientMap.registry
      ensures clientMap.Valid() && clientMap.Grew() && started
      ensures clientMap.model ==
        ClientTcpSpec.Replay(Reconfigure(old(clientMap.model), opt), ClientTcpSpec.WaitOrder(waitList), waitList)
    {
      clientMap.ReconfigureAndStart(opt);
      started := true;
      var ids := KeysInOrder(waitList.Keys);
      assert ids == ClientTcpSpec.WaitOrder(waitList);
      ReplayWaitList(ids, alive);
    }

    /** reconfigure_and_start_ */
    method ReconfigureAndStart(opt: Options, alive: set<ObjId>)
      requires Valid()
      modifies this`started, clientMap, clientMap.registry
      ensures Valid() && clientMap.Grew()
      ensures State() == if suspended
        then old(State()).(pool := Reconfigure(old(clientMap.model), opt), started := true)
        else ClientTcpSpec.Launch(old(State()), opt)
    {
      if started || suspended {
        clientMap.ReconfigureAndStart(opt);
        started := true;
      } else {
        StartAndReplay(opt, alive);
      }
    }
  }
}
