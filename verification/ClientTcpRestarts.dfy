/**
  Whole lives of a client: calls, messages, starts, reconfigurations and stops in any order. The wait
  list is edited whenever the client is not running and never cleared, so a start after a stop replays
  all that was called at such times, and nothing that was called while it ran.
*/
module ClientTcpRestarts {
  import opened Prelude
  import opened AdapterSpec
  import opened PoolSpec
  import opened PoolInvariants
  import opened PoolHolders
  import opened ClientTcpSpec
  import opened ClientTcpTheorems

  datatype Move =
    | Calls(entry: Entry)
    | Sends(id: IoId, handler: Option<HandlerId>, alive: set<ObjId>, result: SendResult)
    | Starts(opt: Options)
    | Stops

  ghost function Act(c: Client, m: Move): Client
    requires Linked(c.pool)
  {
    match m
    case Calls(e) => Handle(c, e)
    case Sends(id, h, alive, r) => c.(pool := Send(c.pool, id, h, alive, r))
    case Starts(opt) => Launch(c, opt)
    case Stops => Halt(c)
  }

  lemma ActKeeps(c: Client, m: Move)
    requires Inv(c.pool)
    ensures Inv(Act(c, m).pool)
  {
    match m
    case Calls(Joins(id, itf)) => RegKeeps(c.pool, id, itf);
    case Calls(Leaves(id)) => UnregKeeps(c.pool, id);
    case Sends(id, h, alive, r) => SendKeeps(c.pool, id, h, alive, r);
    case Starts(opt) => if c.started { ReconfigureKeeps(c.pool, opt); } else { StartHolders(c, opt); }
    case Stops => ShutdownKeeps(c.pool);
  }

  /** The client after these moves. */
  ghost function Life(moves: seq<Move>): (c: Client)
    ensures Inv(c.pool)
    decreases |moves|
  {
    if moves == [] then NEW_CLIENT else
      ActKeeps(Life(moves[..|moves| - 1]), moves[|moves| - 1]);
      Act(Life(moves[..|moves| - 1]), moves[|moves| - 1])
  }

  // ----- What the moves alone say

  predicate Runs(moves: seq<Move>) {
    moves != [] && (moves[|moves| - 1].Starts? || (!moves[|moves| - 1].Stops? && Runs(moves[..|moves| - 1])))
  }

  predicate EverStarted(moves: seq<Move>) {
    moves != [] && (moves[|moves| - 1].Starts? || EverStarted(moves[..|moves| - 1]))
  }

  /** All calls, and those made while the client was not running. */
  function AllCalls(moves: seq<Move>): seq<Entry> {
    if moves == [] then [] else
      var before := AllCalls(moves[..|moves| - 1]);
      match moves[|moves| - 1]
      case Calls(e) => before + [e]
      case _ => before
  }

  function IdleCalls(moves: seq<Move>): seq<Entry> {
    if moves == [] then [] else
      var before := IdleCalls(moves[..|moves| - 1]);
      match moves[|moves| - 1]
      case Calls(e) => if Runs(moves[..|moves| - 1]) then before else before + [e]
      case _ => before
  }

  lemma ListOfSnoc(log: seq<Entry>, e: Entry)
    ensures ListOf(log + [e]) == OnList(ListOf(log), e)
  {
    assert (log + [e])[..|log|] == log;
  }

  /** Between a stop and the next start the map is empty and deaf. */
  ghost predicate AsToldBy(c: Client, moves: seq<Move>) {
    && c.started == Runs(moves) && c.waitList == ListOf(IdleCalls(moves))
    && (EverStarted(moves) && !Runs(moves) ==> c.pool.stopFlag && c.pool.clients == map[])
  }

  lemma ActAsTold(c: Client, before: seq<Move>, m: Move)
    requires Inv(c.pool) && AsToldBy(c, before)
    ensures AsToldBy(Act(c, m), before + [m])
  {
    assert (before + [m])[..|before|] == before;
    match m
    case Calls(e) => ListOfSnoc(IdleCalls(before), e);
    case Starts(opt) => if !c.started { StartHolders(c, opt); }
    case _ =>
  }

  lemma {:induction false} LifeAsTold(moves: seq<Move>)
    ensures AsToldBy(Life(moves), moves)
    decreases |moves|
  {
    if moves != [] {
      var before := moves[..|moves| - 1];
      assert moves == before + [moves[|moves| - 1]];
      LifeAsTold(before);
      ActAsTold(Life(before), before, moves[|moves| - 1]);
    }
  }

  /** Whatever happened before: a start after a stop binds exactly what the calls made while the
      client was not running ended with. */
  lemma RestartReplaysIdleCalls(moves: seq<Move>, opt: Options)
    requires EverStarted(moves) && !Runs(moves)
    ensures Holders(Launch(Life(moves), opt).pool) == AsHolders(ListOf(IdleCalls(moves)))
  {
    LifeAsTold(moves);
    StartFromNothing(Life(moves), opt);
  }

  /** Whatever happened before: reconfiguring the running client binds the ids that were bound, and
      nobody hears for any of them, waiting or not. */
  lemma ReconfigurationOnlySilences(moves: seq<Move>, opt: Options)
    requires Runs(moves)
    ensures var before, after := Life(moves), Life(moves + [Starts(opt)]);
      && after.started && after.waitList == before.waitList
      && after.pool.clients.Keys == before.pool.clients.Keys
      && Holders(after.pool) == Silent(before.pool)
  {
    assert (moves + [Starts(opt)])[..|moves|] == moves;
    LifeAsTold(moves);
    ReconfigurationReplaysNothing(Life(moves), opt);
  }

  // ----- When that is what all calls ended with

  datatype Word = Word(entry: Entry, running: bool)

  /** The last call about `id`, and whether the client was running then. */
  function LastWord(moves: seq<Move>, id: IoId): Option<Word> {
    if moves == [] then None else
      var before, m := moves[..|moves| - 1], moves[|moves| - 1];
      if m.Calls? && m.entry.id == id then Some(Word(m.entry, Runs(before))) else LastWord(before, id)
  }

  /** The list is as the entry leaves it. */
  predicate Repeats(w: map<IoId, Option<ObjId>>, e: Entry) {
    match e
    case Joins(id, itf) => id in w && w[id] == itf
    case Leaves(id) => id !in w
  }

  predicate SameAt(v: map<IoId, Option<ObjId>>, w: map<IoId, Option<ObjId>>, id: IoId) {
    if id in v then id in w && v[id] == w[id] else id !in w
  }

  lemma OnListAt(w: map<IoId, Option<ObjId>>, e: Entry, id: IoId)
    ensures e.id == id ==> Repeats(OnList(w, e), e)
    ensures e.id != id ==> SameAt(w, OnList(w, e), id)
  {
  }

  /** Both lists end with the last word about an id, as far as they have heard it. */
  lemma {:induction false} ListsEndWithLastWord(moves: seq<Move>, id: IoId)
    ensures var w := LastWord(moves, id); var all, idle := ListOf(AllCalls(moves)), ListOf(IdleCalls(moves));
      && (w.None? ==> id !in all && id !in idle)
      && (w.Some? ==> w.value.entry.id == id && Repeats(all, w.value.entry))
      && (w.Some? && !w.value.running ==> Repeats(idle, w.value.entry))
    decreases |moves|
  {
    if moves != [] {
      var before, m := moves[..|moves| - 1], moves[|moves| - 1];
      ListsEndWithLastWord(before, id);
      if m.Calls? {
        ListOfSnoc(AllCalls(before), m.entry);
        ListOfSnoc(IdleCalls(before), m.entry);
        OnListAt(ListOf(AllCalls(before)), m.entry, id);
        OnListAt(ListOf(IdleCalls(before)), m.entry, id);
      }
    }
  }

  lemma AgreeIffSame(v: map<IoId, Option<ObjId>>, w: map<IoId, Option<ObjId>>)
    ensures AsHolders(v) == AsHolders(w) <==> forall id :: SameAt(v, w, id)
  {
    if AsHolders(v) == AsHolders(w) {
      forall id ensures SameAt(v, w, id) {
        assert id in AsHolders(v) <==> id in AsHolders(w);
        if id in v { assert AsHolders(v)[id] == AsHolders(w)[id]; }
      }
    }
    if forall id :: SameAt(v, w, id) {
      forall id ensures id in v <==> id in w { assert SameAt(v, w, id); }
      forall id | id in v ensures v[id] == w[id] { assert SameAt(v, w, id); }
      assert AsHolders(v) == AsHolders(w);
    }
  }

  /** What is replayed for `id` is what its last call asked for. */
  predicate Faithful(moves: seq<Move>, id: IoId) {
    LastWord(moves, id).Some? && LastWord(moves, id).value.running ==>
      Repeats(ListOf(IdleCalls(moves)), LastWord(moves, id).value.entry)
  }

  lemma FaithfulIffSame(moves: seq<Move>, id: IoId)
    ensures Faithful(moves, id) <==> SameAt(ListOf(IdleCalls(moves)), ListOf(AllCalls(moves)), id)
  {
    ListsEndWithLastWord(moves, id);
  }

  /** A restart restores what all calls ended with iff, for every id whose last call was made to the
      running client, that call repeats what the calls made at other times ended with. */
  lemma RestartIsFaithfulIff(moves: seq<Move>, opt: Options)
    requires EverStarted(moves) && !Runs(moves)
    ensures Holders(Launch(Life(moves), opt).pool) == AsHolders(ListOf(AllCalls(moves))) <==>
      forall id :: Faithful(moves, id)
  {
    RestartReplaysIdleCalls(moves, opt);
    AgreeIffSame(ListOf(IdleCalls(moves)), ListOf(AllCalls(moves)));
    forall id ensures Faithful(moves, id) <==> SameAt(ListOf(IdleCalls(moves)), ListOf(AllCalls(moves)), id) {
      FaithfulIffSame(moves, id);
    }
  }

  lemma MovesSnoc(before: seq<Move>, m: Move)
    ensures Runs(before + [m]) <==> m.Starts? || (!m.Stops? && Runs(before))
    ensures EverStarted(before + [m]) <==> m.Starts? || EverStarted(before)
    ensures m.Calls? && !Runs(before) ==> IdleCalls(before + [m]) == IdleCalls(before) + [m.entry]
    ensures !m.Calls? || Runs(before) ==> IdleCalls(before + [m]) == IdleCalls(before)
  {
    assert (before + [m])[..|before|] == before;
  }

  /** What waits is not touched by a call to the running client. */
  lemma LeftWhileRunning(join: Entry, leave: Entry, opt: Options)
    ensures var moves := [] + [Calls(join)] + [Starts(opt)] + [Calls(leave)] + [Stops];
      EverStarted(moves) && !Runs(moves) && IdleCalls(moves) == [join]
  {
    MovesSnoc([], Calls(join));
    MovesSnoc([] + [Calls(join)], Starts(opt));
    MovesSnoc([] + [Calls(join)] + [Starts(opt)], Calls(leave));
    MovesSnoc([] + [Calls(join)] + [Starts(opt)] + [Calls(leave)], Stops);
  }

  /** An id that left while the client was running is bound again by the restart. */
  lemma RestartRevives(id: IoId, o: ObjId, opt: Options)
    ensures var moves := [] + [Calls(Joins(id, Some(o)))] + [Starts(opt)] + [Calls(Leaves(id))] + [Stops];
      var p := Launch(Life(moves), opt).pool;
      id in p.clients && Holders(p)[id] == Source(o)
  {
    var join := Joins(id, Some(o));
    var moves := [] + [Calls(join)] + [Starts(opt)] + [Calls(Leaves(id))] + [Stops];
    LeftWhileRunning(join, Leaves(id), opt);
    RestartReplaysIdleCalls(moves, opt);
    ListOfSnoc([], join);
    assert [] + [join] == [join];
    assert id in Holders(Launch(Life(moves), opt).pool);
  }
}
