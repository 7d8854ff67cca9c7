/**
  From which pools interleaved calls can reach "Several sources are unacceptable": exactly those
  that recycle clients.
*/
module PoolFatal {
  import opened Prelude
  import opened AdapterSpec
  import opened PoolSpec
  import opened PoolInvariants
  import opened PoolThreads
  import opened PoolSeats
  import opened PoolOverlap

  // ----- Without a secondary pool no schedule gets there, orderly or not

  ghost predicate NeverRecycles(s: Sys) {
    && Linked(s.pool) && Exclusive(s.pool) && Seats(s) && s.pool.opt.secondaryPool == 0
    && forall t :: Known(s, PhaseOf(s, t))
  }

  lemma PutChangesNoContainer(p: Pool, a: nat, x: Adapter)
    requires Linked(p) && Exclusive(p)
    ensures Linked(Put(p, a, x)) && Exclusive(Put(p, a, x))
  {
    assert forall b: nat :: Contained(Put(p, a, x), b) <==> Contained(p, b);
  }

  lemma UnbindKeepsContainers(p: Pool, id: IoId)
    requires Linked(p) && Exclusive(p)
    ensures Linked(Unbind(p, id)) && Exclusive(Unbind(p, id))
  {
    if id in p.clients {
      UnbindDetaches(p, id);
    } else {
      assert p.clients - {id} == p.clients;
    }
  }

  lemma InsertKeepsContainers(s: Sys, e: Event)
    requires Linked(s.pool) && Exclusive(s.pool) && e.action.Insert?
    ensures Linked(Step(s, e).pool) && Exclusive(Step(s, e).pool)
  {
    if PhaseOf(s, e.thread).Missed? {
      TakeDetaches(s.pool);
      if PhaseOf(s, e.thread).id !in s.pool.clients {
        BindAttaches(Take(s.pool).pool, PhaseOf(s, e.thread).id, Take(s.pool).adapter);
      }
    }
  }

  lemma ContainersStayExclusive(s: Sys, e: Event)
    requires Linked(s.pool) && Exclusive(s.pool) && s.pool.opt.secondaryPool == 0
    ensures Linked(Step(s, e).pool) && Exclusive(Step(s, e).pool)
  {
    match (e.action, PhaseOf(s, e.thread))
    case (Insert, _) => InsertKeepsContainers(s, e);
    case (Use(call), Holding(id, a)) => PutChangesNoContainer(s.pool, a, CallOn(At(s.pool, a), id, call));
    case (Release, Found(id, a)) => PutChangesNoContainer(s.pool, a, UnregIo(At(s.pool, a), id));
    case (Erase, Released(id, _)) => UnbindKeepsContainers(s.pool, id);
    case (Halt, Dropping(a)) => PutChangesNoContainer(s.pool, a, Stop(At(s.pool, a)));
    case _ =>
  }

  lemma AdaptersStayKnown(s: Sys, e: Event)
    requires Linked(s.pool) && Exclusive(s.pool) && forall t :: Known(s, PhaseOf(s, t))
    ensures Step(s, e).pool.opt == s.pool.opt && forall t :: Known(Step(s, e), PhaseOf(Step(s, e), t))
  {
    var r := Step(s, e);
    if e.action.Insert? { TakeDetaches(s.pool); }
    assert forall id :: id in s.pool.clients ==> Contained(s.pool, s.pool.clients[id]);
    forall t ensures Known(r, PhaseOf(r, t)) {
      assert Known(s, PhaseOf(s, t));
    }
  }

  lemma {:induction false} NeverRecyclingPlay(s: Sys, events: seq<Event>)
    requires NeverRecycles(s)
    ensures NeverRecycles(Play(s, events))
    decreases |events|
  {
    if events != [] {
      var last := |events| - 1;
      NeverRecyclingPlay(s, events[..last]);
      var b := Play(s, events[..last]);
      CleanStepKeepsSeats(b, events[last]);
      ContainersStayExclusive(b, events[last]);
      AdaptersStayKnown(b, events[last]);
    }
  }

  /** A stopped map lets no call begin. */
  lemma {:induction false} StoppedPlay(s: Sys, events: seq<Event>)
    requires s.pool.stopFlag && s.threads == map[]
    ensures Play(s, events) == s
    decreases |events|
  {
    if events != [] {
      StoppedPlay(s, events[..|events| - 1]);
    }
  }

  // ----- With one there is an orderly schedule

  /** The schedule is orderly and leads to s. */
  ghost predicate Reached(p: Pool, events: seq<Event>, s: Sys) {
    && OrderlyRun(Initial(p), events) && s == Play(Initial(p), events)
    && Linked(s.pool) && Exclusive(s.pool)
  }

  /** Calls may start, and no unreg_io is on its way. */
  ghost predicate NoneLeaving(s: Sys) {
    !s.pool.stopFlag && forall t :: t in s.threads ==> s.threads[t].Idle? || s.threads[t].Holding?
  }

  lemma OneMore(p: Pool, events: seq<Event>, s: Sys, e: Event) returns (more: seq<Event>)
    requires OrderlyRun(Initial(p), events) && s == Play(Initial(p), events) && Orderly(s, e)
    ensures OrderlyRun(Initial(p), more) && Step(s, e) == Play(Initial(p), more)
  {
    more := events + [e];
    PlaySnoc(Initial(p), events, e);
    forall i | 0 <= i < |more| ensures Orderly(Play(Initial(p), more[..i]), more[i]) {
      assert i < |events| ==> more[..i] == events[..i];
      assert more[..|events|] == events;
    }
  }

  /** The state after a new thread has acquired an adapter for a new id, up to its call. */
  function Acquired(s: Sys, t: nat, id: IoId): Sys {
    var taken := Take(s.pool);
    Sys(taken.pool.(clients := taken.pool.clients[id := taken.adapter]),
        s.threads[t := Holding(id, taken.adapter)], s.orphans)
  }

  lemma AcquireSteps(s: Sys, t: nat, id: IoId)
    requires Linked(s.pool) && Exclusive(s.pool) && !s.pool.stopFlag && t !in s.threads && id !in s.pool.clients
    ensures Step(Step(s, Event(t, Look(id))), Event(t, Insert)) == Acquired(s, t, id)
    ensures Linked(Acquired(s, t, id).pool) && Exclusive(Acquired(s, t, id).pool)
  {
    TakeDetaches(s.pool);
    BindAttaches(Take(s.pool).pool, id, Take(s.pool).adapter);
    var holding := Holding(id, Take(s.pool).adapter);
    assert s.threads[t := Missed(id)][t := holding] == s.threads[t := holding];
  }

  lemma AcquireFresh(p: Pool, events: seq<Event>, s: Sys, avoid: nat)
    returns (more: seq<Event>, t: nat, id: IoId)
    requires Reached(p, events, s) && NoneLeaving(s)
    ensures t !in s.threads && id !in s.pool.clients && id > avoid
    ensures Reached(p, more, Acquired(s, t, id)) && NoneLeaving(Acquired(s, t, id))
  {
    var top := UpperBound(s.threads.Keys);
    var highest := UpperBound(s.pool.clients.Keys);
    t, id := top + 1, highest + avoid + 1;
    AcquireSteps(s, t, id);
    more := OneMore(p, events, s, Event(t, Look(id)));
    more := OneMore(p, more, Step(s, Event(t, Look(id))), Event(t, Insert));
  }

  /** New sources empty the startup and the secondary pool. */
  lemma {:induction false} Drain(p: Pool, events: seq<Event>, s: Sys) returns (more: seq<Event>, r: Sys)
    requires Reached(p, events, s) && NoneLeaving(s)
    ensures Reached(p, more, r) && NoneLeaving(r) && r.pool.opt == s.pool.opt
    ensures r.pool.startup == [] && r.pool.secondary == []
    decreases |s.pool.startup| + |s.pool.secondary|
  {
    if s.pool.startup == [] && s.pool.secondary == [] {
      more, r := events, s;
    } else {
      var t, id;
      more, t, id := AcquireFresh(p, events, s, 0);
      more, r := Drain(p, more, Acquired(s, t, id));
    }
  }

  /** The state after unreg_io of a bound id has recycled its adapter. */
  function Recycled(s: Sys, u: nat, id: IoId): Sys
    requires id in s.pool.clients
  {
    var a := s.pool.clients[id];
    var q := Unbind(Put(s.pool, a, UnregIo(At(s.pool, a), id)), id);
    Sys(q.(secondary := q.secondary + [a]), s.threads[u := Idle], s.orphans)
  }

  lemma RecycleSteps(s: Sys, u: nat, id: IoId)
    requires !s.pool.stopFlag && u !in s.threads && id in s.pool.clients && |s.pool.secondary| < s.pool.opt.secondaryPool
    ensures var s1 := Step(s, Event(u, Seek(id))); var s2 := Step(s1, Event(u, Release));
      Step(s2, Event(u, Erase)) == Recycled(s, u, id)
  {
    var a := s.pool.clients[id];
    var s1 := Step(s, Event(u, Seek(id)));
    assert s1 == Goto(s, u, Found(id, a));
    var s2 := Step(s1, Event(u, Release));
    assert s2.pool == Put(s.pool, a, UnregIo(At(s.pool, a), id)) && s2.threads == s.threads[u := Released(id, a)];
    assert s2.threads[u := Idle] == s.threads[u := Idle];
  }

  lemma RecycleFresh(p: Pool, events: seq<Event>, s: Sys, id: IoId) returns (more: seq<Event>, u: nat)
    requires Reached(p, events, s) && NoneLeaving(s) && id in s.pool.clients
    requires |s.pool.secondary| < s.pool.opt.secondaryPool
    ensures u !in s.threads && Reached(p, more, Recycled(s, u, id)) && NoneLeaving(Recycled(s, u, id))
  {
    var top := UpperBound(s.threads.Keys);
    u := top + 1;
    RecycleSteps(s, u, id);
    var s1 := Step(s, Event(u, Seek(id)));
    more := OneMore(p, events, s, Event(u, Seek(id)));
    more := OneMore(p, more, s1, Event(u, Release));
    more := OneMore(p, more, Step(s1, Event(u, Release)), Event(u, Erase));
    RecycledContainers(s.pool, s.pool.clients[id], id);
  }

  lemma RecycledContainers(p: Pool, a: nat, id: IoId)
    requires Linked(p) && Exclusive(p) && id in p.clients && a == p.clients[id]
    ensures var q := Unbind(Put(p, a, UnregIo(At(p, a), id)), id);
      Linked(q.(secondary := q.secondary + [a])) && Exclusive(q.(secondary := q.secondary + [a]))
  {
    assert Contained(p, a);
    var p1 := Put(p, a, UnregIo(At(p, a), id));
    PutChangesNoContainer(p, a, UnregIo(At(p, a), id));
    UnbindDetaches(p1, id);
    RecycleAttaches(Unbind(p1, id), a);
  }

  /** x recycles its adapter while a call of x still holds it; y, coming next, is given it. */
  lemma Overtaken(s: Sys, t: nat, x: IoId, u: nat, v: nat, y: IoId)
    requires Linked(s.pool) && s.pool.startup == [] && s.pool.secondary == [] && x in s.pool.clients
    requires t in s.threads && s.threads[t] == Holding(x, s.pool.clients[x]) && u !in s.threads
    requires v !in Recycled(s, u, x).threads
    ensures var a := s.pool.clients[x]; var r := Acquired(Recycled(s, u, x), v, y);
      a < |r.pool.ledger| && t != v && r.threads[t] == Holding(x, a) && r.threads[v] == Holding(y, a)
  {
    assert Contained(s.pool, s.pool.clients[x]);
    assert Recycled(s, u, x).pool.secondary == [s.pool.clients[x]];
  }

  /** First y calls its adapter, then x the same one. */
  lemma SecondSource(s: Sys, t: nat, x: IoId, v: nat, y: IoId, a: nat, itf: Option<ObjId>)
    requires t in s.threads && v in s.threads && t != v && a < |s.pool.ledger| && y > x
    requires s.threads[t] == Holding(x, a) && s.threads[v] == Holding(y, a)
    ensures var r := Step(Step(s, Event(v, Use(CallReg(itf)))), Event(t, Use(CallReg(itf))));
      a < |r.pool.ledger| && r.pool.ledger[a].fatal
  {
    var s1 := Step(s, Event(v, Use(CallReg(itf))));
    assert s1.pool.ledger[a].holderId == y && s1.threads[t] == Holding(x, a);
  }

  /** A source that has found its adapter is overtaken by the unreg_io of its id and by a new source. */
  lemma SeveralSourcesUnderInterleaving(p: Pool, itf: Option<ObjId>) returns (events: seq<Event>)
    requires Inv(p) && !p.stopFlag && p.opt.secondaryPool > 0
    ensures OrderlyRun(Initial(p), events) && SeveralSourcesTaken(Play(Initial(p), events).pool)
  {
    var drained: Sys;
    events, drained := Drain(p, [], Initial(p));
    var t, x;
    events, t, x := AcquireFresh(p, events, drained, 0);
    var s := Acquired(drained, t, x);
    TakenFromNone(drained);
    var u;
    events, u := RecycleFresh(p, events, s, x);
    var v, y;
    events, v, y := AcquireFresh(p, events, Recycled(s, u, x), x);
    Overtaken(s, t, x, u, v, y);
    events := CallBoth(p, events, Acquired(Recycled(s, u, x), v, y), t, x, v, y, s.pool.clients[x], itf);
  }

  lemma TakenFromNone(s: Sys)
    requires s.pool.startup == [] && s.pool.secondary == []
    ensures var q := Take(s.pool).pool; q.startup == [] && q.secondary == [] && q.opt == s.pool.opt
  {
  }

  lemma CallBoth(p: Pool, events: seq<Event>, s: Sys, t: nat, x: IoId, v: nat, y: IoId, a: nat, itf: Option<ObjId>)
    returns (more: seq<Event>)
    requires OrderlyRun(Initial(p), events) && s == Play(Initial(p), events)
    requires t in s.threads && v in s.threads && t != v && a < |s.pool.ledger| && y > x
    requires s.threads[t] == Holding(x, a) && s.threads[v] == Holding(y, a)
    ensures OrderlyRun(Initial(p), more) && SeveralSourcesTaken(Play(Initial(p), more).pool)
  {
    SecondSource(s, t, x, v, y, a, itf);
    more := OneMore(p, events, s, Event(v, Use(CallReg(itf))));
    more := OneMore(p, more, Step(s, Event(v, Use(CallReg(itf)))), Event(t, Use(CallReg(itf))));
  }

  /** Some schedule of calls takes the fatal branch iff the map is not stopped and recycles clients. */
  lemma SeveralSourcesReachableIff(p: Pool)
    requires Inv(p)
    ensures (exists events :: LeadsToFatal(p, events)) <==> !p.stopFlag && p.opt.secondaryPool > 0
  {
    if !p.stopFlag && p.opt.secondaryPool > 0 {
      var events := SeveralSourcesUnderInterleaving(p, None);
      assert LeadsToFatal(p, events);
    } else {
      forall events ensures !LeadsToFatal(p, events) {
        StartHasSeats(p);
        if p.stopFlag {
          StoppedPlay(Initial(p), events);
        } else {
          NeverRecyclingPlay(Initial(p), events);
        }
      }
    }
  }

  ghost predicate LeadsToFatal(p: Pool, events: seq<Event>) {
    SeveralSourcesTaken(Play(Initial(p), events).pool)
  }
}
