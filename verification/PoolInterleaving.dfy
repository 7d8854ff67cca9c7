/** What a user of the pool may rely on when threads interleave, and what goes wrong otherwise. */
module PoolInterleaving {
  import opened Prelude
  import opened AdapterSpec
  import opened PoolSpec
  import opened PoolInvariants
  import opened PoolThreads
  import PoolTheorems

  /** A schedule keeps the account at every moment iff none of its erases is stale. */
  lemma SoundIffNoStaleErase(p: Pool, events: seq<Event>)
    requires Inv(p)
    ensures (forall n: nat :: n <= |events| ==> Sound(Play(Initial(p), events[..n]))) <==> StaleFree(Initial(p), events)
  {
    var s := Initial(p);
    if StaleFree(s, events) {
      StartIsSound(p);
      forall n: nat | n <= |events| ensures Sound(Play(s, events[..n])) {
        assert forall i :: 0 <= i < n ==> events[..n][..i] == events[..i];
        PlayIsSound(s, events[..n]);
      }
    } else {
      var i :| 0 <= i < |events| && StaleErase(Play(s, events[..i]), events[i]);
      assert events[..i + 1][..i] == events[..i];
      if Sound(Play(s, events[..i])) {
        StepIsSoundIff(Play(s, events[..i]), events[i]);
        assert !Sound(Play(s, events[..i + 1]));
      }
    }
  }

  /** One unreg_io of an id at a time is enough for that. */
  lemma OrderlySchedulesAreSound(p: Pool, events: seq<Event>)
    requires Inv(p) && OrderlyRun(Initial(p), events)
    ensures StaleFree(Initial(p), events)
  {
    StartIsSound(p);
    OrderlyIsStaleFree(Initial(p), events);
  }

  /** Then no adapter is ever bound twice, pooled twice, or bound and pooled; and every adapter is
      contained, or running and lost or about to be stopped, or stopped once. */
  lemma ExclusiveUnderInterleaving(p: Pool, events: seq<Event>, a: nat)
    requires Inv(p) && StaleFree(Initial(p), events)
    ensures var s := Play(Initial(p), events);
      && multiset(AllContained(s.pool))[a] == (if Contained(s.pool, a) then 1 else 0)
      && (a < |s.pool.ledger| ==>
            if Contained(s.pool, a) || Spare(s, a)
            then Running(s.pool, s.pool.ledger[a]) && !(Contained(s.pool, a) && Spare(s, a))
            else Retired(s.pool.ledger[a]))
  {
    StartIsSound(p);
    PlayIsSound(Initial(p), events);
    var s := Play(Initial(p), events);
    ContainedOnce(s.pool);
    PoolTheorems.NoDupCounts(AllContained(s.pool), a);
  }

  /** An upsert_ that loses never replaces a binding: only the erase phase of an unreg_io of the
      same id ends it. */
  lemma BindingsAreStable(s: Sys, e: Event, id: IoId)
    requires Sound(s) && !StaleErase(s, e) && id in s.pool.clients
    ensures var r := Step(s, e);
      || (id in r.pool.clients && r.pool.clients[id] == s.pool.clients[id])
      || (e.action.Erase? && PhaseOf(s, e.thread) == Released(id, s.pool.clients[id]))
  {
    TakeDetaches(s.pool);
  }

  // ----- Lost insertions

  /** This step is a write phase that finds its id bound meanwhile. */
  predicate Loses(s: Sys, e: Event) {
    e.action.Insert? && PhaseOf(s, e.thread).Missed? && PhaseOf(s, e.thread).id in s.pool.clients
  }

  function Losses(s: Sys, events: seq<Event>): nat {
    if events == [] then 0 else
      var before := events[..|events| - 1];
      Losses(s, before) + (if Loses(Play(s, before), events[|events| - 1]) then 1 else 0)
  }

  lemma OrphanStep(s: Sys, e: Event)
    requires Sound(s)
    ensures |Step(s, e).orphans| == |s.orphans| + (if Loses(s, e) then 1 else 0)
  {
    TakeDetaches(s.pool);
    TakenIsNotSpare(s);
  }

  lemma {:induction false} OrphansAreLosses(s: Sys, events: seq<Event>)
    requires Sound(s) && StaleFree(s, events)
    ensures |Play(s, events).orphans| == |s.orphans| + Losses(s, events)
    decreases |events|
  {
    if events != [] {
      var last := |events| - 1;
      var before := events[..last];
      assert forall i :: 0 <= i < last ==> before[..i] == events[..i];
      OrphansAreLosses(s, before);
      PlayIsSound(s, before);
      OrphanStep(Play(s, before), events[last]);
    }
  }

  /** Adapters that no container knows although nobody has called stop() on them. */
  ghost function Unstopped(p: Pool): set<nat> {
    set a | 0 <= a < |p.ledger| && p.ledger[a].stops == 0 && !Contained(p, a)
  }

  ghost predicate Quiescent(s: Sys) {
    forall t :: t in s.threads ==> s.threads[t] == Idle
  }

  lemma QuiescentSpares(s: Sys)
    requires Sound(s) && Quiescent(s)
    ensures forall a :: Spare(s, a) <==> a in s.orphans
    ensures Unstopped(s.pool) == s.orphans
  {
    assert forall t, a :: !DroppedBy(s, t, a);
    forall a ensures a in Unstopped(s.pool) <==> a in s.orphans {
      if a in s.orphans { assert Spare(s, a); }
    }
  }

  /** Once all calls have returned, exactly one client per lost insertion was dropped without stop(). */
  lemma UnstoppedAreLosses(p: Pool, events: seq<Event>)
    requires Inv(p) && StaleFree(Initial(p), events) && Quiescent(Play(Initial(p), events))
    ensures |Unstopped(Play(Initial(p), events).pool)| == Losses(Initial(p), events)
  {
    StartIsSound(p);
    PlayIsSound(Initial(p), events);
    OrphansAreLosses(Initial(p), events);
    QuiescentSpares(Play(Initial(p), events));
  }

  // ----- Without interference the phases add up to the calls

  /** The same call in one piece. */
  function Whole(p: Pool, id: IoId, call: Call): Pool {
    match call
    case CallReg(itf) => Reg(p, id, itf)
    case CallSend(h, alive, result) => Send(p, id, h, alive, result)
  }

  /** upsert_ followed by the call on the adapter, with no other thread in between: reg_io. */
  lemma UndisturbedCall(s: Sys, t: nat, id: IoId, call: Call)
    requires Inv(s.pool) && !s.pool.stopFlag && PhaseOf(s, t) == Idle
    ensures var r := Play(s, [Event(t, Look(id)), Event(t, Insert), Event(t, Use(call))]);
      && r.pool == Whole(s.pool, id, call)
      && PhaseOf(r, t) == Idle && r.orphans == s.orphans
  {
    PlayThree(s, Event(t, Look(id)), Event(t, Insert), Event(t, Use(call)));
    TakeDetaches(s.pool);
  }

  /** perform_io looks twice: once itself and once more in upsert_. */
  lemma UndisturbedSend(s: Sys, t: nat, id: IoId, handler: Option<HandlerId>, alive: set<ObjId>, result: SendResult)
    requires Inv(s.pool) && !s.pool.stopFlag && PhaseOf(s, t) == Idle
    ensures var use := CallSend(handler, alive, result);
      var r := Play(s, [Event(t, Look(id)), Event(t, Relook), Event(t, Insert), Event(t, Use(use))]);
      && r.pool == Send(s.pool, id, handler, alive, result)
      && PhaseOf(r, t) == Idle && r.orphans == s.orphans
  {
    var use := CallSend(handler, alive, result);
    var look, relook, insert, call := Event(t, Look(id)), Event(t, Relook), Event(t, Insert), Event(t, Use(use));
    LookingAgain(s, t, id);
    UndisturbedCall(s, t, id, use);
    PlayThree(s, look, insert, call);
    PlayThree(s, look, relook, insert);
    assert [look, relook, insert] + [call] == [look, relook, insert, call];
    PlaySnoc(s, [look, relook, insert], call);
  }

  lemma LookingAgain(s: Sys, t: nat, id: IoId)
    requires PhaseOf(s, t) == Idle && !s.pool.stopFlag
    ensures Step(Step(s, Event(t, Look(id))), Event(t, Relook)) == Step(s, Event(t, Look(id)))
  {
    var r := Step(s, Event(t, Look(id)));
    assert r.threads[t := r.threads[t]] == r.threads;
  }

  lemma FirstPhases(s: Sys, t: nat, id: IoId)
    requires !s.pool.stopFlag && PhaseOf(s, t) == Idle && id in s.pool.clients
    ensures var a := s.pool.clients[id]; var r := Step(Step(s, Event(t, Seek(id))), Event(t, Release));
      r.pool == Put(s.pool, a, UnregIo(At(s.pool, a), id)) && PhaseOf(r, t) == Released(id, a) && r.orphans == s.orphans
  {
  }

  lemma LastPhases(s: Sys, t: nat, id: IoId, a: nat)
    requires PhaseOf(s, t) == Released(id, a)
    ensures var r := Step(Step(s, Event(t, Erase)), Event(t, Halt)); var q := Unbind(s.pool, id);
      && PhaseOf(r, t) == Idle && r.orphans == s.orphans
      && r.pool == if |q.secondary| < q.opt.secondaryPool then q.(secondary := q.secondary + [a])
                   else Put(q, a, Stop(At(q, a)))
  {
  }

  /** The four phases of unreg_io; the last one has nothing to do when the client was pooled. */
  lemma UndisturbedUnreg(s: Sys, t: nat, id: IoId)
    requires !s.pool.stopFlag && PhaseOf(s, t) == Idle
    ensures var r := Step(Play(s, [Event(t, Seek(id)), Event(t, Release), Event(t, Erase)]), Event(t, Halt));
      && r.pool == Unreg(s.pool, id) && PhaseOf(r, t) == Idle && r.orphans == s.orphans
  {
    PlayThree(s, Event(t, Seek(id)), Event(t, Release), Event(t, Erase));
    if id in s.pool.clients {
      FirstPhases(s, t, id);
      LastPhases(Step(Step(s, Event(t, Seek(id))), Event(t, Release)), t, id, s.pool.clients[id]);
    }
  }

  lemma PlayThree(s: Sys, a: Event, b: Event, c: Event)
    ensures Play(s, [a, b, c]) == Step(Step(Step(s, a), b), c)
  {
    assert [] + [a] == [a] && [a] + [b] == [a, b] && [a, b] + [c] == [a, b, c];
    PlaySnoc(s, [], a);
    PlaySnoc(s, [a], b);
    PlaySnoc(s, [a, b], c);
  }

  // ----- What goes wrong without these conditions

  /** Two overlapping unreg_io of one id put its adapter into the pool twice. */
  lemma OverlappingUnregPoolsTwice(p: Pool, id: IoId)
    requires Inv(p) && !p.stopFlag && id in p.clients && |p.secondary| + 1 < p.opt.secondaryPool
    ensures var events := [Event(1, Seek(id)), Event(2, Seek(id)), Event(1, Release), Event(2, Release),
                           Event(1, Erase), Event(2, Erase)];
      !Exclusive(Play(Initial(p), events).pool)
  {
    var a := p.clients[id];
    assert Contained(p, a);
    var s2 := Step(Step(Initial(p), Event(1, Seek(id))), Event(2, Seek(id)));
    var s4 := Step(Step(s2, Event(1, Release)), Event(2, Release));
    var s6 := Step(Step(s4, Event(1, Erase)), Event(2, Erase));
    var n := |p.secondary|;
    assert s6.pool.secondary == p.secondary + [a] + [a];
    assert s6.pool.secondary[n] == s6.pool.secondary[n + 1];
    PlaySix(Initial(p), Event(1, Seek(id)), Event(2, Seek(id)), Event(1, Release), Event(2, Release),
            Event(1, Erase), Event(2, Erase));
  }

  lemma PlaySix(s: Sys, a: Event, b: Event, c: Event, d: Event, e: Event, f: Event)
    ensures Play(s, [a, b, c, d, e, f]) == Step(Step(Step(Step(Step(Step(s, a), b), c), d), e), f)
  {
    assert [a, b, c] + [d] == [a, b, c, d] && [a, b, c, d] + [e] == [a, b, c, d, e];
    assert [a, b, c, d, e] + [f] == [a, b, c, d, e, f];
    PlayThree(s, a, b, c);
    PlaySnoc(s, [a, b, c], d);
    PlaySnoc(s, [a, b, c, d], e);
    PlaySnoc(s, [a, b, c, d, e], f);
  }

  /** Two threads that miss the same id both take an adapter; the second one drops its own without stop(). */
  lemma RacingUpsertsDropOne(p: Pool, id: IoId, call: Call)
    requires Inv(p) && !p.stopFlag && id !in p.clients
    ensures var events := [Event(1, Look(id)), Event(2, Look(id)), Event(1, Insert), Event(2, Insert),
                           Event(1, Use(call)), Event(2, Use(call))];
      |Unstopped(Play(Initial(p), events).pool)| == 1
  {
    TwoInserts(p, id);
    SixEvents(p, Event(1, Look(id)), Event(2, Look(id)), Event(1, Insert), Event(2, Insert), call);
  }

  lemma WithoutUnregIsOrderly(s: Sys, events: seq<Event>)
    requires forall i :: 0 <= i < |events| ==> !events[i].action.Seek?
    ensures OrderlyRun(s, events)
  {
  }

  lemma BothReturn(s: Sys, call: Call)
    requires s.threads.Keys == {1, 2} && s.threads[1].Holding? && s.threads[2].Holding?
    ensures var r := Step(Step(s, Event(1, Use(call))), Event(2, Use(call)));
      Quiescent(r) && r.orphans == s.orphans
  {
  }

  lemma SixEvents(p: Pool, e1: Event, e2: Event, e3: Event, e4: Event, call: Call)
    requires Inv(p) && !e1.action.Seek? && !e2.action.Seek? && !e3.action.Seek? && !e4.action.Seek?
    requires var s4 := Step(Step(Step(Step(Initial(p), e1), e2), e3), e4);
      s4.threads.Keys == {1, 2} && s4.threads[1].Holding? && s4.threads[2].Holding? && |s4.orphans| == 1
    ensures |Unstopped(Play(Initial(p), [e1, e2, e3, e4, Event(1, Use(call)), Event(2, Use(call))]).pool)| == 1
  {
    var events := [e1, e2, e3, e4, Event(1, Use(call)), Event(2, Use(call))];
    var r := Play(Initial(p), events);
    PlaySix(Initial(p), e1, e2, e3, e4, Event(1, Use(call)), Event(2, Use(call)));
    BothReturn(Step(Step(Step(Step(Initial(p), e1), e2), e3), e4), call);
    assert Sound(r) by {
      WithoutUnregIsOrderly(Initial(p), events);
      OrderlySchedulesAreSound(p, events);
      StartIsSound(p);
      PlayIsSound(Initial(p), events);
    }
    QuiescentSpares(r);
  }

  lemma TwoInserts(p: Pool, id: IoId)
    requires Inv(p) && !p.stopFlag && id !in p.clients
    ensures var s2 := Step(Step(Initial(p), Event(1, Look(id))), Event(2, Look(id)));
      var s4 := Step(Step(s2, Event(1, Insert)), Event(2, Insert));
      && s4.threads.Keys == {1, 2} && s4.threads[1].Holding? && s4.threads[2].Holding?
      && |s4.orphans| == 1
  {
    TakeDetaches(p);
  }
}
