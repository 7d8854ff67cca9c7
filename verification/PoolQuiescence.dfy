/** When interleaved calls leave a pool as whole calls do. */
module PoolQuiescence {
  import opened Prelude
  import opened AdapterSpec
  import opened PoolSpec
  import opened PoolInvariants
  import opened PoolThreads
  import opened PoolSeats
  import opened PoolOverlap
  import opened PoolInterleaving

  // ----- Sizes of the pools

  lemma StepKeepsSizes(s: Sys, e: Event)
    requires Sized(s.pool)
    ensures Sized(Step(s, e).pool)
  {
  }

  lemma {:induction false} PlayKeepsSizes(s: Sys, events: seq<Event>)
    requires Sized(s.pool)
    ensures Sized(Play(s, events).pool)
    decreases |events|
  {
    if events != [] {
      PlayKeepsSizes(s, events[..|events| - 1]);
      StepKeepsSizes(Play(s, events[..|events| - 1]), events[|events| - 1]);
    }
  }

  // ----- Quiescent states

  lemma SeatsAreSeated(s: Sys)
    requires Seats(s)
    ensures Seated(s.pool)
  {
  }

  /** Nothing is on its way: the pool invariant of whole calls holds iff no adapter was lost. */
  lemma QuiescentIsWholeIff(s: Sys)
    requires Sound(s) && Seats(s) && Sized(s.pool) && Quiescent(s)
    ensures Inv(s.pool) <==> s.orphans == {}
  {
    QuiescentSpares(s);
    SeatsAreSeated(s);
    if a :| a in s.orphans {
      assert Spare(s, a) && a < |s.pool.ledger| && !Contained(s.pool, a);
      assert Running(s.pool, s.pool.ledger[a]) && !Retired(s.pool.ledger[a]);
    }
  }

  /** After any schedule that neither erases a stale binding nor pools an adapter in use, and once
      all calls have returned, the pool is as whole calls leave it iff no insertion was lost. */
  lemma InterleavingIsWholeIff(p: Pool, events: seq<Event>)
    requires Inv(p) && StaleFree(Initial(p), events) && CleanRun(Initial(p), events)
    requires Quiescent(Play(Initial(p), events))
    ensures Inv(Play(Initial(p), events).pool) <==> Losses(Initial(p), events) == 0
  {
    StartIsSound(p);
    StartHasSeats(p);
    CleanPlay(Initial(p), events);
    PlayKeepsSizes(Initial(p), events);
    OrphansAreLosses(Initial(p), events);
    QuiescentIsWholeIff(Play(Initial(p), events));
  }

  // ----- No two calls of one id overlap

  predicate Busy(ph: Phase, id: IoId) {
    (ph.Missed? || ph.Holding? || ph.Found? || ph.Released?) && ph.id == id
  }

  /** A call of an id starts when no other call of that id is under way. */
  ghost predicate Separate(s: Sys, e: Event) {
    e.action.Look? || e.action.Seek? ==> forall u :: u in s.threads ==> !Busy(s.threads[u], e.action.id)
  }

  ghost predicate SeparateRun(s: Sys, events: seq<Event>) {
    forall i :: 0 <= i < |events| ==> Separate(Play(s, events[..i]), events[i])
  }

  /** One thread at most is busy with an id, and what it has missed stays missing. */
  ghost predicate Solo(s: Sys) {
    && (forall t, u, id :: BusyWith(s, t, id) && BusyWith(s, u, id) ==> t == u)
    && (forall t :: t in s.threads && s.threads[t].Missed? ==> s.threads[t].id !in s.pool.clients)
  }

  predicate BusyWith(s: Sys, t: nat, id: IoId) {
    t in s.threads && Busy(s.threads[t], id)
  }

  lemma SeparateKeepsSolo(s: Sys, e: Event)
    requires Linked(s.pool) && Exclusive(s.pool) && Solo(s) && Separate(s, e)
    ensures Solo(Step(s, e))
  {
    var r := Step(s, e);
    if e.action.Insert? { TakeDetaches(s.pool); }
    forall t, id | BusyWith(r, t, id)
      ensures BusyWith(s, t, id) || (t == e.thread && (e.action.Look? || e.action.Seek?) && e.action.id == id)
    {
    }
    forall t | t in r.threads && r.threads[t].Missed? ensures r.threads[t].id !in r.pool.clients {
      assert BusyWith(r, t, r.threads[t].id);
      if e.thread in s.threads && s.threads[e.thread].Missed? {
        assert BusyWith(s, e.thread, s.threads[e.thread].id);
      }
    }
  }

  lemma SeparateIsNoOverlap(s: Sys, e: Event)
    requires Solo(s) && Separate(s, e)
    ensures NoOverlap(s, e) && !Loses(s, e)
  {
    if e.action.Relook? && PhaseOf(s, e.thread).Missed? {
      var id := PhaseOf(s, e.thread).id;
      assert BusyWith(s, e.thread, id);
      forall u | u in s.threads ensures !Unregistering(s.threads[u], id) {
        assert Unregistering(s.threads[u], id) ==> BusyWith(s, u, id);
      }
    }
  }

  lemma SeparatePrefix(s: Sys, events: seq<Event>, n: nat)
    requires SeparateRun(s, events) && n <= |events|
    ensures SeparateRun(s, events[..n])
  {
    forall i | 0 <= i < n ensures Separate(Play(s, events[..n][..i]), events[..n][i]) {
      assert events[..n][..i] == events[..i];
    }
  }

  lemma {:induction false} SeparatePlay(s: Sys, events: seq<Event>)
    requires Disciplined(s) && Solo(s) && SeparateRun(s, events)
    ensures Disciplined(Play(s, events)) && Solo(Play(s, events)) && Losses(s, events) == 0
    decreases |events|
  {
    if events != [] {
      var last := |events| - 1;
      SeparatePrefix(s, events, last);
      SeparatePlay(s, events[..last]);
      SeparateIsNoOverlap(Play(s, events[..last]), events[last]);
      NoOverlapKeepsDiscipline(Play(s, events[..last]), events[last]);
      SeparateKeepsSolo(Play(s, events[..last]), events[last]);
    }
  }

  /** If no two calls of one id overlap, every interleaving of whole calls leaves the pool as whole
      calls do, and drops nothing. */
  lemma SeparateCallsAreWhole(p: Pool, events: seq<Event>)
    requires Inv(p) && SeparateRun(Initial(p), events) && Quiescent(Play(Initial(p), events))
    ensures Inv(Play(Initial(p), events).pool) && Unstopped(Play(Initial(p), events).pool) == {}
  {
    StartIsSound(p);
    StartHasSeats(p);
    SeparatePlay(Initial(p), events);
    forall i | 0 <= i < |events| ensures !StaleErase(Play(Initial(p), events[..i]), events[i]) {
      SeparatePrefix(Initial(p), events, i);
      SeparatePlay(Initial(p), events[..i]);
      SeparateIsNoOverlap(Play(Initial(p), events[..i]), events[i]);
      OrderlyKeepsPursuit(Play(Initial(p), events[..i]), events[i]);
    }
    OrphansAreLosses(Initial(p), events);
    PlayKeepsSizes(Initial(p), events);
    QuiescentIsWholeIff(Play(Initial(p), events));
    QuiescentSpares(Play(Initial(p), events));
  }
}
