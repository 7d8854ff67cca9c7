/**
  When interleaved calls reach "Several sources are unacceptable". An adapter that is pooled while
  a call still holds it, or while it still has a source, is all that can lead there.
*/
module PoolSeats {
  import opened Prelude
  import opened AdapterSpec
  import opened PoolSpec
  import opened PoolInvariants
  import opened PoolThreads

  predicate HeldBy(s: Sys, t: nat, a: nat) {
    t in s.threads && s.threads[t].Holding? && s.threads[t].adapter == a
  }

  /** `id` may use the adapter: no other source has it, nor is about to. */
  ghost predicate SeatFor(s: Sys, id: IoId, a: nat) {
    && a < |s.pool.ledger| && !SeveralSources(s.pool.ledger[a], id) && !Pooled(s.pool, a)
    && (forall j :: j in s.pool.clients && s.pool.clients[j] == a ==> j == id)
    && (forall u :: HeldBy(s, u, a) ==> s.threads[u].id == id)
  }

  /** Nobody has a pooled adapter, every other one has one source at most, and it never came to
      several. */
  ghost predicate Seats(s: Sys) {
    && (forall a :: 0 <= a < |s.pool.ledger| ==>
          !s.pool.ledger[a].fatal && (Pooled(s.pool, a) ==> s.pool.ledger[a].holderId == 0))
    && (forall i :: i in s.pool.clients ==>
          s.pool.clients[i] < |s.pool.ledger| && !SeveralSources(s.pool.ledger[s.pool.clients[i]], i))
    && (forall t :: t in s.threads && s.threads[t].Holding? ==> SeatFor(s, s.threads[t].id, s.threads[t].adapter))
  }

  lemma StartHasSeats(p: Pool)
    requires Inv(p)
    ensures Seats(Initial(p))
  {
    forall a | 0 <= a < |p.ledger| ensures Seat(p, a, p.ledger[a]) {}
    forall i | i in p.clients ensures p.clients[i] < |p.ledger| && Seat(p, p.clients[i], p.ledger[p.clients[i]]) {
      assert Contained(p, p.clients[i]);
    }
  }

  /** unreg_io pools an adapter that a call still holds, or that has a source. */
  ghost predicate DirtyRecycle(s: Sys, e: Event) {
    && e.action.Erase? && PhaseOf(s, e.thread).Released? && |s.pool.secondary| < s.pool.opt.secondaryPool
    && var a := PhaseOf(s, e.thread).adapter; At(s.pool, a).holderId != 0 || exists u :: HeldBy(s, u, a)
  }

  // ----- Which phases keep the seats

  /** A thread that finds the adapter of a bound id may use it. */
  lemma BoundHasSeat(s: Sys, id: IoId)
    requires Linked(s.pool) && Exclusive(s.pool) && Seats(s) && id in s.pool.clients
    ensures SeatFor(s, id, s.pool.clients[id])
  {
    var a := s.pool.clients[id];
    assert Contained(s.pool, a);
    forall u | HeldBy(s, u, a) ensures s.threads[u].id == id {
      assert SeatFor(s, s.threads[u].id, a);
    }
  }

  lemma LookingKeepsSeats(s: Sys, e: Event)
    requires Linked(s.pool) && Exclusive(s.pool) && Seats(s)
    requires e.action.Look? || e.action.Relook? || e.action.Seek?
    ensures Seats(Step(s, e))
  {
    var r := Step(s, e);
    forall t | t in r.threads && r.threads[t].Holding? ensures SeatFor(s, r.threads[t].id, r.threads[t].adapter) {
      if !(t in s.threads && s.threads[t].Holding?) { BoundHasSeat(s, r.threads[t].id); }
    }
    SameSeats(s, r);
  }

  /** Seats that are good among the old threads are good among the new ones. */
  lemma SameSeats(s: Sys, r: Sys)
    requires Seats(s) && r.pool == s.pool
    requires forall t :: t in r.threads && r.threads[t].Holding? ==> SeatFor(s, r.threads[t].id, r.threads[t].adapter)
    requires forall t :: t in r.threads && r.threads[t].Holding? && !(t in s.threads && r.threads[t] == s.threads[t]) ==>
      r.threads[t].id in s.pool.clients && s.pool.clients[r.threads[t].id] == r.threads[t].adapter
    ensures Seats(r)
  {
    forall t | t in r.threads && r.threads[t].Holding? ensures SeatFor(r, r.threads[t].id, r.threads[t].adapter) {
      var a := r.threads[t].adapter;
      forall u | HeldBy(r, u, a) ensures r.threads[u].id == r.threads[t].id {
        assert SeatFor(s, r.threads[u].id, a) && SeatFor(s, r.threads[t].id, a);
        assert HeldBy(s, u, a) || HeldBy(s, t, a) || r.threads[u].id in s.pool.clients;
      }
    }
  }

  /** Adapter a, which nobody has, leaves the pools; new adapters may have been opened. */
  ghost predicate Drawn(p: Pool, q: Pool, a: nat) {
    && q.clients == p.clients && p.ledger <= q.ledger && a < |q.ledger| && q.ledger[a].holderId == 0
    && !Pooled(q, a) && (forall i :: i in p.clients ==> p.clients[i] != a)
    && (forall b :: |p.ledger| <= b < |q.ledger| ==> !q.ledger[b].fatal && q.ledger[b].holderId == 0)
    && (forall b: nat :: Pooled(q, b) ==> Pooled(p, b) || b >= |p.ledger|)
  }

  lemma TakeDraws(s: Sys)
    requires Linked(s.pool) && Exclusive(s.pool) && Seats(s)
    ensures Drawn(s.pool, Take(s.pool).pool, Take(s.pool).adapter)
    ensures forall u :: !HeldBy(s, u, Take(s.pool).adapter)
  {
    var a, q := Take(s.pool).adapter, Take(s.pool).pool;
    TakeDetaches(s.pool);
    assert forall b: nat :: Pooled(q, b) ==> Contained(q, b);
    forall i | i in s.pool.clients ensures s.pool.clients[i] != a {
      assert s.pool.clients[i] in s.pool.clients.Values;
    }
    forall u ensures !HeldBy(s, u, a) {
      assert HeldBy(s, u, a) ==> SeatFor(s, s.threads[u].id, a);
    }
  }

  lemma DrawnKeepsSeats(s: Sys, r: Sys, t: nat, id: IoId, q: Pool, a: nat)
    requires Seats(s) && Drawn(s.pool, q, a) && !(t in s.threads && s.threads[t].Holding?)
    requires forall u :: !HeldBy(s, u, a)
    requires r.threads == s.threads[t := Holding(id, a)]
    requires r.pool == q || (id !in q.clients && r.pool == q.(clients := q.clients[id := a]))
    ensures Seats(r)
  {
    forall u | u in r.threads && r.threads[u].Holding? ensures SeatFor(r, r.threads[u].id, r.threads[u].adapter) {
      if u == t {
        assert forall v :: HeldBy(r, v, a) ==> v == t || HeldBy(s, v, a);
      } else {
        assert SeatFor(s, s.threads[u].id, s.threads[u].adapter) && HeldBy(s, u, s.threads[u].adapter);
        assert forall v :: v != t ==> (HeldBy(r, v, s.threads[u].adapter) <==> HeldBy(s, v, s.threads[u].adapter));
      }
    }
  }

  lemma InsertKeepsSeats(s: Sys, e: Event)
    requires Linked(s.pool) && Exclusive(s.pool) && Seats(s)
    requires e.action.Insert? && PhaseOf(s, e.thread).Missed?
    ensures Seats(Step(s, e))
  {
    TakeDraws(s);
    DrawnKeepsSeats(s, Step(s, e), e.thread, PhaseOf(s, e.thread).id, Take(s.pool).pool, Take(s.pool).adapter);
  }

  /** One adapter changes its source to 0 or to an id that may use it. */
  lemma PuttingKeepsSeats(s: Sys, t: nat, a: nat, x: Adapter, ph: Phase)
    requires Seats(s) && a < |s.pool.ledger| && !x.fatal && !ph.Holding?
    requires x.holderId == 0 || x.holderId == s.pool.ledger[a].holderId || SeatFor(s, x.holderId, a)
    ensures Seats(Goto(s.(pool := Put(s.pool, a, x)), t, ph))
  {
    var r := Goto(s.(pool := Put(s.pool, a, x)), t, ph);
    forall u | u in r.threads && r.threads[u].Holding? ensures SeatFor(r, r.threads[u].id, r.threads[u].adapter) {
      assert SeatFor(s, s.threads[u].id, s.threads[u].adapter);
    }
  }

  lemma EraseKeepsSeats(s: Sys, e: Event)
    requires Seats(s) && e.action.Erase? && PhaseOf(s, e.thread).Released? && !DirtyRecycle(s, e)
    ensures Seats(Step(s, e))
  {
    var r := Step(s, e);
    var a := PhaseOf(s, e.thread).adapter;
    forall u | u in r.threads && r.threads[u].Holding? ensures SeatFor(r, r.threads[u].id, r.threads[u].adapter) {
      assert SeatFor(s, s.threads[u].id, s.threads[u].adapter) && HeldBy(s, u, s.threads[u].adapter);
    }
  }

  lemma DirtyRecycleBreaksSeats(s: Sys, e: Event)
    requires Seats(s) && DirtyRecycle(s, e) && PhaseOf(s, e.thread).adapter < |s.pool.ledger|
    ensures !Seats(Step(s, e))
  {
    var r := Step(s, e);
    var a := PhaseOf(s, e.thread).adapter;
    assert r.pool.secondary[|s.pool.secondary|] == a;
    assert Pooled(r.pool, a);
    if u :| HeldBy(s, u, a) {
      assert HeldBy(r, u, a);
    }
  }

  /** A phase keeps every seat exactly when it does not pool an adapter that is still in use. */
  lemma StepKeepsSeatsIff(s: Sys, e: Event)
    requires Sound(s) && Seats(s)
    ensures Seats(Step(s, e)) <==> !DirtyRecycle(s, e)
  {
    var t := e.thread;
    if t in s.threads { assert PhaseOk(s, s.threads[t]); }
    if DirtyRecycle(s, e) {
      DirtyRecycleBreaksSeats(s, e);
    } else {
      CleanStepKeepsSeats(s, e);
    }
  }

  /** This much needs only the containers to be exclusive. */
  lemma CleanStepKeepsSeats(s: Sys, e: Event)
    requires Linked(s.pool) && Exclusive(s.pool) && Seats(s) && !DirtyRecycle(s, e)
    requires Known(s, PhaseOf(s, e.thread))
    ensures Seats(Step(s, e))
  {
    var t := e.thread;
    match (e.action, PhaseOf(s, t))
    case (Look(_), _) => LookingKeepsSeats(s, e);
    case (Relook, _) => LookingKeepsSeats(s, e);
    case (Seek(_), _) => LookingKeepsSeats(s, e);
    case (Insert, Missed(_)) => InsertKeepsSeats(s, e);
    case (Use(call), Holding(id, a)) =>
      assert SeatFor(s, id, a);
      PuttingKeepsSeats(s, t, a, CallOn(s.pool.ledger[a], id, call), Idle);
    case (Release, Found(id, a)) => PuttingKeepsSeats(s, t, a, UnregIo(s.pool.ledger[a], id), Released(id, a));
    case (Erase, Released(_, _)) => EraseKeepsSeats(s, e);
    case (Halt, Dropping(a)) => PuttingKeepsSeats(s, t, a, Stop(s.pool.ledger[a]), Idle);
    case _ =>
  }

  // ----- Schedules

  ghost predicate CleanRun(s: Sys, events: seq<Event>) {
    forall i :: 0 <= i < |events| ==> !DirtyRecycle(Play(s, events[..i]), events[i])
  }

  lemma CleanPrefix(s: Sys, events: seq<Event>, n: nat)
    requires StaleFree(s, events) && CleanRun(s, events) && n <= |events|
    ensures StaleFree(s, events[..n]) && CleanRun(s, events[..n])
  {
    assert forall i :: 0 <= i < n ==> events[..n][..i] == events[..i];
  }

  lemma {:induction false} CleanPlay(s: Sys, events: seq<Event>)
    requires Sound(s) && Seats(s) && StaleFree(s, events) && CleanRun(s, events)
    ensures Sound(Play(s, events)) && Seats(Play(s, events))
    decreases |events|
  {
    if events != [] {
      var last := |events| - 1;
      CleanPrefix(s, events, last);
      CleanPlay(s, events[..last]);
      SoundStep(Play(s, events[..last]), events[last]);
      StepKeepsSeatsIff(Play(s, events[..last]), events[last]);
    }
  }

  lemma SoundAt(s: Sys, events: seq<Event>, i: nat)
    requires Sound(s) && StaleFree(s, events) && i <= |events|
    ensures Sound(Play(s, events[..i]))
  {
    assert forall j :: 0 <= j < i ==> events[..i][..j] == events[..j];
    PlayIsSound(s, events[..i]);
  }

  lemma NextMoment(s: Sys, events: seq<Event>, i: nat)
    requires i < |events|
    ensures Play(s, events[..i + 1]) == Step(Play(s, events[..i]), events[i])
  {
    assert events[..i + 1][..i] == events[..i];
  }

  lemma DirtyMoment(s: Sys, events: seq<Event>, i: nat)
    requires Sound(s) && StaleFree(s, events) && i < |events| && DirtyRecycle(Play(s, events[..i]), events[i])
    ensures !(Seats(Play(s, events[..i])) && Seats(Play(s, events[..i + 1])))
  {
    SoundAt(s, events, i);
    NextMoment(s, events, i);
    if Seats(Play(s, events[..i])) {
      StepKeepsSeatsIff(Play(s, events[..i]), events[i]);
    }
  }

  /** A schedule without stale erases keeps every seat at every moment iff it pools no adapter that
      is still in use. */
  lemma SeatsIffClean(p: Pool, events: seq<Event>)
    requires Inv(p) && StaleFree(Initial(p), events)
    ensures (forall n: nat :: n <= |events| ==> Seats(Play(Initial(p), events[..n]))) <==> CleanRun(Initial(p), events)
  {
    var s := Initial(p);
    StartIsSound(p);
    StartHasSeats(p);
    if CleanRun(s, events) {
      forall n: nat | n <= |events| ensures Seats(Play(s, events[..n])) {
        CleanPrefix(s, events, n);
        CleanPlay(s, events[..n]);
      }
    } else {
      var i :| 0 <= i < |events| && DirtyRecycle(Play(s, events[..i]), events[i]);
      DirtyMoment(s, events, i);
    }
  }
}
