/**
  Which calls of one id may overlap. If no unreg_io overlaps another call of its id, no adapter
  ever has two sources; if no two calls overlap, nothing is lost either and the calls leave a pool
  as whole calls do. If unreg_io may overlap, the fatal branch can be reached from every pool that
  recycles clients, and from no other.
*/
module PoolOverlap {
  import opened Prelude
  import opened AdapterSpec
  import opened PoolSpec
  import opened PoolInvariants
  import opened PoolThreads
  import opened PoolSeats
  import opened PoolInterleaving

  /** The "several sources" branch was taken. */
  ghost predicate SeveralSourcesTaken(p: Pool) {
    exists a :: 0 <= a < |p.ledger| && p.ledger[a].fatal
  }

  // ----- No unreg_io overlaps another call of its id

  predicate Occupies(ph: Phase, id: IoId) {
    ph.Holding? && ph.id == id
  }

  /** unreg_io of an id starts when no other call of it is at its adapter or unregistering it, and
      no call of an id looks it up while it is being unregistered. */
  ghost predicate NoOverlap(s: Sys, e: Event) {
    match e.action
    case Seek(id) => forall u :: u in s.threads ==> !Unregistering(s.threads[u], id) && !Occupies(s.threads[u], id)
    case Look(id) => forall u :: u in s.threads ==> !Unregistering(s.threads[u], id)
    case Relook => PhaseOf(s, e.thread).Missed? ==>
      forall u :: u in s.threads ==> !Unregistering(s.threads[u], PhaseOf(s, e.thread).id)
    case _ => true
  }

  ghost predicate NoOverlapRun(s: Sys, events: seq<Event>) {
    forall i :: 0 <= i < |events| ==> NoOverlap(Play(s, events[..i]), events[i])
  }

  /** An unreg_io is alone with its adapter, and has freed it once it is past the release. */
  ghost predicate Lone(s: Sys) {
    forall t :: t in s.threads && (s.threads[t].Found? || s.threads[t].Released?) ==> LoneWith(s, s.threads[t])
  }

  ghost predicate LoneWith(s: Sys, ph: Phase)
    requires ph.Found? || ph.Released?
  {
    && (forall u :: !HeldBy(s, u, ph.adapter))
    && (ph.Released? ==> At(s.pool, ph.adapter).holderId == 0)
  }

  ghost predicate Disciplined(s: Sys) {
    Sound(s) && Pursued(s) && Seats(s) && Lone(s)
  }

  lemma LoneIsClean(s: Sys, e: Event)
    requires Lone(s)
    ensures !DirtyRecycle(s, e)
  {
    if e.thread in s.threads && s.threads[e.thread].Released? {
      assert LoneWith(s, s.threads[e.thread]);
    }
  }

  lemma SeekKeepsLone(s: Sys, e: Event)
    requires Disciplined(s) && NoOverlap(s, e) && e.action.Seek?
    ensures Lone(Step(s, e))
  {
    var r, id := Step(s, e), e.action.id;
    forall t | t in r.threads && (r.threads[t].Found? || r.threads[t].Released?) ensures LoneWith(r, r.threads[t]) {
      if t in s.threads && r.threads[t] == s.threads[t] {
        assert LoneWith(s, s.threads[t]);
      } else {
        BoundHasSeat(s, id);
      }
      forall u ensures !HeldBy(r, u, r.threads[t].adapter) {
        assert HeldBy(r, u, r.threads[t].adapter) ==> HeldBy(s, u, r.threads[t].adapter);
      }
    }
  }

  /** A call that looks up an id finds no adapter that is being unregistered. */
  lemma LookKeepsLone(s: Sys, e: Event)
    requires Disciplined(s) && NoOverlap(s, e) && (e.action.Look? || e.action.Relook?)
    ensures Lone(Step(s, e))
  {
    var r := Step(s, e);
    forall t | t in r.threads && (r.threads[t].Found? || r.threads[t].Released?) ensures LoneWith(r, r.threads[t]) {
      assert LoneWith(s, s.threads[t]) && PursuedBy(s, t, s.threads[t]);
      var a := s.threads[t].adapter;
      forall u ensures !HeldBy(r, u, a) {
        assert !HeldBy(s, u, a);
        assert u != e.thread ==> (HeldBy(r, u, a) <==> HeldBy(s, u, a));
      }
    }
  }

  lemma InsertKeepsLone(s: Sys, e: Event)
    requires Disciplined(s) && e.action.Insert? && PhaseOf(s, e.thread).Missed?
    ensures Lone(Step(s, e))
  {
    var r := Step(s, e);
    TakeDetaches(s.pool);
    forall t | t in r.threads && (r.threads[t].Found? || r.threads[t].Released?) ensures LoneWith(r, r.threads[t]) {
      assert LoneWith(s, s.threads[t]) && PursuedBy(s, t, s.threads[t]);
      var a := s.threads[t].adapter;
      assert a in s.pool.clients.Values && a < |s.pool.ledger| by { assert Contained(s.pool, a); }
      forall u ensures !HeldBy(r, u, a) {
        assert !HeldBy(s, u, a);
      }
    }
  }

  lemma UseKeepsLone(s: Sys, e: Event)
    requires Disciplined(s) && (e.action.Use? || e.action.Halt?)
    ensures Lone(Step(s, e))
  {
    var r := Step(s, e);
    forall t | t in r.threads && (r.threads[t].Found? || r.threads[t].Released?) ensures LoneWith(r, r.threads[t]) {
      assert LoneWith(s, s.threads[t]);
      var a := s.threads[t].adapter;
      assert e.thread in s.threads ==> !HeldBy(s, e.thread, a);
      forall u ensures !HeldBy(r, u, a) { assert !HeldBy(s, u, a); }
    }
  }

  lemma ReleaseKeepsLone(s: Sys, e: Event)
    requires Disciplined(s) && e.action.Release? && PhaseOf(s, e.thread).Found?
    ensures Lone(Step(s, e))
  {
    var r := Step(s, e);
    var ph := s.threads[e.thread];
    assert LoneWith(s, ph) && PursuedBy(s, e.thread, ph) && PhaseOk(s, ph);
    forall t | t in r.threads && (r.threads[t].Found? || r.threads[t].Released?) ensures LoneWith(r, r.threads[t]) {
      assert LoneWith(s, s.threads[t]);
      forall u ensures !HeldBy(r, u, r.threads[t].adapter) { assert !HeldBy(s, u, s.threads[t].adapter); }
    }
  }

  lemma EraseKeepsLone(s: Sys, e: Event)
    requires Disciplined(s) && e.action.Erase?
    ensures Lone(Step(s, e))
  {
    var r := Step(s, e);
    forall t | t in r.threads && (r.threads[t].Found? || r.threads[t].Released?) ensures LoneWith(r, r.threads[t]) {
      assert LoneWith(s, s.threads[t]);
      forall u ensures !HeldBy(r, u, r.threads[t].adapter) { assert !HeldBy(s, u, s.threads[t].adapter); }
    }
  }

  lemma NoOverlapKeepsDiscipline(s: Sys, e: Event)
    requires Disciplined(s) && NoOverlap(s, e)
    ensures Disciplined(Step(s, e))
  {
    LoneIsClean(s, e);
    StepKeepsSeatsIff(s, e);
    assert Orderly(s, e);
    OrderlyKeepsPursuit(s, e);
    SoundStep(s, e);
    NoOverlapKeepsLone(s, e);
  }

  lemma NoOverlapKeepsLone(s: Sys, e: Event)
    requires Disciplined(s) && NoOverlap(s, e)
    ensures Lone(Step(s, e))
  {
    match (e.action, PhaseOf(s, e.thread))
    case (Look(_), _) => LookKeepsLone(s, e);
    case (Relook, _) => LookKeepsLone(s, e);
    case (Seek(_), _) => SeekKeepsLone(s, e);
    case (Insert, Missed(_)) => InsertKeepsLone(s, e);
    case (Use(_), _) => UseKeepsLone(s, e);
    case (Halt, _) => UseKeepsLone(s, e);
    case (Release, Found(_, _)) => ReleaseKeepsLone(s, e);
    case (Erase, _) => EraseKeepsLone(s, e);
    case _ =>
  }

  lemma {:induction false} NoOverlapPlay(s: Sys, events: seq<Event>)
    requires Disciplined(s) && NoOverlapRun(s, events)
    ensures Disciplined(Play(s, events))
    decreases |events|
  {
    if events != [] {
      var last := |events| - 1;
      NoOverlapPrefix(s, events, last);
      NoOverlapPlay(s, events[..last]);
      NoOverlapKeepsDiscipline(Play(s, events[..last]), events[last]);
    }
  }

  lemma NoOverlapPrefix(s: Sys, events: seq<Event>, n: nat)
    requires NoOverlapRun(s, events) && n <= |events|
    ensures NoOverlapRun(s, events[..n])
  {
    forall i | 0 <= i < n ensures NoOverlap(Play(s, events[..n][..i]), events[..n][i]) {
      assert events[..n][..i] == events[..i];
    }
  }

  /** If no unreg_io overlaps another call of its id, no interleaving takes the fatal branch. */
  lemma NoSeveralSourcesWithoutOverlap(p: Pool, events: seq<Event>)
    requires Inv(p) && NoOverlapRun(Initial(p), events)
    ensures !SeveralSourcesTaken(Play(Initial(p), events).pool)
    ensures Seats(Play(Initial(p), events)) && StaleFree(Initial(p), events) && CleanRun(Initial(p), events)
  {
    var s := Initial(p);
    StartIsSound(p);
    StartHasSeats(p);
    NoOverlapPlay(s, events);
    forall i | 0 <= i < |events|
      ensures !StaleErase(Play(s, events[..i]), events[i]) && !DirtyRecycle(Play(s, events[..i]), events[i])
    {
      NoOverlapPrefix(s, events, i);
      NoOverlapPlay(s, events[..i]);
      LoneIsClean(Play(s, events[..i]), events[i]);
      assert Orderly(Play(s, events[..i]), events[i]);
      OrderlyKeepsPursuit(Play(s, events[..i]), events[i]);
    }
  }
}
