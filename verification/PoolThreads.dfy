/**
  reg_io, perform_io and unreg_io of many threads, cut at their locks. `upsert_` looks an id up
  under the read lock and inserts later under the write lock without looking again; `unreg_io`
  looks up, releases the adapter, erases, and stops the client in four separate phases.
*/
module PoolThreads {
  import opened Prelude
  import opened AdapterSpec
  import opened PoolSpec
  import opened PoolInvariants

  datatype Phase =
    | Idle
    | Missed(id: IoId)                     // upsert_ found nothing under the read lock
    | Holding(id: IoId, adapter: nat)      // about to call the adapter
    | Found(id: IoId, adapter: nat)        // unreg_io found the adapter ...
    | Released(id: IoId, adapter: nat)     // ... and released it
    | Dropping(adapter: nat)               // erased, no room in the pool, not yet stopped

  /** `orphans`: adapters whose insertion lost against another thread. */
  datatype Sys = Sys(pool: Pool, threads: map<nat, Phase>, orphans: set<nat>)

  datatype Call = CallReg(itf: Option<ObjId>)
                | CallSend(handler: Option<HandlerId>, alive: set<ObjId>, result: SendResult)

  datatype Action = Look(id: IoId) | Relook | Insert | Use(call: Call)
                  | Seek(id: IoId) | Release | Erase | Halt

  datatype Event = Event(thread: nat, action: Action)

  function PhaseOf(s: Sys, t: nat): Phase {
    if t in s.threads then s.threads[t] else Idle
  }

  function Goto(s: Sys, t: nat, ph: Phase): Sys {
    s.(threads := s.threads[t := ph])
  }

  function LookUp(s: Sys, t: nat, id: IoId): Sys {
    Goto(s, t, if id in s.pool.clients then Holding(id, s.pool.clients[id]) else Missed(id))
  }

  function CallOn(x: Adapter, id: IoId, call: Call): Adapter {
    match call
    case CallReg(itf) => RegIo(x, id, itf)
    case CallSend(h, alive, r) => PerformIo(x, id, h, alive, r)
  }

  /** One phase of one thread; a thread that is not in the right phase does nothing. */
  function Step(s: Sys, e: Event): Sys {
    var t := e.thread;
    match (e.action, PhaseOf(s, t))
    case (Look(id), Idle) => if s.pool.stopFlag then s else LookUp(s, t, id)
    case (Relook, Missed(id)) => LookUp(s, t, id)
    case (Insert, Missed(id)) =>
      var taken := Take(s.pool);
      var q := taken.pool;
      if id in q.clients
      then Goto(s.(pool := q, orphans := s.orphans + {taken.adapter}), t, Holding(id, taken.adapter))
      else Goto(s.(pool := q.(clients := q.clients[id := taken.adapter])), t, Holding(id, taken.adapter))
    case (Use(call), Holding(id, a)) =>
      Goto(s.(pool := Put(s.pool, a, CallOn(At(s.pool, a), id, call))), t, Idle)
    case (Seek(id), Idle) =>
      if !s.pool.stopFlag && id in s.pool.clients then Goto(s, t, Found(id, s.pool.clients[id])) else s
    case (Release, Found(id, a)) =>
      Goto(s.(pool := Put(s.pool, a, UnregIo(At(s.pool, a), id))), t, Released(id, a))
    case (Erase, Released(id, a)) =>
      var q := Unbind(s.pool, id);
      if |q.secondary| < q.opt.secondaryPool
      then Goto(s.(pool := q.(secondary := q.secondary + [a])), t, Idle)
      else Goto(s.(pool := q), t, Dropping(a))
    case (Halt, Dropping(a)) =>
      Goto(s.(pool := Put(s.pool, a, Stop(At(s.pool, a)))), t, Idle)
    case _ => s
  }

  function Play(s: Sys, events: seq<Event>): Sys {
    if events == [] then s else Step(Play(s, events[..|events| - 1]), events[|events| - 1])
  }

  function Initial(p: Pool): Sys {
    Sys(p, map[], {})
  }

  lemma PlaySnoc(s: Sys, events: seq<Event>, e: Event)
    ensures Play(s, events + [e]) == Step(Play(s, events), e)
  {
    assert (events + [e])[..|events|] == events;
  }

  // ----- The account

  ghost predicate DroppedBy(s: Sys, t: nat, a: nat) {
    t in s.threads && s.threads[t] == Dropping(a)
  }

  /** Running adapters outside all containers: lost by an insertion, or waiting to be stopped. */
  ghost predicate Spare(s: Sys, a: nat) {
    a in s.orphans || exists t :: DroppedBy(s, t, a)
  }

  ghost predicate AllAccounted(s: Sys) {
    forall a :: 0 <= a < |s.pool.ledger| ==>
      if Contained(s.pool, a) then !Spare(s, a) && Running(s.pool, s.pool.ledger[a])
      else if Spare(s, a) then Running(s.pool, s.pool.ledger[a])
      else Retired(s.pool.ledger[a])
  }

  ghost predicate ThreadsOk(s: Sys) {
    && (forall a :: a in s.orphans ==> a < |s.pool.ledger|)
    && (forall t :: t in s.threads ==> PhaseOk(s, s.threads[t]))
    && (forall t, u, a :: DroppedBy(s, t, a) && DroppedBy(s, u, a) ==> t == u)
  }

  predicate Known(s: Sys, ph: Phase) {
    !ph.Idle? && !ph.Missed? ==> ph.adapter < |s.pool.ledger|
  }

  predicate PhaseOk(s: Sys, ph: Phase) {
    Known(s, ph) && (ph.Dropping? ==> ph.adapter !in s.orphans)
  }

  /** The containers are exclusive, and every adapter is contained and running, or outside all
      containers and either running for a known reason or stopped once. */
  ghost predicate Sound(s: Sys) {
    Linked(s.pool) && Exclusive(s.pool) && ThreadsOk(s) && AllAccounted(s)
  }

  lemma StartIsSound(p: Pool)
    requires Inv(p)
    ensures Sound(Initial(p)) && Pursued(Initial(p))
  {
  }

  // ----- Every phase but one keeps it

  /** Phases that only look an id up. */
  lemma LookingKeeps(s: Sys, e: Event)
    requires Sound(s) && (e.action.Look? || e.action.Relook? || e.action.Seek?)
    ensures Sound(Step(s, e))
  {
    var r := Step(s, e);
    assert forall id :: id in s.pool.clients ==> Contained(s.pool, s.pool.clients[id]);
    assert forall t, a :: DroppedBy(r, t, a) <==> DroppedBy(s, t, a);
    forall a ensures Spare(r, a) <==> Spare(s, a) {}
    forall u | u in r.threads ensures PhaseOk(r, r.threads[u]) {
      if u in s.threads { assert PhaseOk(s, s.threads[u]); }
    }
  }

  /** Changing one adapter without starting or stopping it. */
  lemma PuttingKeeps(s: Sys, t: nat, a: nat, x: Adapter, ph: Phase)
    requires Sound(s) && a < |s.pool.ledger| && x == s.pool.ledger[a].(
      holderId := x.holderId, holder := x.holder, performHolder := x.performHolder,
      errorFlag := x.errorFlag, lent := x.lent, fatal := x.fatal, errorsLogged := x.errorsLogged)
    requires !PhaseOf(s, t).Dropping? && !ph.Dropping? && t in s.threads && PhaseOk(s, ph)
    ensures Sound(Goto(s.(pool := Put(s.pool, a, x)), t, ph))
  {
    var r := Goto(s.(pool := Put(s.pool, a, x)), t, ph);
    assert forall b: nat :: Contained(r.pool, b) <==> Contained(s.pool, b);
    assert forall u, b :: DroppedBy(r, u, b) <==> DroppedBy(s, u, b);
    forall b ensures Spare(r, b) <==> Spare(s, b) {}
    forall u | u in r.threads ensures PhaseOk(r, r.threads[u]) {
      assert PhaseOk(s, s.threads[u]);
    }
  }

  lemma TakenIsNotSpare(s: Sys)
    requires Sound(s)
    ensures !Spare(s, Take(s.pool).adapter)
    ensures forall a: nat :: Spare(s, a) ==> a < |s.pool.ledger|
  {
    TakeDetaches(s.pool);
    var a := Take(s.pool).adapter;
    forall b: nat | Spare(s, b) ensures b < |s.pool.ledger| {
      if b !in s.orphans {
        var t :| DroppedBy(s, t, b);
        assert PhaseOk(s, s.threads[t]);
      }
    }
    if a < |s.pool.ledger| { assert Contained(s.pool, a); }
  }

  lemma InsertPhases(s: Sys, e: Event)
    requires Sound(s) && e.action.Insert? && PhaseOf(s, e.thread).Missed?
    ensures var r := Step(s, e); var id := PhaseOf(s, e.thread).id;
      && ThreadsOk(r)
      && (forall a :: Spare(r, a) <==> Spare(s, a) || (id in s.pool.clients && a == Take(s.pool).adapter))
  {
    var r := Step(s, e);
    var a := Take(s.pool).adapter;
    TakeDetaches(s.pool);
    TakenIsNotSpare(s);
    assert forall t, b :: DroppedBy(r, t, b) <==> DroppedBy(s, t, b);
    forall b ensures Spare(r, b) <==> Spare(s, b) || b in r.orphans {}
    forall u | u in r.threads ensures PhaseOk(r, r.threads[u]) {
      if u in s.threads {
        assert PhaseOk(s, s.threads[u]);
        if s.threads[u].Dropping? { assert DroppedBy(s, u, s.threads[u].adapter); }
      }
    }
  }

  lemma WonInsertKeeps(s: Sys, e: Event)
    requires Sound(s) && e.action.Insert? && PhaseOf(s, e.thread).Missed?
    requires PhaseOf(s, e.thread).id !in s.pool.clients
    ensures Sound(Step(s, e))
  {
    var taken := Take(s.pool);
    TakeDetaches(s.pool);
    InsertPhases(s, e);
    TakenIsNotSpare(s);
    BindAttaches(taken.pool, PhaseOf(s, e.thread).id, taken.adapter);
    var r := Step(s, e);
    assert forall b: nat :: Contained(r.pool, b) <==> Contained(s.pool, b) || |s.pool.ledger| <= b < |r.pool.ledger|;
    NewcomersAreAccounted(s, r);
  }

  lemma NewcomersAreAccounted(s: Sys, r: Sys)
    requires AllAccounted(s) && s.pool.ledger <= r.pool.ledger
    requires r.pool.opt == s.pool.opt && r.pool.generation == s.pool.generation
    requires forall b: nat :: Contained(r.pool, b) <==> Contained(s.pool, b) || |s.pool.ledger| <= b < |r.pool.ledger|
    requires forall b :: |s.pool.ledger| <= b < |r.pool.ledger| ==> r.pool.ledger[b] == Opened(s.pool)
    requires forall b: nat :: Spare(r, b) <==> Spare(s, b)
    requires forall b: nat :: Spare(s, b) ==> b < |s.pool.ledger|
    ensures AllAccounted(r)
  {
  }

  lemma LostInsertKeeps(s: Sys, e: Event)
    requires Sound(s) && e.action.Insert? && PhaseOf(s, e.thread).Missed?
    requires PhaseOf(s, e.thread).id in s.pool.clients
    ensures Sound(Step(s, e))
  {
    TakeDetaches(s.pool);
    InsertPhases(s, e);
    TakenIsNotSpare(s);
  }

  lemma HaltKeeps(s: Sys, e: Event)
    requires Sound(s) && e.action.Halt? && PhaseOf(s, e.thread).Dropping?
    ensures Sound(Step(s, e))
  {
    var t := e.thread;
    var Dropping(a) := s.threads[t];
    assert PhaseOk(s, s.threads[t]) && DroppedBy(s, t, a) && Spare(s, a);
    var r := Step(s, e);
    assert forall b: nat :: Contained(r.pool, b) <==> Contained(s.pool, b);
    assert forall u, b :: DroppedBy(r, u, b) <==> DroppedBy(s, u, b) && u != t;
    forall b ensures Spare(r, b) <==> Spare(s, b) && b != a {
      if u :| DroppedBy(s, u, b) && b != a { assert DroppedBy(r, u, b); }
    }
    forall u | u in r.threads ensures PhaseOk(r, r.threads[u]) {
      assert PhaseOk(s, s.threads[u]);
    }
  }

  // ----- The erase of unreg_io

  /** The id is not bound any more to the adapter that this unreg_io found and released. */
  predicate StaleErase(s: Sys, e: Event) {
    e.action.Erase? && PhaseOf(s, e.thread).Released? &&
    var ph := PhaseOf(s, e.thread); !(ph.id in s.pool.clients && s.pool.clients[ph.id] == ph.adapter)
  }

  lemma EraseKeeps(s: Sys, e: Event)
    requires Sound(s) && e.action.Erase? && PhaseOf(s, e.thread).Released? && !StaleErase(s, e)
    ensures Sound(Step(s, e))
  {
    var t := e.thread;
    var Released(id, a) := s.threads[t];
    assert Contained(s.pool, a);
    var r := Step(s, e);
    var q := Unbind(s.pool, id);
    UnbindDetaches(s.pool, id);
    if |q.secondary| < q.opt.secondaryPool {
      RecycleAttaches(q, a);
      assert forall u, b :: DroppedBy(r, u, b) <==> DroppedBy(s, u, b);
    } else {
      assert forall u, b :: DroppedBy(r, u, b) <==> DroppedBy(s, u, b) || (u == t && b == a);
      assert DroppedBy(r, t, a);
      assert forall u :: DroppedBy(s, u, a) ==> Spare(s, a);
    }
    forall b ensures Spare(r, b) <==> Spare(s, b) || (r.threads[t].Dropping? && b == a) {
      if u :| DroppedBy(s, u, b) { assert DroppedBy(r, u, b); }
    }
    forall u | u in r.threads ensures PhaseOk(r, r.threads[u]) {
      assert PhaseOk(s, s.threads[u]);
    }
  }

  /** It erases the binding of another adapter, which nobody stops. */
  lemma StaleEraseLoses(s: Sys, e: Event)
    requires Sound(s) && StaleErase(s, e) && PhaseOf(s, e.thread).id in s.pool.clients
    ensures !Sound(Step(s, e))
  {
    var ph := PhaseOf(s, e.thread);
    var b := s.pool.clients[ph.id];
    assert Contained(s.pool, b) && !Spare(s, b);
    var r := Step(s, e);
    assert !Contained(r.pool, b);
    assert forall u :: DroppedBy(r, u, b) ==> DroppedBy(s, u, b);
    assert !Spare(r, b) && Running(s.pool, r.pool.ledger[b]);
  }

  /** It pools an adapter that is pooled, bound, lost or stopped already. */
  lemma StaleErasePools(s: Sys, e: Event)
    requires Sound(s) && StaleErase(s, e) && PhaseOf(s, e.thread).id !in s.pool.clients
    requires |s.pool.secondary| < s.pool.opt.secondaryPool
    ensures !Sound(Step(s, e))
  {
    var a := PhaseOf(s, e.thread).adapter;
    assert PhaseOk(s, s.threads[e.thread]);
    var r := Step(s, e);
    var n := |s.pool.secondary|;
    assert r.pool.secondary[n] == a && Contained(r.pool, a);
    if Contained(s.pool, a) {
      assert r.pool.clients == s.pool.clients;
      if a in s.pool.secondary {
        var i :| 0 <= i < n && s.pool.secondary[i] == a;
        assert r.pool.secondary[i] == a;
      }
      assert a in r.pool.secondary;
    } else {
      assert forall u :: DroppedBy(s, u, a) ==> DroppedBy(r, u, a);
      assert Spare(s, a) ==> Spare(r, a);
    }
  }

  /** It is about to stop an adapter that is in use, lost, or stopped already. */
  lemma StaleEraseDrops(s: Sys, e: Event)
    requires Sound(s) && StaleErase(s, e) && PhaseOf(s, e.thread).id !in s.pool.clients
    requires |s.pool.secondary| >= s.pool.opt.secondaryPool
    ensures !Sound(Step(s, e))
  {
    var t, a := e.thread, PhaseOf(s, e.thread).adapter;
    assert PhaseOk(s, s.threads[t]);
    var r := Step(s, e);
    assert r.pool.clients == s.pool.clients;
    assert DroppedBy(r, t, a) && Spare(r, a);
    assert Contained(r.pool, a) <==> Contained(s.pool, a);
    if u :| DroppedBy(s, u, a) {
      assert DroppedBy(r, u, a) && u != t;
    }
    assert a in s.orphans ==> !PhaseOk(r, r.threads[t]);
  }

  /** The account is kept by a phase exactly when it is not a stale erase. */
  lemma StepIsSoundIff(s: Sys, e: Event)
    requires Sound(s)
    ensures Sound(Step(s, e)) <==> !StaleErase(s, e)
  {
    if StaleErase(s, e) {
      if PhaseOf(s, e.thread).id in s.pool.clients {
        StaleEraseLoses(s, e);
      } else if |s.pool.secondary| < s.pool.opt.secondaryPool {
        StaleErasePools(s, e);
      } else {
        StaleEraseDrops(s, e);
      }
    } else {
      SoundStep(s, e);
    }
  }

  lemma SoundStep(s: Sys, e: Event)
    requires Sound(s) && !StaleErase(s, e)
    ensures Sound(Step(s, e))
  {
    var t := e.thread;
    if t in s.threads { assert PhaseOk(s, s.threads[t]); }
    match (e.action, PhaseOf(s, t))
    case (Look(_), _) => LookingKeeps(s, e);
    case (Relook, _) => LookingKeeps(s, e);
    case (Seek(_), _) => LookingKeeps(s, e);
    case (Insert, Missed(id)) => if id in s.pool.clients { LostInsertKeeps(s, e); } else { WonInsertKeeps(s, e); }
    case (Use(call), Holding(id, a)) => PuttingKeeps(s, t, a, CallOn(s.pool.ledger[a], id, call), Idle);
    case (Release, Found(id, a)) => PuttingKeeps(s, t, a, UnregIo(s.pool.ledger[a], id), Released(id, a));
    case (Erase, Released(_, _)) => EraseKeeps(s, e);
    case (Halt, Dropping(_)) => HaltKeeps(s, e);
    case _ =>
  }

  ghost predicate StaleFree(s: Sys, events: seq<Event>) {
    forall i :: 0 <= i < |events| ==> !StaleErase(Play(s, events[..i]), events[i])
  }

  lemma {:induction false} PlayIsSound(s: Sys, events: seq<Event>)
    requires Sound(s) && StaleFree(s, events)
    ensures Sound(Play(s, events))
    decreases |events|
  {
    if events != [] {
      var last := |events| - 1;
      var before := events[..last];
      assert forall i :: 0 <= i < last ==> before[..i] == events[..i];
      PlayIsSound(s, before);
      SoundStep(Play(s, before), events[last]);
    }
  }

  // ----- One unreg_io of an id at a time

  predicate Unregistering(ph: Phase, id: IoId) {
    (ph.Found? || ph.Released?) && ph.id == id
  }

  /** No second unreg_io of an id starts while one is on its way. */
  ghost predicate Orderly(s: Sys, e: Event) {
    e.action.Seek? ==> forall t :: t in s.threads ==> !Unregistering(s.threads[t], e.action.id)
  }

  ghost predicate OrderlyRun(s: Sys, events: seq<Event>) {
    forall i :: 0 <= i < |events| ==> Orderly(Play(s, events[..i]), events[i])
  }

  /** An unreg_io on its way is the only one for its id, and its binding is still there. */
  ghost predicate Pursued(s: Sys) {
    forall t :: t in s.threads && (s.threads[t].Found? || s.threads[t].Released?) ==> PursuedBy(s, t, s.threads[t])
  }

  ghost predicate PursuedBy(s: Sys, t: nat, ph: Phase)
    requires ph.Found? || ph.Released?
  {
    && ph.id in s.pool.clients && s.pool.clients[ph.id] == ph.adapter
    && forall u :: u in s.threads && Unregistering(s.threads[u], ph.id) ==> u == t
  }

  predicate SamePursuit(v: Phase, w: Phase) {
    v.Found? || v.Released? ==> (w.Found? || w.Released?) && w.id == v.id && w.adapter == v.adapter
  }

  /** Phases that neither begin nor end an unreg_io. */
  lemma OthersGoOn(s: Sys, e: Event)
    requires Linked(s.pool) && Exclusive(s.pool) && !e.action.Seek? && !e.action.Erase?
    ensures forall id :: id in s.pool.clients ==>
      id in Step(s, e).pool.clients && Step(s, e).pool.clients[id] == s.pool.clients[id]
    ensures forall u :: SamePursuit(PhaseOf(Step(s, e), u), PhaseOf(s, u))
  {
    if e.action.Insert? { TakeDetaches(s.pool); }
  }

  lemma GoingOnKeepsPursuit(s: Sys, r: Sys)
    requires Pursued(s)
    requires forall id :: id in s.pool.clients ==> id in r.pool.clients && r.pool.clients[id] == s.pool.clients[id]
    requires forall u :: SamePursuit(PhaseOf(r, u), PhaseOf(s, u))
    ensures Pursued(r)
  {
    forall t | t in r.threads && (r.threads[t].Found? || r.threads[t].Released?) ensures PursuedBy(r, t, r.threads[t]) {
      assert SamePursuit(PhaseOf(r, t), PhaseOf(s, t)) && PursuedBy(s, t, s.threads[t]);
      forall u | u in r.threads && Unregistering(r.threads[u], r.threads[t].id) ensures u == t {
        assert SamePursuit(PhaseOf(r, u), PhaseOf(s, u));
      }
    }
  }

  lemma OrderlyKeepsPursuit(s: Sys, e: Event)
    requires Sound(s) && Pursued(s) && Orderly(s, e)
    ensures Pursued(Step(s, e)) && !StaleErase(s, e)
  {
    if e.thread in s.threads && s.threads[e.thread].Released? {
      assert PursuedBy(s, e.thread, s.threads[e.thread]);
    }
    if e.action.Seek? || e.action.Erase? {
      var r := Step(s, e);
      forall t | t in r.threads && (r.threads[t].Found? || r.threads[t].Released?) ensures PursuedBy(r, t, r.threads[t]) {
        if t in s.threads && (s.threads[t].Found? || s.threads[t].Released?) {
          assert PursuedBy(s, t, s.threads[t]);
        }
      }
    } else {
      OthersGoOn(s, e);
      GoingOnKeepsPursuit(s, Step(s, e));
    }
  }

  lemma OrderlyPrefix(s: Sys, events: seq<Event>, n: nat)
    requires OrderlyRun(s, events) && n <= |events|
    ensures OrderlyRun(s, events[..n])
  {
    forall i | 0 <= i < n ensures Orderly(Play(s, events[..n][..i]), events[..n][i]) {
      assert events[..n][..i] == events[..i];
    }
  }

  lemma {:induction false} OrderlyPlay(s: Sys, events: seq<Event>)
    requires Sound(s) && Pursued(s) && OrderlyRun(s, events)
    ensures Sound(Play(s, events)) && Pursued(Play(s, events))
    decreases |events|
  {
    if events != [] {
      var last := |events| - 1;
      OrderlyPrefix(s, events, last);
      OrderlyPlay(s, events[..last]);
      OrderlyKeepsPursuit(Play(s, events[..last]), events[last]);
      SoundStep(Play(s, events[..last]), events[last]);
    }
  }

  lemma OrderlyIsStaleFree(s: Sys, events: seq<Event>)
    requires Sound(s) && Pursued(s) && OrderlyRun(s, events)
    ensures StaleFree(s, events)
  {
    forall i | 0 <= i < |events| ensures !StaleErase(Play(s, events[..i]), events[i]) {
      OrderlyPrefix(s, events, i);
      OrderlyPlay(s, events[..i]);
      OrderlyKeepsPursuit(Play(s, events[..i]), events[i]);
    }
  }
}
