/**
  What becomes of each message and each reply handler, told from the history of a run: which event, in
  which state, brought a message to its end or called a handler.
*/
module QueueFates {
  import opened Prelude
  import opened QueueSpec
  import opened QueueConservation

  // ----- Histories

  ghost predicate HappensAt(q: Queue, events: seq<Event>, i: int, p: (Queue, Event) -> bool) {
    0 <= i < |events| && p(Play(q, events[..i]), events[i])
  }

  /** Some event of the run was of this kind in the state in which it happened. */
  ghost predicate Ever(q: Queue, events: seq<Event>, p: (Queue, Event) -> bool) {
    exists i :: HappensAt(q, events, i, p)
  }

  lemma EverSnoc(q: Queue, before: seq<Event>, e: Event, p: (Queue, Event) -> bool)
    ensures Ever(q, before + [e], p) <==> Ever(q, before, p) || p(Play(q, before), e)
  {
    var events, n := before + [e], |before|;
    assert events[..n] == before && events[n] == e;
    if i :| HappensAt(q, events, i, p) {
      assert i < n ==> events[..i] == before[..i] && HappensAt(q, before, i, p);
    }
    if i :| HappensAt(q, before, i, p) {
      assert events[..i] == before[..i] && HappensAt(q, events, i, p);
    }
    if p(Play(q, before), e) {
      assert HappensAt(q, events, n, p);
    }
  }

  // ----- Kinds of events

  /** The message workflow runs task t. */
  predicate Runs(b: Queue, e: Event, t: Task) {
    e.RunsForward? && b.forward != [] && b.forward[0] == t
  }

  /** Message t arrives. */
  predicate Arrives(b: Queue, e: Event, t: Task) {
    e.Perform? && t == Task(b.accepted, e.msg, true)
  }

  function Drops(t: Task): (Queue, Event) -> bool {
    (b: Queue, e: Event) => Runs(b, e, t) && (!t.valid || !b.queueAlive)
  }

  /** The target is gone when t arrives with a handler or when it runs, or the workflow has no room. */
  function Refuses(t: Task): (Queue, Event) -> bool {
    (b: Queue, e: Event) =>
      || (Arrives(b, e, t) && !b.targetAlive && t.msg.handler.Some?)
      || (Runs(b, e, t) && t.valid && b.queueAlive && !b.targetAlive)
      || (e.Overflows? && e.task < |b.forward| && b.forward[e.task] == t)
  }

  /** The target is called with message and handler: in passing when suspended, or by the workflow. */
  function CallsTarget(c: Call): (Queue, Event) -> bool {
    (b: Queue, e: Event) =>
      var t := Task(c.serial, c.msg, true);
      || (Arrives(b, e, t) && b.suspended && b.targetAlive && Wraps(c.msg.handler, c.hook, false))
      || (Runs(b, e, t) && b.queueAlive && b.targetAlive && Wraps(c.msg.handler, c.hook, b.callbackWorkflow))
  }

  /** The hook is the caller's handler, or one that posts to the reply workflow. */
  predicate Wraps(handler: Option<HandlerId>, hook: Hook, posting: bool) {
    match handler
    case None => hook == NoHook
    case Some(h) => hook == if posting then Posting(h) else Direct(h)
  }

  /** Reply r is delivered: from the reply workflow, as nullptr when that drops it, or by the target
      itself, when nothing posts it any more. */
  predicate Delivers(b: Queue, e: Event, r: Reply) {
    || (e.RunsBack? && b.back != [] && r == b.back[0])
    || (e.BackOverflows? && e.reply < |b.back| && r == Reply(b.back[e.reply].serial, b.back[e.reply].handler, None))
    || (e.Answers? && e.call < |b.called| &&
          var c := b.called[e.call];
          (c.hook == Direct(r.handler) || (c.hook == Posting(r.handler) && !b.queueAlive))
          && r == Reply(c.serial, r.handler, e.data))
  }

  /** A refused message is answered with nullptr. */
  ghost predicate Nullifies(b: Queue, e: Event, r: Reply) {
    exists t :: Refuses(t)(b, e) && t.msg.handler == Some(r.handler) && r == Reply(t.serial, r.handler, None)
  }

  ghost function Fires(r: Reply): (Queue, Event) -> bool {
    (b: Queue, e: Event) => Delivers(b, e, r) || Nullifies(b, e, r)
  }

  // ----- What one event adds

  lemma ArrivalRefuses(b: Queue, e: Event, t: Task)
    requires e.Perform?
    ensures var r := Step(b, e);
      r.dropped == b.dropped && (t in r.refused <==> t in b.refused || Refuses(t)(b, e))
  {
    var refused := !b.targetAlive && e.msg.handler.Some?;
    assert Step(b, e).refused == if refused then b.refused + [Task(b.accepted, e.msg, true)] else b.refused;
    assert Refuses(t)(b, e) <==> refused && t == Task(b.accepted, e.msg, true);
  }

  lemma ArrivalCalls(b: Queue, e: Event, c: Call)
    requires e.Perform?
    ensures c in Step(b, e).called <==> c in b.called || CallsTarget(c)(b, e)
  {
    var m := e.msg;
    var passed := Call(b.accepted, m, if m.handler.Some? then Direct(m.handler.value) else NoHook);
    assert c == passed <==> Arrives(b, e, Task(c.serial, c.msg, true)) && Wraps(c.msg.handler, c.hook, false);
    assert Step(b, e).called == if b.suspended && b.targetAlive then b.called + [passed] else b.called;
  }

  lemma RunDrops(b: Queue, e: Event, t: Task)
    requires e.RunsForward?
    ensures t in Step(b, e).dropped <==> t in b.dropped || Drops(t)(b, e)
  {
  }

  lemma RunRefuses(b: Queue, e: Event, t: Task)
    requires e.RunsForward?
    ensures t in Step(b, e).refused <==> t in b.refused || Refuses(t)(b, e)
  {
  }

  lemma RunStepCalls(b: Queue, e: Event, c: Call)
    requires e.RunsForward?
    ensures c in Step(b, e).called <==> c in b.called || CallsTarget(c)(b, e)
  {
    if b.forward != [] {
      var t := b.forward[0];
      var passed := Call(t.serial, t.msg, MakeHandler(b, t.msg.handler));
      assert c == passed <==>
        Task(c.serial, c.msg, true) == t.(valid := true) && Wraps(c.msg.handler, c.hook, b.callbackWorkflow);
      assert Step(b, e).called == if t.valid && b.queueAlive && b.targetAlive then b.called + [passed] else b.called;
    }
  }

  lemma OverflowStep(b: Queue, e: Event, t: Task)
    requires e.Overflows?
    ensures var r := Step(b, e);
      r.dropped == b.dropped && r.called == b.called && (t in r.refused <==> t in b.refused || Refuses(t)(b, e))
  {
  }

  lemma UnregStep(b: Queue, id: IoId)
    ensures var r := UnregIo(b, id);
      r.dropped == b.dropped && r.called == b.called && r.refused == b.refused && r.fired == b.fired
  {
  }

  /** One event adds to each record what its kind says. */
  lemma StepAdds(b: Queue, e: Event, t: Task, c: Call)
    ensures var r := Step(b, e);
      && (t in r.dropped <==> t in b.dropped || Drops(t)(b, e))
      && (t in r.refused <==> t in b.refused || Refuses(t)(b, e))
      && (c in r.called <==> c in b.called || CallsTarget(c)(b, e))
  {
    if e.Perform? {
      ArrivalRefuses(b, e, t);
      ArrivalCalls(b, e, c);
    } else if e.RunsForward? {
      RunDrops(b, e, t);
      RunRefuses(b, e, t);
      RunStepCalls(b, e, c);
    } else if e.Overflows? {
      OverflowStep(b, e, t);
    } else if e.Unregisters? {
      UnregStep(b, e.id);
    } else {
      ReplyStepKeepsMessages(b, e);
    }
  }

  lemma ArrivalFires(b: Queue, e: Event, r: Reply)
    requires e.Perform?
    ensures r in Step(b, e).fired <==> r in b.fired || Fires(r)(b, e)
  {
    var t := Task(b.accepted, e.msg, true);
    assert forall u :: Refuses(u)(b, e) ==> u == t;
  }

  lemma RunFires(b: Queue, e: Event, r: Reply)
    requires e.RunsForward?
    ensures r in Step(b, e).fired <==> r in b.fired || Fires(r)(b, e)
  {
    if b.forward == [] {
      assert forall u :: !Refuses(u)(b, e);
    } else {
      assert forall u :: Refuses(u)(b, e) ==> u == b.forward[0];
    }
  }

  lemma RefuseFires(b: Queue, t: Task, r: Reply)
    ensures r in Refuse(b, t).fired <==>
      r in b.fired || (t.msg.handler == Some(r.handler) && r == Reply(t.serial, r.handler, None))
  {
    assert r in Nullptr(t) <==> t.msg.handler == Some(r.handler) && r == Reply(t.serial, r.handler, None);
  }

  lemma OverflowFires(b: Queue, e: Event, r: Reply)
    requires e.Overflows?
    ensures r in Step(b, e).fired <==> r in b.fired || Fires(r)(b, e)
  {
    assert !Delivers(b, e, r);
    if e.task >= |b.forward| {
      assert forall u :: !Refuses(u)(b, e);
    } else {
      var t := b.forward[e.task];
      assert forall u :: Refuses(u)(b, e) <==> u == t;
      RefuseFires(b.(forward := b.forward[..e.task] + b.forward[e.task + 1..]), t, r);
    }
  }

  lemma AnswerFires(b: Queue, e: Event, r: Reply)
    requires e.Answers?
    ensures r in Step(b, e).fired <==> r in b.fired || Delivers(b, e, r)
  {
  }

  lemma BackFires(b: Queue, e: Event, r: Reply)
    requires e.RunsBack? || e.BackOverflows?
    ensures r in Step(b, e).fired <==> r in b.fired || Delivers(b, e, r)
  {
  }

  lemma StepFires(b: Queue, e: Event, r: Reply)
    ensures r in Step(b, e).fired <==> r in b.fired || Fires(r)(b, e)
  {
    if e.Perform? {
      ArrivalFires(b, e, r);
    } else if e.RunsForward? {
      RunFires(b, e, r);
    } else if e.Overflows? {
      OverflowFires(b, e, r);
    } else {
      assert forall t :: !Refuses(t)(b, e);
      if e.Answers? {
        AnswerFires(b, e, r);
      } else if e.RunsBack? || e.BackOverflows? {
        BackFires(b, e, r);
      } else if e.Unregisters? {
        UnregStep(b, e.id);
      }
    }
  }

  // ----- Whole runs

  predicate Untouched(q: Queue) {
    && q.accepted == 0 && q.forward == [] && q.back == [] && q.called == [] && q.refused == [] && q.dropped == []
    && q.answered == [] && q.fired == [] && !q.crashed
  }

  /** The fate of every message, both ways: it was dropped, refused, or passed to the target with this
      handler, iff there was a moment at which that had to happen. */
  lemma {:induction false} Fates(q: Queue, events: seq<Event>, t: Task, c: Call)
    requires Untouched(q)
    ensures t in Play(q, events).dropped <==> Ever(q, events, Drops(t))
    ensures t in Play(q, events).refused <==> Ever(q, events, Refuses(t))
    ensures c in Play(q, events).called <==> Ever(q, events, CallsTarget(c))
    decreases |events|
  {
    if events != [] {
      var before, e := events[..|events| - 1], events[|events| - 1];
      assert events == before + [e];
      Fates(q, before, t, c);
      EverSnoc(q, before, e, Drops(t));
      EverSnoc(q, before, e, Refuses(t));
      EverSnoc(q, before, e, CallsTarget(c));
      StepAdds(Play(q, before), e, t, c);
    }
  }

  /** A handler was called with this answer, or with nullptr, iff there was a moment at which it had
      to be. */
  lemma {:induction false} FiredIff(q: Queue, events: seq<Event>, r: Reply)
    requires Untouched(q)
    ensures r in Play(q, events).fired <==> Ever(q, events, Fires(r))
    decreases |events|
  {
    if events != [] {
      var before, e := events[..|events| - 1], events[|events| - 1];
      assert events == before + [e];
      FiredIff(q, before, r);
      EverSnoc(q, before, e, Fires(r));
      StepFires(Play(q, before), e, r);
    }
  }
}
